/**
 * `process_multi_char_field`: a field written one character per box gets
 * at least as many boxes as its value has characters. A field with no
 * boxes at all is first given a default box (the anchor); when there are
 * still too few boxes, new ones are laid out to the right of the last box
 * at the average spacing of the existing boxes, and the whole list is then
 * sorted left to right. The new boxes are written into the position table.
 */
module Spacing {
  import opened Base
  import opened Text
  import opened Geometry
  import opened Dicts
  import opened Positions
  import opened FieldKeys

  // ---------------------------------------------------------------------
  // Constants and key names
  // ---------------------------------------------------------------------

  /** The backend's anchor when the table has no entry to copy. */
  const GenericAnchor := Rect(100.0, 400.0, 110.0, 410.0, 0)

  /** How far below its reference entry the backend puts an anchor. */
  const ReferenceOffset: real := 30.0

  /** The root copy's anchor for the postal code. */
  const PostalCodeAnchor := Rect(170.0, 671.0, 176.0, 681.0, 0)

  /** The root copy's anchor for every other field. */
  const FieldAnchor := Rect(160.0, 400.0, 166.0, 410.0, 0)

  function DefaultKey(f: string): string { "default_" + f }

  function AutoKey(f: string, i: nat): string { "auto_" + f + "_" + NatToString(i) }

  /** Synthetic keys of one field with different numbers are different. */
  lemma AutoKeyInjective(f: string, i: nat, j: nat)
    requires AutoKey(f, i) == AutoKey(f, j)
    ensures i == j
  {
    var p := "auto_" + f + "_";
    assert AutoKey(f, i)[|p|..] == NatToString(i);
    assert AutoKey(f, j)[|p|..] == NatToString(j);
    NatToStringInjective(i, j);
  }

  /** `AutoKey(f, lo)`, ..., `AutoKey(f, hi - 1)`. */
  function AutoKeys(f: string, lo: nat, hi: nat): (r: seq<string>)
    ensures |r| == if lo <= hi then hi - lo else 0
    ensures forall j :: 0 <= j < |r| ==> r[j] == AutoKey(f, lo + j)
    decreases hi - lo
  {
    if lo >= hi then [] else [AutoKey(f, lo)] + AutoKeys(f, lo + 1, hi)
  }

  /** `k` is one of the synthetic keys numbered `lo` to `hi - 1`. */
  predicate IsAutoKey(k: string, f: string, lo: nat, hi: nat) {
    exists j: nat :: lo <= j < hi && k == AutoKey(f, j)
  }

  // ---------------------------------------------------------------------
  // The anchor of a field without boxes
  // ---------------------------------------------------------------------

  /**
   * The backend copies the first complete entry of the table, moved down by
   * `ReferenceOffset`, or takes `GenericAnchor` when the table is empty; the
   * root copy has fixed anchors.
   */
  function Anchor(v: Variant, t: Table, f: string): Rect
    requires t.KeysMapped()
  {
    match v
    case Backend =>
      if t.keys == [] then GenericAnchor else Shift(t.vals[t.keys[0]], 0.0, ReferenceOffset)
    case Root =>
      if f == "postleitzahl" then PostalCodeAnchor else FieldAnchor
  }

  /** A table and a key list: what the function works on and what it leaves. */
  datatype Outcome = Outcome(table: Table, keys: seq<string>)

  /** The state after the first step: a field with no boxes gets the default box. */
  function Seeded(v: Variant, t: Table, f: string, keys: seq<string>): (o: Outcome)
    requires t.KeysMapped()
    ensures o.keys != [] && o.table.KeysMapped()
    ensures AllIn(keys, t.vals) ==> AllIn(o.keys, o.table.vals)
  {
    if keys == [] then Outcome(t.Put(DefaultKey(f), Anchor(v, t, f)), [DefaultKey(f)])
    else Outcome(t, keys)
  }

  // ---------------------------------------------------------------------
  // The average spacing
  // ---------------------------------------------------------------------

  /** The sum of the first `n - 1` gaps between consecutive boxes' `x0`. */
  function SumGaps(keys: seq<string>, rects: map<string, Rect>, n: nat): real
    requires AllIn(keys, rects) && 1 <= n <= |keys|
  {
    if n == 1 then 0.0
    else SumGaps(keys, rects, n - 1) + (rects[keys[n - 1]].x0 - rects[keys[n - 2]].x0)
  }

  /** The spacing new boxes are laid out at. */
  function Spacing(keys: seq<string>, rects: map<string, Rect>, defaultSpacing: real): real
    requires AllIn(keys, rects) && keys != []
  {
    if |keys| > 1 then SumGaps(keys, rects, |keys|) / (|keys| - 1) as real else defaultSpacing
  }

  /** The gaps telescope: their sum is the distance from the first box to the `n`-th. */
  lemma {:induction false} SumGapsTelescopes(keys: seq<string>, rects: map<string, Rect>, n: nat)
    requires AllIn(keys, rects) && 1 <= n <= |keys|
    ensures SumGaps(keys, rects, n) == rects[keys[n - 1]].x0 - rects[keys[0]].x0
  {
    if n > 1 {
      SumGapsTelescopes(keys, rects, n - 1);
    }
  }

  /**
   * The average of the gaps is the distance from the first box to the last
   * one divided by the number of gaps; with a single box it is the
   * configured default.
   */
  lemma SpacingClosedForm(keys: seq<string>, rects: map<string, Rect>, defaultSpacing: real)
    requires AllIn(keys, rects) && keys != []
    ensures |keys| > 1 ==>
      Spacing(keys, rects, defaultSpacing) == (rects[keys[|keys| - 1]].x0 - rects[keys[0]].x0) / (|keys| - 1) as real
    ensures |keys| == 1 ==> Spacing(keys, rects, defaultSpacing) == defaultSpacing
  {
    SumGapsTelescopes(keys, rects, |keys|);
  }

  // ---------------------------------------------------------------------
  // Laying out new boxes
  // ---------------------------------------------------------------------

  /**
   * The extension loop, one box per step until there are `target` keys:
   * the box numbered by the current length of the key list is the last
   * box moved right by `delta`.
   */
  function Grow(t: Table, keys: seq<string>, f: string, delta: real, target: nat): (o: Outcome)
    requires AllIn(keys, t.vals) && keys != []
    ensures AllIn(o.keys, o.table.vals)
    decreases target - |keys|
  {
    if |keys| >= target then Outcome(t, keys)
    else
      var nk := AutoKey(f, |keys|);
      var t' := t.Put(nk, Shift(t.vals[keys[|keys| - 1]], delta, 0.0));
      Grow(t', keys + [nk], f, delta, target)
  }

  /** The extension keeps the table well formed and every listed key in it, and appends the synthetic keys. */
  lemma GrowShape(t: Table, keys: seq<string>, f: string, delta: real, target: nat)
    requires t.Valid() && AllIn(keys, t.vals) && keys != []
    ensures var o := Grow(t, keys, f, delta, target);
      && o.table.Valid()
      && AllIn(o.keys, o.table.vals)
      && o.keys == keys + AutoKeys(f, |keys|, target)
      && t.keys <= o.table.keys
  {
    GrowValid(t, keys, f, delta, target);
    GrowKeys(t, keys, f, delta, target);
  }

  lemma {:induction false} GrowValid(t: Table, keys: seq<string>, f: string, delta: real, target: nat)
    requires t.Valid() && AllIn(keys, t.vals) && keys != []
    ensures var o := Grow(t, keys, f, delta, target);
      o.table.Valid() && t.keys <= o.table.keys
    decreases target - |keys|
  {
    if |keys| < target {
      var nk := AutoKey(f, |keys|);
      var t' := t.Put(nk, Shift(t.vals[keys[|keys| - 1]], delta, 0.0));
      GrowValid(t', keys + [nk], f, delta, target);
    }
  }

  lemma {:induction false} GrowKeys(t: Table, keys: seq<string>, f: string, delta: real, target: nat)
    requires AllIn(keys, t.vals) && keys != []
    ensures Grow(t, keys, f, delta, target).keys == keys + AutoKeys(f, |keys|, target)
    decreases target - |keys|
  {
    if |keys| < target {
      var nk := AutoKey(f, |keys|);
      var t' := t.Put(nk, Shift(t.vals[keys[|keys| - 1]], delta, 0.0));
      GrowKeys(t', keys + [nk], f, delta, target);
      assert AutoKeys(f, |keys|, target) == [nk] + AutoKeys(f, |keys| + 1, target);
    }
  }

  /** Entries other than the new synthetic ones are left as they were. */
  lemma {:induction false} GrowKeepsOthers(t: Table, keys: seq<string>, f: string, delta: real, target: nat, k: string)
    requires AllIn(keys, t.vals) && keys != []
    requires !IsAutoKey(k, f, |keys|, target)
    ensures var o := Grow(t, keys, f, delta, target);
      (k in o.table.vals <==> k in t.vals) && (k in t.vals ==> o.table.vals[k] == t.vals[k])
    decreases target - |keys|
  {
    if |keys| < target {
      var nk := AutoKey(f, |keys|);
      var t' := t.Put(nk, Shift(t.vals[keys[|keys| - 1]], delta, 0.0));
      assert k != nk;
      GrowKeepsOthers(t', keys + [nk], f, delta, target, k);
    }
  }

  /** The box moved right by `d`, `n` times over. */
  function ShiftTimes(r: Rect, d: real, n: nat): Rect
    decreases n
  {
    if n == 0 then r else ShiftTimes(Shift(r, d, 0.0), d, n - 1)
  }

  /** `n` spacings of `d`. */
  function Offset(n: nat, d: real): real { n as real * d }

  /** Moving `n` times by `d` is moving once by `n * d`. */
  lemma {:induction false} ShiftTimesIsScaled(r: Rect, d: real, n: nat)
    ensures ShiftTimes(r, d, n) == Shift(r, Offset(n, d), 0.0)
    decreases n
  {
    if n > 0 {
      ShiftTimesIsScaled(Shift(r, d, 0.0), d, n - 1);
      var m := (n - 1) as real;
      assert d + m * d == (m + 1.0) * d;
    }
  }

  /**
   * The new boxes are evenly spaced: box number `i` is the last box of the
   * input moved right `i - |keys| + 1` times by the spacing, so at the same
   * height, on the same page and with the same width.
   */
  lemma {:induction false} GrowEvenlySpaced(t: Table, keys: seq<string>, f: string, delta: real, target: nat, i: nat)
    requires AllIn(keys, t.vals) && keys != []
    requires |keys| <= i < target
    ensures var o := Grow(t, keys, f, delta, target);
      && AutoKey(f, i) in o.table.vals
      && o.table.vals[AutoKey(f, i)] == ShiftTimes(t.vals[keys[|keys| - 1]], delta, i - |keys| + 1)
    decreases target - |keys|
  {
    var nk := AutoKey(f, |keys|);
    var last := t.vals[keys[|keys| - 1]];
    var t' := t.Put(nk, Shift(last, delta, 0.0));
    var keys' := keys + [nk];
    assert Grow(t, keys, f, delta, target) == Grow(t', keys', f, delta, target);
    if i == |keys| {
      AutoKeyNotLater(f, |keys|, target);
      GrowKeepsOthers(t', keys', f, delta, target, nk);
    } else {
      GrowEvenlySpaced(t', keys', f, delta, target, i);
      assert keys'[|keys'| - 1] == nk;
    }
  }

  /** A synthetic key is not among those numbered after it. */
  lemma AutoKeyNotLater(f: string, n: nat, target: nat)
    ensures !IsAutoKey(AutoKey(f, n), f, n + 1, target)
  {
    if IsAutoKey(AutoKey(f, n), f, n + 1, target) {
      var j: nat :| n + 1 <= j < target && AutoKey(f, n) == AutoKey(f, j);
      AutoKeyInjective(f, n, j);
    }
  }

  // ---------------------------------------------------------------------
  // The whole function
  // ---------------------------------------------------------------------

  /** What `process_multi_char_field` leaves: the updated table and the field's key list. */
  function MultiChar(v: Variant, t: Table, f: string, value: string, keys: seq<string>, defaultSpacing: real): Outcome
    requires t.KeysMapped() && AllIn(keys, t.vals)
  {
    var s := Seeded(v, t, f, keys);
    if |value| > |s.keys| then
      var g := Grow(s.table, s.keys, f, Spacing(s.keys, s.table.vals, defaultSpacing), |value|);
      Outcome(g.table, SortByX0(g.keys, g.table.vals))
    else s
  }

  function Max(a: int, b: int): int { if a < b then b else a }

  /** The default key is never one of the synthetic keys (`default_` and `auto_` differ at once). */
  lemma DefaultIsNotAuto(f: string, lo: nat, hi: nat)
    ensures !IsAutoKey(DefaultKey(f), f, lo, hi)
  {
    forall j: nat | lo <= j < hi
      ensures DefaultKey(f) != AutoKey(f, j)
    {
      assert DefaultKey(f)[0] != AutoKey(f, j)[0];
    }
  }

  /**
   * Every character of the value gets a box: the field ends with
   * `max(len(value), len(keys), 1)` keys, all of them in the table, and
   * the table stays well formed. A list that is already long enough is
   * returned as it was, after the default box for an empty list.
   */
  lemma MultiCharCoversValue(v: Variant, t: Table, f: string, value: string, keys: seq<string>, defaultSpacing: real)
    requires t.Valid() && AllIn(keys, t.vals)
    ensures var o := MultiChar(v, t, f, value, keys, defaultSpacing);
      && o.table.Valid()
      && AllIn(o.keys, o.table.vals)
      && |o.keys| == Max(|value|, Max(|keys|, 1))
      && (|value| <= Max(|keys|, 1) ==> o == Seeded(v, t, f, keys))
  {
    var s := Seeded(v, t, f, keys);
    assert s.table.Valid() && |s.keys| == Max(|keys|, 1);
    if |value| > |s.keys| {
      var delta := Spacing(s.keys, s.table.vals, defaultSpacing);
      GrowShape(s.table, s.keys, f, delta, |value|);
      var g := Grow(s.table, s.keys, f, delta, |value|);
      assert MultiChar(v, t, f, value, keys, defaultSpacing) == Outcome(g.table, SortByX0(g.keys, g.table.vals));
    }
  }

  /**
   * When boxes are added, the result holds the existing (or default) keys
   * and the synthetic keys `auto_<field>_<i>` for the missing positions,
   * sorted left to right.
   */
  lemma MultiCharSorted(v: Variant, t: Table, f: string, value: string, keys: seq<string>, defaultSpacing: real)
    requires t.Valid() && AllIn(keys, t.vals)
    requires |value| > Max(|keys|, 1)
    ensures var s := Seeded(v, t, f, keys);
      var o := MultiChar(v, t, f, value, keys, defaultSpacing);
      && multiset(o.keys) == multiset(s.keys + AutoKeys(f, |s.keys|, |value|))
      && SortedByX0(o.keys, o.table.vals)
  {
    var s := Seeded(v, t, f, keys);
    assert s.table.Valid() && |s.keys| == Max(|keys|, 1);
    var delta := Spacing(s.keys, s.table.vals, defaultSpacing);
    GrowShape(s.table, s.keys, f, delta, |value|);
    var g := Grow(s.table, s.keys, f, delta, |value|);
    assert MultiChar(v, t, f, value, keys, defaultSpacing) == Outcome(g.table, SortByX0(g.keys, g.table.vals));
  }

  /**
   * The synthetic box numbered `i` is the last existing (or default) box
   * moved right by `i - n + 1` times the spacing, `n` being the number of
   * existing keys; its height, width and page are those of that box.
   */
  lemma MultiCharEvenlySpaced(v: Variant, t: Table, f: string, value: string, keys: seq<string>, defaultSpacing: real, i: nat)
    requires t.Valid() && AllIn(keys, t.vals)
    requires Max(|keys|, 1) <= i < |value|
    ensures var s := Seeded(v, t, f, keys);
      var o := MultiChar(v, t, f, value, keys, defaultSpacing);
      var n := |s.keys|;
      && AutoKey(f, i) in o.table.vals
      && o.table.vals[AutoKey(f, i)]
         == Shift(s.table.vals[s.keys[n - 1]], Offset(i - n + 1, Spacing(s.keys, s.table.vals, defaultSpacing)), 0.0)
  {
    var s := Seeded(v, t, f, keys);
    assert |s.keys| == Max(|keys|, 1);
    var delta := Spacing(s.keys, s.table.vals, defaultSpacing);
    var g := Grow(s.table, s.keys, f, delta, |value|);
    assert MultiChar(v, t, f, value, keys, defaultSpacing).table == g.table;
    GrowEvenlySpaced(s.table, s.keys, f, delta, |value|, i);
    ShiftTimesIsScaled(s.table.vals[s.keys[|s.keys| - 1]], delta, i - |s.keys| + 1);
  }

  /**
   * Nothing else in the table changes: every entry other than the default
   * box of an empty list and the new synthetic boxes keeps its value, and
   * the existing keys keep their order at the front.
   */
  lemma MultiCharKeepsOthers(v: Variant, t: Table, f: string, value: string, keys: seq<string>, defaultSpacing: real, k: string)
    requires t.Valid() && AllIn(keys, t.vals)
    requires !(keys == [] && k == DefaultKey(f)) && !IsAutoKey(k, f, Max(|keys|, 1), |value|)
    ensures var o := MultiChar(v, t, f, value, keys, defaultSpacing);
      && t.keys <= o.table.keys
      && (k in o.table.vals <==> k in t.vals)
      && (k in t.vals ==> o.table.vals[k] == t.vals[k])
  {
    var s := Seeded(v, t, f, keys);
    assert s.table.Valid() && |s.keys| == Max(|keys|, 1);
    assert t.keys <= s.table.keys;
    assert (k in s.table.vals <==> k in t.vals) && (k in t.vals ==> s.table.vals[k] == t.vals[k]);
    if |value| > |s.keys| {
      var delta := Spacing(s.keys, s.table.vals, defaultSpacing);
      GrowShape(s.table, s.keys, f, delta, |value|);
      GrowKeepsOthers(s.table, s.keys, f, delta, |value|, k);
      var g := Grow(s.table, s.keys, f, delta, |value|);
      assert MultiChar(v, t, f, value, keys, defaultSpacing).table == g.table;
    }
  }

  /**
   * A field without boxes starts from its anchor: the default key is in
   * the result and its box is the anchor. The backend's anchor is the first
   * table entry moved down by 30 (the generic box for an empty table); the
   * root copy's is the postal-code box exactly for `postleitzahl`.
   */
  lemma MultiCharAnchor(v: Variant, t: Table, f: string, value: string, defaultSpacing: real)
    requires t.Valid()
    ensures var o := MultiChar(v, t, f, value, [], defaultSpacing);
      && DefaultKey(f) in o.keys
      && o.table.vals[DefaultKey(f)] == Anchor(v, t, f)
    ensures v == Backend && t.keys != [] ==>
      var r := t.vals[t.keys[0]];
      Anchor(v, t, f) == Rect(r.x0, r.y0 + 30.0, r.x1, r.y1 + 30.0, r.page)
    ensures v == Backend && t.keys == [] ==> Anchor(v, t, f) == Rect(100.0, 400.0, 110.0, 410.0, 0)
    ensures v == Root ==> (Anchor(v, t, f) == Rect(170.0, 671.0, 176.0, 681.0, 0) <==> f == "postleitzahl")
  {
    var s := Seeded(v, t, f, []);
    assert s.keys == [DefaultKey(f)] && s.table.vals[DefaultKey(f)] == Anchor(v, t, f);
    if |value| > 1 {
      var delta := Spacing(s.keys, s.table.vals, defaultSpacing);
      GrowShape(s.table, s.keys, f, delta, |value|);
      var g := Grow(s.table, s.keys, f, delta, |value|);
      var o := MultiChar(v, t, f, value, [], defaultSpacing);
      assert o == Outcome(g.table, SortByX0(g.keys, g.table.vals));
      assert g.keys[0] == DefaultKey(f);
      assert DefaultKey(f) in multiset(o.keys);
      DefaultIsNotAuto(f, 1, |value|);
      GrowKeepsOthers(s.table, s.keys, f, delta, |value|, DefaultKey(f));
    }
  }

  /** The extension only adds entries. */
  lemma {:induction false} GrowKeepsKeys(t: Table, keys: seq<string>, f: string, delta: real, target: nat, k: string)
    requires AllIn(keys, t.vals) && keys != [] && k in t.vals
    ensures k in Grow(t, keys, f, delta, target).table.vals
    decreases target - |keys|
  {
    if |keys| < target {
      var nk := AutoKey(f, |keys|);
      var t' := t.Put(nk, Shift(t.vals[keys[|keys| - 1]], delta, 0.0));
      GrowKeepsKeys(t', keys + [nk], f, delta, target, k);
    }
  }

  /** No entry of the table is ever removed. */
  lemma MultiCharKeepsKeys(v: Variant, t: Table, f: string, value: string, keys: seq<string>, defaultSpacing: real, k: string)
    requires t.KeysMapped() && AllIn(keys, t.vals) && k in t.vals
    ensures k in MultiChar(v, t, f, value, keys, defaultSpacing).table.vals
  {
    var s := Seeded(v, t, f, keys);
    if |value| > |s.keys| {
      GrowKeepsKeys(s.table, s.keys, f, Spacing(s.keys, s.table.vals, defaultSpacing), |value|, k);
    }
  }

  // ---------------------------------------------------------------------
  // process_multi_char_field as the source runs it
  // ---------------------------------------------------------------------

  /**
   * Works on the position table in place and returns the field's key list,
   * exactly as `MultiChar` describes.
   */
  method ProcessMultiCharField(v: Variant, table: PositionTable, f: string, value: string, keys0: seq<string>,
                               defaultSpacing: real) returns (keys: seq<string>)
    requires table.Valid() && AllIn(keys0, table.rects)
    modifies table
    ensures table.Valid()
    ensures Outcome(table.Snapshot(), keys) == MultiChar(v, old(table.Snapshot()), f, value, keys0, defaultSpacing)
  {
    keys := SeedKeys(v, table, f, keys0);
    if |value| > |keys| {
      var delta := AverageSpacing(table, keys, defaultSpacing);
      keys := ExtendKeys(table, keys, f, delta, |value|);
      keys := SortByX0(keys, table.rects);
    }
  }

  /** The empty-list branch: the default box is written into the table. */
  method SeedKeys(v: Variant, table: PositionTable, f: string, keys0: seq<string>) returns (keys: seq<string>)
    requires table.Valid() && AllIn(keys0, table.rects)
    modifies table
    ensures table.Valid() && AllIn(keys, table.rects)
    ensures Outcome(table.Snapshot(), keys) == Seeded(v, old(table.Snapshot()), f, keys0)
  {
    keys := keys0;
    if keys == [] {
      var key := DefaultKey(f);
      var anchor: Rect;
      match v {
        case Backend =>
          // every entry is complete, so the first one is the reference
          if |table.order| > 0 {
            var reference := table.rects[table.order[0]];
            anchor := Rect(reference.x0, reference.y0 + ReferenceOffset, reference.x1, reference.y1 + ReferenceOffset, reference.page);
          } else {
            anchor := GenericAnchor;
          }
        case Root =>
          if f == "postleitzahl" {
            anchor := PostalCodeAnchor;
          } else {
            anchor := FieldAnchor;
          }
      }
      table.Put(key, anchor);
      keys := [key];
    }
  }

  /** The `deltas` list and its average: the spacing, reading the table only. */
  method AverageSpacing(table: PositionTable, keys: seq<string>, defaultSpacing: real) returns (delta: real)
    requires AllIn(keys, table.rects) && keys != []
    ensures delta == Spacing(keys, table.rects, defaultSpacing)
  {
    delta := defaultSpacing;
    if |keys| > 1 {
      var sum := 0.0;
      var i := 1;
      while i < |keys|
        invariant 1 <= i <= |keys|
        invariant sum == SumGaps(keys, table.rects, i)
      {
        sum := sum + (table.rects[keys[i]].x0 - table.rects[keys[i - 1]].x0);
        i := i + 1;
      }
      delta := sum / (|keys| - 1) as real;
    }
  }

  /** The extension loop: one synthetic box per missing position, written into the table. */
  method ExtendKeys(table: PositionTable, keys0: seq<string>, f: string, delta: real, target: nat) returns (keys: seq<string>)
    requires table.Valid() && AllIn(keys0, table.rects) && keys0 != []
    modifies table
    ensures table.Valid() && AllIn(keys, table.rects)
    ensures Outcome(table.Snapshot(), keys) == Grow(old(table.Snapshot()), keys0, f, delta, target)
  {
    keys := keys0;
    ghost var t0 := table.Snapshot();
    var i := |keys|;
    while i < target
      invariant table.Valid() && keys != [] && AllIn(keys, table.rects)
      invariant i == |keys|
      invariant Grow(table.Snapshot(), keys, f, delta, target) == Grow(t0, keys0, f, delta, target)
      decreases target - i
    {
      var lastKey := keys[|keys| - 1];
      var last := table.rects[lastKey];
      var newKey := AutoKey(f, i);
      var box := Rect(last.x0 + delta, last.y0, last.x1 + delta, last.y1, last.page);
      ghost var before := table.Snapshot();
      assert box == Shift(before.vals[lastKey], delta, 0.0);
      table.Put(newKey, box);
      keys := keys + [newKey];
      i := i + 1;
    }
  }
}
