/**
 * The position table (`field_coordinates`): position keys mapped to
 * rectangles, in the insertion order of the JSON object it was loaded from.
 * The resolution steps add synthetic entries to it in place, so it is an
 * object; the sort by `x0` that every multi-character field goes through
 * lives here too.
 */
module Positions {
  import opened Geometry
  import opened Dicts

  type Table = OMap<Rect>

  /** The table one fill request works on, updated in place by the resolution steps. */
  class PositionTable {
    var order: seq<string>
    var rects: map<string, Rect>

    ghost predicate Valid()
      reads this
    {
      Snapshot().Valid()
    }

    /** The table's current contents as a value. */
    function Snapshot(): Table
      reads this
    {
      OMap(order, rects)
    }

    constructor (t: Table)
      requires t.Valid()
      ensures Valid() && Snapshot() == t
    {
      order := t.keys;
      rects := t.vals;
    }

    /** `mapping[k] = r`. */
    method Put(k: string, r: Rect)
      requires Valid()
      modifies this
      ensures Valid()
      ensures Snapshot() == old(Snapshot()).Put(k, r)
    {
      if k !in rects {
        order := order + [k];
      }
      rects := rects[k := r];
    }
  }

  // ---------------------------------------------------------------------
  // sorted(keys, key=lambda k: mapping[k]["x0"])
  // ---------------------------------------------------------------------

  predicate AllIn(keys: seq<string>, rects: map<string, Rect>) {
    forall k :: k in keys ==> k in rects
  }

  /** Left to right: `x0` never decreases along the list. */
  ghost predicate SortedByX0(keys: seq<string>, rects: map<string, Rect>)
    requires AllIn(keys, rects)
  {
    forall i, j :: 0 <= i < j < |keys| ==> rects[keys[i]].x0 <= rects[keys[j]].x0
  }

  /** Puts `k` in front of the first key that does not lie strictly to its left. */
  function InsertByX0(k: string, keys: seq<string>, rects: map<string, Rect>): (r: seq<string>)
    requires k in rects && AllIn(keys, rects)
    ensures AllIn(r, rects)
    ensures multiset(r) == multiset(keys) + multiset{k}
  {
    if keys == [] || rects[k].x0 <= rects[keys[0]].x0 then
      [k] + keys
    else
      assert keys == [keys[0]] + keys[1..];
      [keys[0]] + InsertByX0(k, keys[1..], rects)
  }

  /** Every key of the insertion result is the inserted key or one of the old keys. */
  lemma InsertMembers(k: string, keys: seq<string>, rects: map<string, Rect>, m: string)
    requires k in rects && AllIn(keys, rects)
    requires m in InsertByX0(k, keys, rects)
    ensures m == k || m in keys
  {
    var r := InsertByX0(k, keys, rects);
    assert m in multiset(r);
  }

  lemma {:induction false} InsertSorted(k: string, keys: seq<string>, rects: map<string, Rect>)
    requires k in rects && AllIn(keys, rects) && SortedByX0(keys, rects)
    ensures SortedByX0(InsertByX0(k, keys, rects), rects)
  {
    var r := InsertByX0(k, keys, rects);
    if keys == [] || rects[k].x0 <= rects[keys[0]].x0 {
      assert r == [k] + keys;
      forall i, j | 0 <= i < j < |r| ensures rects[r[i]].x0 <= rects[r[j]].x0 {
        if i > 0 {
          assert r[i] == keys[i - 1] && r[j] == keys[j - 1];
        } else {
          assert r[j] == keys[j - 1];
        }
      }
    } else {
      var rest := InsertByX0(k, keys[1..], rects);
      assert SortedByX0(keys[1..], rects) by {
        forall i, j | 0 <= i < j < |keys[1..]| ensures rects[keys[1..][i]].x0 <= rects[keys[1..][j]].x0 {
          assert keys[1..][i] == keys[i + 1] && keys[1..][j] == keys[j + 1];
        }
      }
      InsertSorted(k, keys[1..], rects);
      assert r == [keys[0]] + rest;
      forall j | 0 <= j < |rest| ensures rects[keys[0]].x0 <= rects[rest[j]].x0 {
        InsertMembers(k, keys[1..], rects, rest[j]);
        if rest[j] != k {
          var n :| 0 <= n < |keys[1..]| && keys[1..][n] == rest[j];
          assert keys[n + 1] == rest[j];
        }
      }
      forall i, j | 0 <= i < j < |r| ensures rects[r[i]].x0 <= rects[r[j]].x0 {
        assert r[j] == rest[j - 1];
        if i > 0 {
          assert r[i] == rest[i - 1];
        }
      }
    }
  }

  /**
   * Python's `sorted` with the key `x0`: a stable sort, so keys with equal
   * `x0` keep their order in the input.
   */
  function SortByX0(keys: seq<string>, rects: map<string, Rect>): (r: seq<string>)
    requires AllIn(keys, rects)
    ensures AllIn(r, rects)
    ensures multiset(r) == multiset(keys) && |r| == |keys|
    ensures SortedByX0(r, rects)
  {
    if keys == [] then []
    else
      assert keys == [keys[0]] + keys[1..];
      var rest := SortByX0(keys[1..], rects);
      InsertSorted(keys[0], rest, rects);
      InsertByX0(keys[0], rest, rects)
  }

  /** The keys of `keys` whose `x0` is exactly `x`, in their order. */
  function AtX0(keys: seq<string>, rects: map<string, Rect>, x: real): seq<string>
    requires AllIn(keys, rects)
  {
    if keys == [] then []
    else if rects[keys[0]].x0 == x then [keys[0]] + AtX0(keys[1..], rects, x)
    else AtX0(keys[1..], rects, x)
  }

  lemma {:induction false} InsertKeepsTies(k: string, keys: seq<string>, rects: map<string, Rect>, x: real)
    requires k in rects && AllIn(keys, rects)
    ensures AtX0(InsertByX0(k, keys, rects), rects, x)
         == (if rects[k].x0 == x then [k] else []) + AtX0(keys, rects, x)
  {
    if keys == [] || rects[k].x0 <= rects[keys[0]].x0 {
      var r := InsertByX0(k, keys, rects);
      assert r == [k] + keys;
      assert r[1..] == keys;
    } else {
      var rest := InsertByX0(k, keys[1..], rects);
      InsertKeepsTies(k, keys[1..], rects, x);
      assert InsertByX0(k, keys, rects) == [keys[0]] + rest;
      assert ([keys[0]] + rest)[1..] == rest;
      if rects[keys[0]].x0 == x {
        // keys[0] lies strictly left of k, so k cannot be at x
        assert rects[k].x0 != x;
      }
    }
  }

  /** Stability: among keys with the same `x0`, the sort keeps the input order. */
  lemma {:induction false} SortIsStable(keys: seq<string>, rects: map<string, Rect>, x: real)
    requires AllIn(keys, rects)
    ensures AtX0(SortByX0(keys, rects), rects, x) == AtX0(keys, rects, x)
  {
    if keys != [] {
      SortIsStable(keys[1..], rects, x);
      InsertKeepsTies(keys[0], SortByX0(keys[1..], rects), rects, x);
    }
  }
}
