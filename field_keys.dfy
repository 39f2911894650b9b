/**
 * `get_field_keys`: from the form's field rules and the position table,
 * the position key(s) of every logical field. Row-match and prefix rules
 * give a list of keys ordered left to right; exact keys and date
 * identifiers give a single key. The two copies of the form filler differ
 * in how a row-match rule picks its character class.
 */
module FieldKeys {
  import opened Base
  import opened Text
  import opened Geometry
  import opened Dicts
  import opened Positions

  /** `backend/pdf_form_filler.py` or the root `pdf_form_filler.py`. */
  datatype Variant = Backend | Root

  /**
   * The `y_coord` / `tolerance` rule of a field, with its optional
   * `field_type` (the empty string when the configuration has none).
   */
  datatype RowRule = RowRule(yCoord: real, tolerance: real, fieldType: string)

  /** One entry of `field_config`: the rule keys it may carry. */
  datatype FieldConf = FieldConf(row: Option<RowRule>, prefix: Option<string>, exactKey: Option<string>)

  /** The rule that applies, by the precedence of the `if`/`elif` chain. */
  datatype Rule = ByRow(rr: RowRule) | ByPrefix(p: string) | ByExactKey(k: string) | NoRule

  /** A field's resolved position: a list of keys (one per character) or one key. */
  datatype Resolved = Many(keys: seq<string>) | Single(key: string)

  /** One entry of `datum_identifiers`: condition name to value. */
  type Identifiers = map<string, string>

  function RuleOf(c: FieldConf): Rule {
    if c.row.Some? then ByRow(c.row.value)
    else if c.prefix.Some? then ByPrefix(c.prefix.value)
    else if c.exactKey.Some? then ByExactKey(c.exactKey.value)
    else NoRule
  }

  // ---------------------------------------------------------------------
  // Row matching
  // ---------------------------------------------------------------------

  datatype CharClass = Digit | Alpha

  /** The name fragments that make the backend infer a digit field. */
  const DigitTokens: seq<string> := ["zip", "plz", "postleitzahl", "code"]

  predicate NameSuggestsDigits(name: string) {
    exists tok :: tok in DigitTokens && Contains(Lower(name), tok)
  }

  /**
   * The character class of a row-match field. The backend takes the
   * configured `field_type`, or infers one from the field name when there
   * is none; only "digit" selects digits. The root copy selects digits for
   * the field named exactly `postleitzahl` and letters for every other.
   */
  function CharClassOf(v: Variant, name: string, rr: RowRule): CharClass {
    match v
    case Backend =>
      var ft := if rr.fieldType != "" then rr.fieldType
                else if NameSuggestsDigits(name) then "digit" else "alpha";
      if ft == "digit" then Digit else Alpha
    case Root =>
      if name == "postleitzahl" then Digit else Alpha
  }

  lemma BackendClass(name: string, rr: RowRule)
    ensures CharClassOf(Backend, name, rr) == Digit
        <==> rr.fieldType == "digit" || (rr.fieldType == "" && NameSuggestsDigits(name))
  {
  }

  lemma RootClass(name: string, rr: RowRule)
    ensures CharClassOf(Root, name, rr) == Digit <==> name == "postleitzahl"
  {
  }

  predicate InClass(c: char, cls: CharClass) {
    match cls
    case Digit => IsDigit(c)
    case Alpha => IsAlpha(c)
  }

  function Abs(x: real): real { if x < 0.0 then -x else x }

  /** A single-character key of the class whose box lies strictly within the tolerance of the row. */
  predicate RowHit(k: string, r: Rect, cls: CharClass, rr: RowRule) {
    |k| == 1 && InClass(k[0], cls) && Abs(r.y0 - rr.yCoord) < rr.tolerance
  }

  /** The list comprehension over the table that selects a row's keys, in table order. */
  function RowCandidates(keys: seq<string>, rects: map<string, Rect>, cls: CharClass, rr: RowRule): (r: seq<string>)
    requires AllIn(keys, rects)
    ensures AllIn(r, rects)
    ensures forall k :: k in r <==> k in keys && RowHit(k, rects[k], cls, rr)
  {
    if keys == [] then []
    else
      var rest := RowCandidates(keys[1..], rects, cls, rr);
      if RowHit(keys[0], rects[keys[0]], cls, rr) then [keys[0]] + rest else rest
  }

  /** The list comprehension that selects the keys starting with a prefix, in table order. */
  function PrefixCandidates(keys: seq<string>, prefix: string): (r: seq<string>)
    ensures forall k :: k in r <==> k in keys && StartsWith(k, prefix)
  {
    if keys == [] then []
    else
      var rest := PrefixCandidates(keys[1..], prefix);
      if StartsWith(keys[0], prefix) then [keys[0]] + rest else rest
  }

  function RowKeys(v: Variant, t: Table, name: string, rr: RowRule): seq<string>
    requires AllIn(t.keys, t.vals)
  {
    SortByX0(RowCandidates(t.keys, t.vals, CharClassOf(v, name, rr), rr), t.vals)
  }

  function PrefixKeys(t: Table, prefix: string): seq<string>
    requires AllIn(t.keys, t.vals)
  {
    var c := PrefixCandidates(t.keys, prefix);
    assert AllIn(c, t.vals);
    SortByX0(c, t.vals)
  }

  /**
   * A row-match field gets exactly the table's single-character keys of its
   * class that lie strictly within the tolerance, ordered left to right.
   */
  lemma RowKeysExact(v: Variant, t: Table, name: string, rr: RowRule)
    requires t.Valid()
    ensures var ks := RowKeys(v, t, name, rr);
      && AllIn(ks, t.vals)
      && (forall k :: k in ks <==> k in t.vals && RowHit(k, t.vals[k], CharClassOf(v, name, rr), rr))
      && SortedByX0(ks, t.vals)
  {
    var c := RowCandidates(t.keys, t.vals, CharClassOf(v, name, rr), rr);
    var ks := RowKeys(v, t, name, rr);
    forall k ensures k in ks <==> k in c {
      assert k in ks <==> k in multiset(ks);
      assert k in c <==> k in multiset(c);
    }
  }

  /** A prefix field gets exactly the keys that start with the prefix, ordered left to right. */
  lemma PrefixKeysExact(t: Table, prefix: string)
    requires t.Valid()
    ensures var ks := PrefixKeys(t, prefix);
      && AllIn(ks, t.vals)
      && (forall k :: k in ks <==> k in t.vals && StartsWith(k, prefix))
      && SortedByX0(ks, t.vals)
  {
    var c := PrefixCandidates(t.keys, prefix);
    var ks := PrefixKeys(t, prefix);
    forall k ensures k in ks <==> k in c {
      assert k in ks <==> k in multiset(ks);
      assert k in c <==> k in multiset(c);
    }
  }

  /** What one `field_config` entry resolves to; `None` when it carries no rule. */
  function KeysFor(v: Variant, t: Table, name: string, c: FieldConf): Option<Resolved>
    requires AllIn(t.keys, t.vals)
  {
    match RuleOf(c)
    case ByRow(rr) => Some(Many(RowKeys(v, t, name, rr)))
    case ByPrefix(p) => Some(Many(PrefixKeys(t, p)))
    case ByExactKey(k) => Some(Single(k))
    case NoRule => None
  }

  // ---------------------------------------------------------------------
  // Date identifiers
  // ---------------------------------------------------------------------

  /**
   * A key satisfies every `contains`, `not_equals` and `contains_also`
   * condition; conditions under any other name are ignored.
   */
  predicate Matches(k: string, ids: Identifiers) {
    && ("contains" in ids ==> Contains(k, ids["contains"]))
    && ("not_equals" in ids ==> k != ids["not_equals"])
    && ("contains_also" in ids ==> Contains(k, ids["contains_also"]))
  }

  /** Index of the first key, from `from` on, that satisfies the identifiers. */
  function FirstMatchFrom(keys: seq<string>, ids: Identifiers, from: nat): (r: Option<nat>)
    requires from <= |keys|
    ensures r.Some? ==> from <= r.value < |keys| && Matches(keys[r.value], ids)
    ensures forall j :: from <= j < |keys| && (r.None? || j < r.value) ==> !Matches(keys[j], ids)
    decreases |keys| - from
  {
    if from == |keys| then None
    else if Matches(keys[from], ids) then Some(from)
    else FirstMatchFrom(keys, ids, from + 1)
  }

  /** The key a date field resolves to: its `exact_key`, else the first match in table order. */
  function DatumKey(t: Table, ids: Identifiers): Option<string> {
    if "exact_key" in ids then Some(ids["exact_key"])
    else match FirstMatchFrom(t.keys, ids, 0)
      case Some(i) => Some(t.keys[i])
      case None => None
  }

  // ---------------------------------------------------------------------
  // The whole of get_field_keys, as the state after each loop iteration
  // ---------------------------------------------------------------------

  /** `field_keys` after the first `n` entries of `field_config`. */
  function ConfigKeys(v: Variant, t: Table, conf: OMap<FieldConf>, n: nat): OMap<Resolved>
    requires AllIn(t.keys, t.vals) && conf.KeysMapped() && n <= |conf.keys|
  {
    if n == 0 then Empty()
    else
      var fk := ConfigKeys(v, t, conf, n - 1);
      var name := conf.keys[n - 1];
      match KeysFor(v, t, name, conf.vals[name])
      case Some(r) => fk.Put(name, r)
      case None => fk
  }

  /** `field_keys` after the first `n` entries of `datum_identifiers`, starting from `fk`. */
  function DatumKeys(t: Table, ids: OMap<Identifiers>, fk: OMap<Resolved>, n: nat): OMap<Resolved>
    requires ids.KeysMapped() && n <= |ids.keys|
  {
    if n == 0 then fk
    else
      var prev := DatumKeys(t, ids, fk, n - 1);
      var f := ids.keys[n - 1];
      match DatumKey(t, ids.vals[f])
      case Some(k) => prev.Put(f, Single(k))
      case None => prev
  }

  function FieldKeysOf(v: Variant, t: Table, conf: OMap<FieldConf>, ids: OMap<Identifiers>): OMap<Resolved>
    requires AllIn(t.keys, t.vals) && conf.KeysMapped() && ids.KeysMapped()
  {
    DatumKeys(t, ids, ConfigKeys(v, t, conf, |conf.keys|), |ids.keys|)
  }

  lemma {:induction false} ConfigKeysLookup(v: Variant, t: Table, conf: OMap<FieldConf>, n: nat, f: string)
    requires t.Valid() && conf.Valid() && n <= |conf.keys|
    ensures var fk := ConfigKeys(v, t, conf, n);
      && fk.Valid()
      && (f in fk.vals <==> f in conf.keys[..n] && KeysFor(v, t, f, conf.vals[f]).Some?)
      && (f in fk.vals ==> fk.vals[f] == KeysFor(v, t, f, conf.vals[f]).value)
  {
    if n > 0 {
      var m: nat := n - 1;
      ConfigKeysLookup(v, t, conf, m, f);
      ConfigKeysStep(v, t, conf, m);
      assert conf.keys[..m + 1] == conf.keys[..m] + [conf.keys[m]];
      if f == conf.keys[m] {
        assert f !in conf.keys[..m];
      }
    }
  }

  lemma ConfigKeysStep(v: Variant, t: Table, conf: OMap<FieldConf>, m: nat)
    requires AllIn(t.keys, t.vals) && conf.KeysMapped() && m < |conf.keys|
    ensures var name := conf.keys[m];
      var r := KeysFor(v, t, name, conf.vals[name]);
      ConfigKeys(v, t, conf, m + 1) == if r.Some? then ConfigKeys(v, t, conf, m).Put(name, r.value) else ConfigKeys(v, t, conf, m)
  {
  }

  lemma DatumKeysLookup(t: Table, ids: OMap<Identifiers>, fk: OMap<Resolved>, n: nat, f: string)
    requires ids.KeysMapped() && fk.Valid() && n <= |ids.keys|
    ensures var r := DatumKeys(t, ids, fk, n);
      && r.Valid()
      && (f in ids.keys[..n] && DatumKey(t, ids.vals[f]).Some? ==>
            f in r.vals && r.vals[f] == Single(DatumKey(t, ids.vals[f]).value))
      && (!(f in ids.keys[..n] && DatumKey(t, ids.vals[f]).Some?) ==>
            (f in r.vals <==> f in fk.vals) && (f in r.vals ==> r.vals[f] == fk.vals[f]))
  {
    DatumKeysValid(t, ids, fk, n);
    if f in ids.keys[..n] && DatumKey(t, ids.vals[f]).Some? {
      DatumKeysHit(t, ids, fk, n, f);
    } else {
      DatumKeysMiss(t, ids, fk, n, f);
    }
  }

  /** A date field whose identifiers find a key ends with that key, whatever came before. */
  lemma {:induction false} DatumKeysHit(t: Table, ids: OMap<Identifiers>, fk: OMap<Resolved>, n: nat, f: string)
    requires ids.KeysMapped() && n <= |ids.keys|
    requires f in ids.keys[..n] && DatumKey(t, ids.vals[f]).Some?
    ensures var r := DatumKeys(t, ids, fk, n);
      f in r.vals && r.vals[f] == Single(DatumKey(t, ids.vals[f]).value)
  {
    var m: nat := n - 1;
    var g := ids.keys[m];
    DatumKeysStep(t, ids, fk, m);
    assert ids.keys[..n] == ids.keys[..m] + [g];
    if f != g {
      DatumKeysHit(t, ids, fk, m, f);
    }
  }

  /** Any other entry is left as it was. */
  lemma {:induction false} DatumKeysMiss(t: Table, ids: OMap<Identifiers>, fk: OMap<Resolved>, n: nat, f: string)
    requires ids.KeysMapped() && n <= |ids.keys|
    requires !(f in ids.keys[..n] && DatumKey(t, ids.vals[f]).Some?)
    ensures var r := DatumKeys(t, ids, fk, n);
      (f in r.vals <==> f in fk.vals) && (f in r.vals ==> r.vals[f] == fk.vals[f])
  {
    if n > 0 {
      var m: nat := n - 1;
      var g := ids.keys[m];
      DatumKeysStep(t, ids, fk, m);
      assert ids.keys[..n] == ids.keys[..m] + [g];
      DatumKeysMiss(t, ids, fk, m, f);
    }
  }

  lemma {:induction false} DatumKeysValid(t: Table, ids: OMap<Identifiers>, fk: OMap<Resolved>, n: nat)
    requires ids.KeysMapped() && fk.Valid() && n <= |ids.keys|
    ensures DatumKeys(t, ids, fk, n).Valid()
  {
    if n > 0 {
      var m: nat := n - 1;
      DatumKeysValid(t, ids, fk, m);
      DatumKeysStep(t, ids, fk, m);
    }
  }

  lemma DatumKeysStep(t: Table, ids: OMap<Identifiers>, fk: OMap<Resolved>, m: nat)
    requires ids.KeysMapped() && m < |ids.keys|
    ensures var f := ids.keys[m];
      DatumKeys(t, ids, fk, m + 1)
      == match DatumKey(t, ids.vals[f]) case Some(k) => DatumKeys(t, ids, fk, m).Put(f, Single(k)) case None => DatumKeys(t, ids, fk, m)
  {
    var n := m + 1;
    assert n - 1 == m;
  }

  /**
   * What `get_field_keys` gives a field. A date field with an `exact_key`
   * gets that key; otherwise a date field gets the first key, in table
   * order, that satisfies its identifiers, and this overrides the field's
   * own rule. A date field with no matching key keeps whatever its rule
   * gave, or stays absent. Any other field gets what its rule gives, by the
   * precedence row match, then prefix, then exact key; a field without a
   * rule is absent.
   */
  lemma FieldKeysLookup(v: Variant, t: Table, conf: OMap<FieldConf>, ids: OMap<Identifiers>, f: string)
    requires t.Valid() && conf.Valid() && ids.Valid()
    ensures var fk := FieldKeysOf(v, t, conf, ids);
      var own := if f in conf.vals then KeysFor(v, t, f, conf.vals[f]) else None;
      var datum := if f in ids.vals then DatumKey(t, ids.vals[f]) else None;
      && fk.Valid()
      && (f in fk.vals <==> datum.Some? || own.Some?)
      && (datum.Some? ==> fk.vals[f] == Single(datum.value))
      && (datum.None? && own.Some? ==> fk.vals[f] == own.value)
  {
    ConfigKeysLookup(v, t, conf, |conf.keys|, f);
    assert conf.keys[..|conf.keys|] == conf.keys;
    var base := ConfigKeys(v, t, conf, |conf.keys|);
    DatumKeysLookup(t, ids, base, |ids.keys|, f);
    assert ids.keys[..|ids.keys|] == ids.keys;
  }

  /** The rule precedence: a row rule wins over a prefix, a prefix over an exact key. */
  lemma RulePrecedence(v: Variant, t: Table, name: string, c: FieldConf)
    requires t.Valid()
    ensures c.row.Some? ==> KeysFor(v, t, name, c) == Some(Many(RowKeys(v, t, name, c.row.value)))
    ensures c.row.None? && c.prefix.Some? ==> KeysFor(v, t, name, c) == Some(Many(PrefixKeys(t, c.prefix.value)))
    ensures c.row.None? && c.prefix.None? && c.exactKey.Some? ==> KeysFor(v, t, name, c) == Some(Single(c.exactKey.value))
    ensures c.row.None? && c.prefix.None? && c.exactKey.None? ==> KeysFor(v, t, name, c).None?
  {
  }

  // ---------------------------------------------------------------------
  // get_field_keys as the source runs it
  // ---------------------------------------------------------------------

  method GetFieldKeys(v: Variant, t: Table, conf: OMap<FieldConf>, ids: OMap<Identifiers>) returns (fk: OMap<Resolved>)
    requires AllIn(t.keys, t.vals) && conf.KeysMapped() && ids.KeysMapped()
    ensures fk == FieldKeysOf(v, t, conf, ids)
  {
    fk := Empty();
    var i := 0;
    while i < |conf.keys|
      invariant 0 <= i <= |conf.keys|
      invariant fk == ConfigKeys(v, t, conf, i)
    {
      fk := ApplyRule(v, t, conf, i, fk);
      i := i + 1;
    }
    fk := ApplyDatumIdentifiers(t, ids, fk);
  }

  /** One pass of the `field_config` loop: the `if`/`elif` chain on the rule keys of entry `i`. */
  method ApplyRule(v: Variant, t: Table, conf: OMap<FieldConf>, i: nat, fk0: OMap<Resolved>) returns (fk: OMap<Resolved>)
    requires AllIn(t.keys, t.vals) && conf.KeysMapped() && i < |conf.keys|
    requires fk0 == ConfigKeys(v, t, conf, i)
    ensures fk == ConfigKeys(v, t, conf, i + 1)
  {
    var name := conf.keys[i];
    var c := conf.vals[name];
    ConfigKeysStep(v, t, conf, i);
    fk := fk0;
    if c.row.Some? {
      var rr := c.row.value;
      var cls := CharClassOf(v, name, rr);
      var keys := RowCandidates(t.keys, t.vals, cls, rr);
      fk := fk.Put(name, Many(SortByX0(keys, t.vals)));
    } else if c.prefix.Some? {
      fk := fk.Put(name, Many(PrefixKeys(t, c.prefix.value)));
    } else if c.exactKey.Some? {
      fk := fk.Put(name, Single(c.exactKey.value));
    }
  }

  /** The `datum_identifiers` loop of `get_field_keys`. */
  method ApplyDatumIdentifiers(t: Table, ids: OMap<Identifiers>, fk0: OMap<Resolved>) returns (fk: OMap<Resolved>)
    requires ids.KeysMapped()
    ensures fk == DatumKeys(t, ids, fk0, |ids.keys|)
  {
    fk := fk0;
    var n := 0;
    while n < |ids.keys|
      invariant 0 <= n <= |ids.keys|
      invariant fk == DatumKeys(t, ids, fk0, n)
    {
      var f := ids.keys[n];
      var id := ids.vals[f];
      if "exact_key" in id {
        fk := fk.Put(f, Single(id["exact_key"]));
      } else {
        var found := FirstMatchingKey(t.keys, id);
        if found.Some? {
          fk := fk.Put(f, Single(t.keys[found.value]));
        }
      }
      n := n + 1;
    }
  }

  /** The search over the table, with its `matches` flag and `break`. */
  method FirstMatchingKey(keys: seq<string>, ids: Identifiers) returns (r: Option<nat>)
    ensures r == FirstMatchFrom(keys, ids, 0)
  {
    r := None;
    var j := 0;
    while j < |keys|
      invariant 0 <= j <= |keys|
      invariant FirstMatchFrom(keys, ids, 0) == FirstMatchFrom(keys, ids, j)
    {
      var matches := Matches(keys[j], ids);
      if matches {
        r := Some(j);
        break;
      }
      j := j + 1;
    }
  }
}
