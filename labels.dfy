/**
 * The backend's fallback for fields the configuration does not place:
 * `find_field_positions` looks for a printed label ("vorname:", "plz:", ...)
 * among the words extracted from the empty form and takes the box of the
 * word that follows it; `fill_pdf_form` then writes those boxes into the
 * position table as `found_<field>` for the fields that are still missing.
 */
module Labels {
  import opened Base
  import opened Text
  import opened Geometry
  import opened Dicts
  import opened Positions
  import opened FieldKeys

  /** One word of the extracted text with its box (`top`/`bottom` as `y0`/`y1`). */
  datatype Word = Word(text: string, box: Rect)

  /** The label table: each field with the label texts that announce it, in this order. */
  const FieldLabels: seq<(string, seq<string>)> := [
    ("name", ["name:", "nachname:", "last name:", "surname:"]),
    ("vorname", ["vorname:", "first name:", "given name:"]),
    ("strasse", ["stra\U{221A}\U{00FC}e:", "street:", "strasse:"]),
    ("hausnummer", ["nr:", "no:", "number:", "hausnummer:"]),
    ("postleitzahl", ["plz:", "zip:", "postal code:"]),
    ("ort", ["ort:", "city:", "town:"]),
    ("geburtsdatum", ["geburtsdatum:", "birthdate:", "birth date:", "date of birth:"]),
    ("datum", ["datum:", "date:"]),
    ("kundennummer", ["kundennummer:", "customer number:", "client number:", "id:"])
  ]

  /** Each field appears once in a label table. */
  ghost predicate DistinctFields(labels: seq<(string, seq<string>)>) {
    forall i, j :: 0 <= i < j < |labels| ==> labels[i].0 != labels[j].0
  }

  lemma FieldLabelsDistinct()
    ensures DistinctFields(FieldLabels)
  {
  }

  /** The word at `i` is, lowered, one of the labels and is not the last word. */
  predicate IsLabelAt(words: seq<Word>, i: nat, labels: seq<string>) {
    i < |words| - 1 && Lower(words[i].text) in labels
  }

  // ---------------------------------------------------------------------
  // The search as a function of how many words have been looked at
  // ---------------------------------------------------------------------

  /** The inner loop over the label table for the word at `i`, on the first `n` fields. */
  function WordStep(words: seq<Word>, i: nat, labels: seq<(string, seq<string>)>, n: nat, pos: OMap<Rect>): (r: OMap<Rect>)
    requires i < |words| && n <= |labels|
    ensures pos.Valid() ==> r.Valid()
  {
    if n == 0 then pos
    else
      var prev := WordStep(words, i, labels, n - 1, pos);
      if IsLabelAt(words, i, labels[n - 1].1) then prev.Put(labels[n - 1].0, words[i + 1].box) else prev
  }

  /** `field_positions` after the first `n` words. */
  function Scan(words: seq<Word>, labels: seq<(string, seq<string>)>, n: nat): (r: OMap<Rect>)
    requires n <= |words|
    ensures r.Valid()
  {
    if n == 0 then Empty() else WordStep(words, n - 1, labels, |labels|, Scan(words, labels, n - 1))
  }

  /** The index of the last label of `labels` among the first `n` words, if any. */
  function LastLabel(words: seq<Word>, labels: seq<string>, n: nat): (r: Option<nat>)
    requires n <= |words|
    ensures r.Some? ==> r.value < n && IsLabelAt(words, r.value, labels)
    ensures forall i :: (if r.Some? then r.value < i else 0 <= i) && i < n ==> !IsLabelAt(words, i, labels)
  {
    if n == 0 then None
    else if IsLabelAt(words, n - 1, labels) then Some(n - 1)
    else LastLabel(words, labels, n - 1)
  }

  /** What one word does to field `f` (the field at index `m` of the table). */
  lemma {:induction false} WordStepLookup(words: seq<Word>, i: nat, labels: seq<(string, seq<string>)>, n: nat,
                                          pos: OMap<Rect>, m: nat)
    requires i < |words| && n <= |labels| && m < |labels| && DistinctFields(labels) && pos.Valid()
    ensures var r := WordStep(words, i, labels, n, pos);
      && r.Valid()
      && (m < n && IsLabelAt(words, i, labels[m].1) ==>
            labels[m].0 in r.vals && r.vals[labels[m].0] == words[i + 1].box)
      && (!(m < n && IsLabelAt(words, i, labels[m].1)) ==>
            (labels[m].0 in r.vals <==> labels[m].0 in pos.vals)
            && (labels[m].0 in pos.vals ==> r.vals[labels[m].0] == pos.vals[labels[m].0]))
  {
    if n > 0 {
      WordStepLookup(words, i, labels, n - 1, pos, m);
    }
  }

  /** Only fields of the table are ever found. */
  lemma {:induction false} WordStepFields(words: seq<Word>, i: nat, labels: seq<(string, seq<string>)>, n: nat,
                                          pos: OMap<Rect>, f: string)
    requires i < |words| && n <= |labels|
    requires forall m :: 0 <= m < |labels| ==> labels[m].0 != f
    ensures (f in WordStep(words, i, labels, n, pos).vals <==> f in pos.vals)
  {
    if n > 0 {
      WordStepFields(words, i, labels, n - 1, pos, f);
    }
  }

  /**
   * A field is found exactly when one of its labels occurs before the last
   * word, and its box is then the box of the word after the LAST such
   * label; a field outside the label table is never found.
   */
  lemma {:induction false} ScanLookup(words: seq<Word>, labels: seq<(string, seq<string>)>, n: nat, m: nat)
    requires n <= |words| && m < |labels| && DistinctFields(labels)
    ensures var r := Scan(words, labels, n);
      && r.Valid()
      && match LastLabel(words, labels[m].1, n)
         case Some(j) => labels[m].0 in r.vals && r.vals[labels[m].0] == words[j + 1].box
         case None => labels[m].0 !in r.vals
  {
    if n > 0 {
      ScanLookup(words, labels, n - 1, m);
      WordStepLookup(words, n - 1, labels, |labels|, Scan(words, labels, n - 1), m);
    }
  }

  lemma {:induction false} ScanOnlyTableFields(words: seq<Word>, labels: seq<(string, seq<string>)>, n: nat, f: string)
    requires n <= |words|
    requires forall m :: 0 <= m < |labels| ==> labels[m].0 != f
    ensures f !in Scan(words, labels, n).vals
  {
    if n > 0 {
      ScanOnlyTableFields(words, labels, n - 1, f);
      WordStepFields(words, n - 1, labels, |labels|, Scan(words, labels, n - 1), f);
    }
  }

  /** A label that is the very last word announces nothing. */
  lemma LastWordIsNoLabel(words: seq<Word>, labels: seq<string>)
    requires words != []
    ensures !IsLabelAt(words, |words| - 1, labels)
  {
  }

  // ---------------------------------------------------------------------
  // find_field_positions as the source runs it
  // ---------------------------------------------------------------------

  /**
   * The loops of `find_field_positions` over the extracted words and the
   * label table. The requested field names are not consulted by the source,
   * so they are not a parameter here.
   */
  method FindFieldPositions(words: seq<Word>) returns (pos: OMap<Rect>)
    ensures pos == Scan(words, FieldLabels, |words|)
  {
    pos := Empty();
    var i := 0;
    while i < |words|
      invariant 0 <= i <= |words|
      invariant pos == Scan(words, FieldLabels, i)
    {
      var text := Lower(words[i].text);
      var n := 0;
      ghost var before := pos;
      while n < |FieldLabels|
        invariant 0 <= n <= |FieldLabels|
        invariant pos == WordStep(words, i, FieldLabels, n, before)
      {
        var (field, labels) := FieldLabels[n];
        if text in labels && i < |words| - 1 {
          pos := pos.Put(field, words[i + 1].box);
        }
        n := n + 1;
      }
      i := i + 1;
    }
  }

  // ---------------------------------------------------------------------
  // Missing fields and their injection into the table
  // ---------------------------------------------------------------------

  /** A checkbox field (`x...` or `checkbox...`) is never searched for. */
  predicate IsCheckboxName(f: string) {
    StartsWith(f, "x") || StartsWith(f, "checkbox")
  }

  /** The fields with data that have no resolved position, in the order of the form data. */
  function MissingFields(dataFields: seq<string>, fk: OMap<Resolved>): (r: seq<string>)
    ensures forall f :: f in r <==> f in dataFields && f !in fk.vals && !IsCheckboxName(f)
  {
    if dataFields == [] then []
    else
      var rest := MissingFields(dataFields[1..], fk);
      var f := dataFields[0];
      if f !in fk.vals && !IsCheckboxName(f) then [f] + rest else rest
  }

  /** No field of the label table looks like a checkbox, so each of them can be missing. */
  lemma FieldLabelsAreNoCheckboxes(m: nat)
    requires m < |FieldLabels|
    ensures !IsCheckboxName(FieldLabels[m].0)
  {
    var f := FieldLabels[m].0;
    assert |f| > 0 && f[0] != 'x' && f[0] != 'c';
  }

  function FoundKey(f: string): string { "found_" + f }

  /** The table and field keys after the first `n` found positions have been considered. */
  function Inject(t: Table, fk: OMap<Resolved>, missing: seq<string>, found: OMap<Rect>, n: nat): (Table, OMap<Resolved>)
    requires found.KeysMapped() && n <= |found.keys|
  {
    if n == 0 then (t, fk)
    else
      var (t', fk') := Inject(t, fk, missing, found, n - 1);
      var f := found.keys[n - 1];
      if f in missing then (t'.Put(FoundKey(f), found.vals[f]), fk'.Put(f, Single(FoundKey(f)))) else (t', fk')
  }

  /**
   * After the injection, a missing field that was found resolves to the
   * single key `found_<field>`, whose box is the found box; every other
   * field keeps its resolution.
   */
  lemma InjectLookup(t: Table, fk: OMap<Resolved>, missing: seq<string>, found: OMap<Rect>, n: nat, f: string)
    requires found.Valid() && fk.Valid() && t.Valid() && n <= |found.keys|
    ensures var (t', fk') := Inject(t, fk, missing, found, n);
      && t'.Valid() && fk'.Valid()
      && (f in missing && f in found.keys[..n] ==>
            && f in fk'.vals && fk'.vals[f] == Single(FoundKey(f))
            && FoundKey(f) in t'.vals && t'.vals[FoundKey(f)] == found.vals[f])
      && (!(f in missing && f in found.keys[..n]) ==>
            (f in fk'.vals <==> f in fk.vals) && (f in fk.vals ==> fk'.vals[f] == fk.vals[f]))
  {
    InjectValid(t, fk, missing, found, n);
    if f in missing && f in found.keys[..n] {
      InjectHit(t, fk, missing, found, n, f);
    } else {
      InjectMiss(t, fk, missing, found, n, f);
    }
  }

  lemma InjectStep(t: Table, fk: OMap<Resolved>, missing: seq<string>, found: OMap<Rect>, m: nat)
    requires found.KeysMapped() && m < |found.keys|
    ensures var (t', fk') := Inject(t, fk, missing, found, m);
      var g := found.keys[m];
      Inject(t, fk, missing, found, m + 1)
      == if g in missing then (t'.Put(FoundKey(g), found.vals[g]), fk'.Put(g, Single(FoundKey(g)))) else (t', fk')
  {
    var n := m + 1;
    assert n - 1 == m;
  }

  /** The injection keeps the table and the field keys well formed. */
  lemma {:induction false} InjectValid(t: Table, fk: OMap<Resolved>, missing: seq<string>, found: OMap<Rect>, n: nat)
    requires found.KeysMapped() && fk.Valid() && t.Valid() && n <= |found.keys|
    ensures var (t', fk') := Inject(t, fk, missing, found, n); t'.Valid() && fk'.Valid()
  {
    if n > 0 {
      var m: nat := n - 1;
      InjectValid(t, fk, missing, found, m);
      InjectStep(t, fk, missing, found, m);
    }
  }

  /** A missing field among the first `n` found ones resolves to its `found_` key, whose box is the found box. */
  lemma {:induction false} InjectHit(t: Table, fk: OMap<Resolved>, missing: seq<string>, found: OMap<Rect>, n: nat, f: string)
    requires found.KeysMapped() && n <= |found.keys|
    requires f in missing && f in found.keys[..n]
    ensures var (t', fk') := Inject(t, fk, missing, found, n);
      && f in fk'.vals && fk'.vals[f] == Single(FoundKey(f))
      && FoundKey(f) in t'.vals && t'.vals[FoundKey(f)] == found.vals[f]
  {
    var m: nat := n - 1;
    var g := found.keys[m];
    InjectStep(t, fk, missing, found, m);
    assert found.keys[..n] == found.keys[..m] + [g];
    if f != g {
      assert f in found.keys[..m];
      InjectHit(t, fk, missing, found, m, f);
      // `found_` keys of different fields differ
      assert FoundKey(f)[6..] == f && FoundKey(g)[6..] == g;
    }
  }

  /** Any other field keeps its resolution. */
  lemma {:induction false} InjectMiss(t: Table, fk: OMap<Resolved>, missing: seq<string>, found: OMap<Rect>, n: nat, f: string)
    requires found.KeysMapped() && n <= |found.keys|
    requires !(f in missing && f in found.keys[..n])
    ensures var fk' := Inject(t, fk, missing, found, n).1;
      (f in fk'.vals <==> f in fk.vals) && (f in fk.vals ==> fk'.vals[f] == fk.vals[f])
  {
    if n > 0 {
      var m: nat := n - 1;
      InjectStep(t, fk, missing, found, m);
      assert found.keys[..n] == found.keys[..m] + [found.keys[m]];
      InjectMiss(t, fk, missing, found, m, f);
    }
  }

  /** Over the whole of `found`: a missing field that was found resolves to its `found_` key. */
  lemma InjectFound(t: Table, fk: OMap<Resolved>, missing: seq<string>, found: OMap<Rect>, f: string)
    requires found.Valid() && f in missing && f in found.vals
    ensures var (t', fk') := Inject(t, fk, missing, found, |found.keys|);
      && f in fk'.vals && fk'.vals[f] == Single(FoundKey(f))
      && FoundKey(f) in t'.vals && t'.vals[FoundKey(f)] == found.vals[f]
  {
    assert found.keys[..|found.keys|] == found.keys;
    InjectHit(t, fk, missing, found, |found.keys|, f);
  }

  /** Over the whole of `found`: a field that was not found keeps its resolution. */
  lemma InjectNotFound(t: Table, fk: OMap<Resolved>, missing: seq<string>, found: OMap<Rect>, f: string)
    requires found.Valid() && f !in found.vals
    ensures var fk' := Inject(t, fk, missing, found, |found.keys|).1;
      (f in fk'.vals <==> f in fk.vals) && (f in fk.vals ==> fk'.vals[f] == fk.vals[f])
  {
    assert found.keys[..|found.keys|] == found.keys;
    InjectMiss(t, fk, missing, found, |found.keys|, f);
  }

  /** The injection only adds entries to the table. */
  lemma {:induction false} InjectKeepsKeys(t: Table, fk: OMap<Resolved>, missing: seq<string>, found: OMap<Rect>, n: nat, k: string)
    requires found.KeysMapped() && n <= |found.keys| && k in t.vals
    ensures k in Inject(t, fk, missing, found, n).0.vals
  {
    if n > 0 {
      InjectKeepsKeys(t, fk, missing, found, n - 1, k);
    }
  }

  /** Entries of the table other than `found_` keys are unchanged by the injection. */
  lemma {:induction false} InjectKeepsTable(t: Table, fk: OMap<Resolved>, missing: seq<string>, found: OMap<Rect>, n: nat, k: string)
    requires found.KeysMapped() && n <= |found.keys|
    requires !StartsWith(k, "found_")
    ensures var t' := Inject(t, fk, missing, found, n).0;
      && t.keys <= t'.keys
      && (k in t'.vals <==> k in t.vals) && (k in t.vals ==> t'.vals[k] == t.vals[k])
  {
    if n > 0 {
      InjectKeepsTable(t, fk, missing, found, n - 1, k);
    }
  }

  /**
   * The injection loop of `fill_pdf_form`: writes `found_<field>` boxes into
   * the table in place and returns the updated field keys.
   */
  method InjectFoundFields(table: PositionTable, fk0: OMap<Resolved>, missing: seq<string>, found: OMap<Rect>)
    returns (fk: OMap<Resolved>)
    requires table.Valid() && found.KeysMapped()
    modifies table
    ensures table.Valid()
    ensures (table.Snapshot(), fk) == Inject(old(table.Snapshot()), fk0, missing, found, |found.keys|)
  {
    fk := fk0;
    ghost var t0 := table.Snapshot();
    var n := 0;
    while n < |found.keys|
      invariant 0 <= n <= |found.keys| && table.Valid()
      invariant (table.Snapshot(), fk) == Inject(t0, fk0, missing, found, n)
    {
      var f := found.keys[n];
      if f in missing {
        var key := FoundKey(f);
        table.Put(key, found.vals[f]);
        fk := fk.Put(f, Single(key));
      }
      n := n + 1;
    }
  }
}
