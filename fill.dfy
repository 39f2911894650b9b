/**
 * `fill_pdf_form` in both copies: the configuration with its defaults, the
 * resolution of every field to its boxes, the backend's label search for
 * fields the configuration does not place, the multi-character step, the
 * four drawing passes on a one-page overlay and the merge onto the empty
 * form. Files, fonts and the extracted words are inputs: `Environment`
 * holds what the file system and the PDF libraries would have answered.
 */
module Fill {
  import opened Base
  import opened Text
  import opened Geometry
  import opened Dicts
  import opened Positions
  import opened FieldKeys
  import opened Spacing
  import opened Labels
  import opened Drawing

  // ---------------------------------------------------------------------
  // The configuration and its defaults
  // ---------------------------------------------------------------------

  const DefaultFontSize: real := 5.0
  const DefaultLetterSpacing: real := 13.0

  /** The parts of a form's JSON configuration the fill reads; a missing key is `None`. */
  datatype FormConfig = FormConfig(
    fieldCoordinates: Option<Table>,
    fieldConfig: Option<OMap<FieldConf>>,
    datumIdentifiers: Option<OMap<Identifiers>>,
    fontSize: Option<real>,
    defaultLetterSpacing: Option<real>)

  /** A JSON object never repeats a key, so every dictionary of a loaded configuration is well formed. */
  ghost predicate WellFormed(c: FormConfig) {
    && (c.fieldCoordinates.Some? ==> c.fieldCoordinates.value.Valid())
    && (c.fieldConfig.Some? ==> c.fieldConfig.value.Valid())
    && (c.datumIdentifiers.Some? ==> c.datumIdentifiers.value.Valid())
  }

  /**
   * `load_form_config`'s defaults: a font size of 5 and a letter spacing of
   * 13 where the file gives none; a value the file gives is kept, and
   * nothing else changes.
   */
  function WithDefaults(c: FormConfig): (r: FormConfig)
    ensures r.fontSize == (if c.fontSize.None? then Some(DefaultFontSize) else c.fontSize)
    ensures r.defaultLetterSpacing
         == (if c.defaultLetterSpacing.None? then Some(DefaultLetterSpacing) else c.defaultLetterSpacing)
    ensures r.(fontSize := c.fontSize, defaultLetterSpacing := c.defaultLetterSpacing) == c
  {
    var withSize := if c.fontSize.Some? then c else c.(fontSize := Some(DefaultFontSize));
    if withSize.defaultLetterSpacing.Some? then withSize
    else withSize.(defaultLetterSpacing := Some(DefaultLetterSpacing))
  }

  /** Applying the defaults twice is applying them once. */
  lemma WithDefaultsIdempotent(c: FormConfig)
    ensures WithDefaults(WithDefaults(c)) == WithDefaults(c)
    ensures WellFormed(c) ==> WellFormed(WithDefaults(c))
  {
  }

  /** `datum_identifiers`, or nothing when the configuration has none. */
  function IdsOf(c: FormConfig): OMap<Identifiers> {
    if c.datumIdentifiers.Some? then c.datumIdentifiers.value else Empty()
  }

  /**
   * What the outside world answers: the registered fonts (`None` when the
   * font file is missing or cannot be registered), the pages of the empty
   * form (`None` when the file does not exist) and the words extracted
   * from it.
   */
  datatype Environment = Environment(fonts: Option<Fonts>, emptyForm: Option<seq<Page>>, words: seq<Word>)

  // ---------------------------------------------------------------------
  // The field keys every drawing pass can rely on
  // ---------------------------------------------------------------------

  /** A well-formed table and field keys whose every list of keys lies in the table. */
  ghost predicate Ready(t: Table, fk: OMap<Resolved>) {
    t.Valid() && fk.Valid() && ListsInTable(fk, t)
  }

  /** Every list `get_field_keys` produces is drawn from the table itself. */
  lemma FieldKeysReady(v: Variant, t: Table, conf: OMap<FieldConf>, ids: OMap<Identifiers>)
    requires t.Valid() && conf.Valid() && ids.Valid()
    ensures Ready(t, FieldKeysOf(v, t, conf, ids))
  {
    var fk := FieldKeysOf(v, t, conf, ids);
    FieldKeysLookup(v, t, conf, ids, "");
    forall f | f in fk.vals && fk.vals[f].Many?
      ensures AllIn(fk.vals[f].keys, t.vals)
    {
      FieldKeysLookup(v, t, conf, ids, f);
    }
  }

  // ---------------------------------------------------------------------
  // The backend's search for fields the configuration does not place
  // ---------------------------------------------------------------------

  /**
   * The table and field keys after the label search with a label table:
   * the backend searches only when some data field is missing; the root
   * copy never searches.
   */
  function LocatedWith(v: Variant, t: Table, fk: OMap<Resolved>, data: OMap<string>, words: seq<Word>,
                       labels: seq<(string, seq<string>)>): (Table, OMap<Resolved>) {
    var missing := MissingFields(data.keys, fk);
    if v == Root || missing == [] then (t, fk)
    else
      var found := Scan(words, labels, |words|);
      Inject(t, fk, missing, found, |found.keys|)
  }

  /** The label search of `fill_pdf_form`, with the source's label table. */
  function Located(v: Variant, t: Table, fk: OMap<Resolved>, data: OMap<string>, words: seq<Word>): (Table, OMap<Resolved>) {
    LocatedWith(v, t, fk, data, words, FieldLabels)
  }

  lemma LocatedReady(v: Variant, t: Table, fk: OMap<Resolved>, data: OMap<string>, words: seq<Word>,
                     labels: seq<(string, seq<string>)>)
    requires Ready(t, fk)
    ensures var (t', fk') := LocatedWith(v, t, fk, data, words, labels); Ready(t', fk')
  {
    var missing := MissingFields(data.keys, fk);
    if v == Backend && missing != [] {
      var found := Scan(words, labels, |words|);
      var n := |found.keys|;
      var (t', fk') := Inject(t, fk, missing, found, n);
      InjectLookup(t, fk, missing, found, n, "");
      forall g | g in fk'.vals && fk'.vals[g].Many?
        ensures AllIn(fk'.vals[g].keys, t'.vals)
      {
        InjectLookup(t, fk, missing, found, n, g);
        forall k | k in fk.vals[g].keys
          ensures k in t'.vals
        {
          InjectKeepsKeys(t, fk, missing, found, n, k);
        }
      }
    }
  }

  /**
   * A data field that the configuration does not place, that is no
   * checkbox, and that a label table with distinct fields knows, resolves
   * in the backend to `found_<field>` with the box of the word after the
   * last of its labels; with no such label it stays unresolved. The
   * source's table qualifies (`FieldLabelsDistinct`,
   * `FieldLabelsAreNoCheckboxes`).
   */
  lemma LocatedByLabel(t: Table, fk: OMap<Resolved>, data: OMap<string>, words: seq<Word>,
                       labels: seq<(string, seq<string>)>, m: nat)
    requires data.Valid() && m < |labels| && DistinctFields(labels)
    requires labels[m].0 in data.vals && labels[m].0 !in fk.vals && !IsCheckboxName(labels[m].0)
    ensures var f := labels[m].0;
      var (t', fk') := LocatedWith(Backend, t, fk, data, words, labels);
      match LastLabel(words, labels[m].1, |words|)
      case Some(j) => && f in fk'.vals && fk'.vals[f] == Single(FoundKey(f))
                      && FoundKey(f) in t'.vals && t'.vals[FoundKey(f)] == words[j + 1].box
      case None => f !in fk'.vals
  {
    var f := labels[m].0;
    var missing := MissingFields(data.keys, fk);
    assert f in missing;
    var found := Scan(words, labels, |words|);
    ScanLookup(words, labels, |words|, m);
    LocatedIsInject(t, fk, data, words, labels);
    match LastLabel(words, labels[m].1, |words|)
    case Some(j) => InjectFound(t, fk, missing, found, f);
    case None => InjectNotFound(t, fk, missing, found, f);
  }

  lemma LocatedIsInject(t: Table, fk: OMap<Resolved>, data: OMap<string>, words: seq<Word>,
                        labels: seq<(string, seq<string>)>)
    requires MissingFields(data.keys, fk) != [] && Scan(words, labels, |words|).KeysMapped()
    ensures var found := Scan(words, labels, |words|);
      LocatedWith(Backend, t, fk, data, words, labels) == Inject(t, fk, MissingFields(data.keys, fk), found, |found.keys|)
  {
  }

  /** A field the configuration already resolves is never overridden by the search. */
  lemma LocatedKeepsResolved(v: Variant, t: Table, fk: OMap<Resolved>, data: OMap<string>, words: seq<Word>,
                             labels: seq<(string, seq<string>)>, f: string)
    requires Ready(t, fk) && f in fk.vals
    ensures var (t', fk') := LocatedWith(v, t, fk, data, words, labels);
      f in fk'.vals && fk'.vals[f] == fk.vals[f]
  {
    var missing := MissingFields(data.keys, fk);
    if v == Backend && missing != [] {
      var found := Scan(words, labels, |words|);
      InjectLookup(t, fk, missing, found, |found.keys|, f);
    }
  }

  // ---------------------------------------------------------------------
  // The multi-character step over `field_config`
  // ---------------------------------------------------------------------

  /** One field's pass keeps the field keys usable: the new list and every old one lie in the new table. */
  lemma MultiStepReady(v: Variant, t: Table, fk: OMap<Resolved>, f: string, value: string, spacing: real)
    requires Ready(t, fk) && f in fk.vals && fk.vals[f].Many?
    ensures var o := MultiChar(v, t, f, value, fk.vals[f].keys, spacing);
      && Ready(o.table, fk.Put(f, Many(o.keys)))
      && fk.Put(f, Many(o.keys)).keys == fk.keys
  {
    var keys := fk.vals[f].keys;
    var o := MultiChar(v, t, f, value, keys, spacing);
    MultiCharCoversValue(v, t, f, value, keys, spacing);
    var fk' := fk.Put(f, Many(o.keys));
    forall g | g in fk'.vals && fk'.vals[g].Many?
      ensures AllIn(fk'.vals[g].keys, o.table.vals)
    {
      if g != f {
        forall k | k in fk.vals[g].keys
          ensures k in o.table.vals
        {
          MultiCharKeepsKeys(v, t, f, value, keys, spacing, k);
        }
      }
    }
  }

  /**
   * One entry `f` of `field_config`: a field with data whose keys are a
   * list gets the list `process_multi_char_field` returns; otherwise
   * nothing changes.
   */
  function MultiStep(v: Variant, t: Table, fk: OMap<Resolved>, f: string, data: OMap<string>, spacing: real)
    : (r: (Table, OMap<Resolved>))
    requires Ready(t, fk)
    ensures Ready(r.0, r.1) && r.1.keys == fk.keys
  {
    if f in data.vals && f in fk.vals && fk.vals[f].Many? then
      var o := MultiChar(v, t, f, data.vals[f], fk.vals[f].keys, spacing);
      MultiStepReady(v, t, fk, f, data.vals[f], spacing);
      (o.table, fk.Put(f, Many(o.keys)))
    else (t, fk)
  }

  /**
   * The step grows the list of its own field to `max(len(value), len(keys), 1)`
   * keys and leaves every other field's resolution as it was.
   */
  lemma MultiStepLookup(v: Variant, t: Table, fk: OMap<Resolved>, g: string, data: OMap<string>, spacing: real, f: string)
    requires Ready(t, fk)
    ensures var fk' := MultiStep(v, t, fk, g, data, spacing).1;
      var grown := f == g && f in fk.vals && fk.vals[f].Many? && f in data.vals;
      && (f in fk'.vals <==> f in fk.vals)
      && (grown ==> fk'.vals[f].Many? && |fk'.vals[f].keys| == Max(|data.vals[f]|, Max(|fk.vals[f].keys|, 1)))
      && (!grown && f in fk.vals ==> fk'.vals[f] == fk.vals[f])
  {
    if f == g && f in fk.vals && fk.vals[f].Many? && f in data.vals {
      MultiCharCoversValue(v, t, f, data.vals[f], fk.vals[f].keys, spacing);
    }
  }

  /**
   * The table and field keys after the first `n` entries of `field_config`,
   * one step per entry. The field keys keep their order.
   */
  function MultiAll(v: Variant, t: Table, fk: OMap<Resolved>, conf: OMap<FieldConf>, data: OMap<string>,
                    spacing: real, n: nat): (r: (Table, OMap<Resolved>))
    requires Ready(t, fk) && conf.KeysMapped() && n <= |conf.keys|
    ensures Ready(r.0, r.1) && r.1.keys == fk.keys
  {
    if n == 0 then (t, fk)
    else
      var (t', fk') := MultiAll(v, t, fk, conf, data, spacing, n - 1);
      MultiStep(v, t', fk', conf.keys[n - 1], data, spacing)
  }

  /**
   * After the first `n` entries, a configured field with data that
   * resolved to a list has `max(len(value), len(keys), 1)` keys; every
   * other field keeps its resolution.
   */
  lemma MultiAllLookup(v: Variant, t: Table, fk: OMap<Resolved>, conf: OMap<FieldConf>, data: OMap<string>,
                       spacing: real, n: nat, f: string)
    requires Ready(t, fk) && conf.Valid() && n <= |conf.keys|
    ensures var fk' := MultiAll(v, t, fk, conf, data, spacing, n).1;
      var grown := f in fk.vals && fk.vals[f].Many? && f in conf.keys[..n] && f in data.vals;
      && (f in fk'.vals <==> f in fk.vals)
      && (grown ==> fk'.vals[f].Many? && |fk'.vals[f].keys| == Max(|data.vals[f]|, Max(|fk.vals[f].keys|, 1)))
      && (!grown && f in fk.vals ==> fk'.vals[f] == fk.vals[f])
  {
    MultiAllKeeps(v, t, fk, conf, data, spacing, n, f);
    if f in fk.vals && fk.vals[f].Many? && f in conf.keys[..n] && f in data.vals {
      MultiAllGrows(v, t, fk, conf, data, spacing, n, f);
    }
  }

  /** A field the first `n` steps do not grow keeps its resolution; none appears or disappears. */
  lemma {:induction false} MultiAllKeeps(v: Variant, t: Table, fk: OMap<Resolved>, conf: OMap<FieldConf>,
                                         data: OMap<string>, spacing: real, n: nat, f: string)
    requires Ready(t, fk) && conf.KeysMapped() && n <= |conf.keys|
    ensures var fk' := MultiAll(v, t, fk, conf, data, spacing, n).1;
      && (f in fk'.vals <==> f in fk.vals)
      && (f in fk.vals && !(fk.vals[f].Many? && f in conf.keys[..n] && f in data.vals) ==> fk'.vals[f] == fk.vals[f])
  {
    if n > 0 {
      var m: nat := n - 1;
      MultiAllKeeps(v, t, fk, conf, data, spacing, m, f);
      assert conf.keys[..m + 1] == conf.keys[..m] + [conf.keys[m]];
      var (t', fk') := MultiAll(v, t, fk, conf, data, spacing, m);
      MultiStepLookup(v, t', fk', conf.keys[m], data, spacing, f);
      MultiAllStep(v, t, fk, conf, data, spacing, m);
    }
  }

  /** A configured field with data that resolved to a list ends with `max(len(value), len(keys), 1)` keys. */
  lemma {:induction false} MultiAllGrows(v: Variant, t: Table, fk: OMap<Resolved>, conf: OMap<FieldConf>,
                                         data: OMap<string>, spacing: real, n: nat, f: string)
    requires Ready(t, fk) && conf.Valid() && n <= |conf.keys|
    requires f in fk.vals && fk.vals[f].Many? && f in conf.keys[..n] && f in data.vals
    ensures var fk' := MultiAll(v, t, fk, conf, data, spacing, n).1;
      f in fk'.vals && fk'.vals[f].Many? && |fk'.vals[f].keys| == Max(|data.vals[f]|, Max(|fk.vals[f].keys|, 1))
  {
    var m: nat := n - 1;
    var g := conf.keys[m];
    assert conf.keys[..n] == conf.keys[..m] + [g];
    if f == g {
      assert f !in conf.keys[..m];
      MultiAllGrowsLast(v, t, fk, conf, data, spacing, m, f);
    } else {
      assert f in conf.keys[..m];
      MultiAllGrows(v, t, fk, conf, data, spacing, m, f);
      MultiAllGrowsKept(v, t, fk, conf, data, spacing, m, f);
    }
  }

  /** The step of the field's own entry grows it; the entries before it left it alone. */
  lemma MultiAllGrowsLast(v: Variant, t: Table, fk: OMap<Resolved>, conf: OMap<FieldConf>,
                          data: OMap<string>, spacing: real, m: nat, f: string)
    requires Ready(t, fk) && conf.KeysMapped() && m < |conf.keys| && f == conf.keys[m] && f !in conf.keys[..m]
    requires f in fk.vals && fk.vals[f].Many? && f in data.vals
    ensures var fk' := MultiAll(v, t, fk, conf, data, spacing, m + 1).1;
      f in fk'.vals && fk'.vals[f].Many? && |fk'.vals[f].keys| == Max(|data.vals[f]|, Max(|fk.vals[f].keys|, 1))
  {
    var (t', fk') := MultiAll(v, t, fk, conf, data, spacing, m);
    MultiAllStep(v, t, fk, conf, data, spacing, m);
    MultiAllKeeps(v, t, fk, conf, data, spacing, m, f);
    MultiStepLookup(v, t', fk', f, data, spacing, f);
  }

  /** The step of another entry keeps the field's resolution. */
  lemma MultiAllGrowsKept(v: Variant, t: Table, fk: OMap<Resolved>, conf: OMap<FieldConf>,
                          data: OMap<string>, spacing: real, m: nat, f: string)
    requires Ready(t, fk) && conf.KeysMapped() && m < |conf.keys| && f != conf.keys[m]
    requires f in MultiAll(v, t, fk, conf, data, spacing, m).1.vals
    ensures var fk0 := MultiAll(v, t, fk, conf, data, spacing, m).1;
      var fk' := MultiAll(v, t, fk, conf, data, spacing, m + 1).1;
      f in fk'.vals && fk'.vals[f] == fk0.vals[f]
  {
    var (t', fk') := MultiAll(v, t, fk, conf, data, spacing, m);
    MultiAllStep(v, t, fk, conf, data, spacing, m);
    MultiStepLookup(v, t', fk', conf.keys[m], data, spacing, f);
  }

  lemma MultiAllStep(v: Variant, t: Table, fk: OMap<Resolved>, conf: OMap<FieldConf>, data: OMap<string>,
                     spacing: real, m: nat)
    requires Ready(t, fk) && conf.KeysMapped() && m < |conf.keys|
    ensures var (t', fk') := MultiAll(v, t, fk, conf, data, spacing, m);
      MultiAll(v, t, fk, conf, data, spacing, m + 1) == MultiStep(v, t', fk', conf.keys[m], data, spacing)
  {
    var n := m + 1;
    assert n - 1 == m;
  }

  /**
   * Every character of a configured field with data that resolved to a
   * list gets a box, so the character pass draws all of them.
   */
  lemma MultiAllDrawsEveryCharacter(v: Variant, t: Table, fk: OMap<Resolved>, conf: OMap<FieldConf>, data: OMap<string>,
                                    spacing: real, f: string, height: real)
    requires Ready(t, fk) && conf.Valid()
    requires f in conf.vals && f in data.vals && f in fk.vals && fk.vals[f].Many?
    ensures var (t', fk') := MultiAll(v, t, fk, conf, data, spacing, |conf.keys|);
      && f in fk'.vals && fk'.vals[f].Many?
      && |FieldChars(t', fk'.vals[f].keys, data.vals[f], height, |fk'.vals[f].keys|)| == |data.vals[f]|
  {
    MultiAllLookup(v, t, fk, conf, data, spacing, |conf.keys|, f);
    assert conf.keys[..|conf.keys|] == conf.keys;
  }

  // ---------------------------------------------------------------------
  // The whole fill
  // ---------------------------------------------------------------------

  /** Everything the fill needs before it resolves a single field. */
  predicate HasInputs(loaded: Option<FormConfig>, env: Environment) {
    && loaded.Some? && env.fonts.Some?
    && loaded.value.fieldCoordinates.Some? && loaded.value.fieldConfig.Some?
    && env.emptyForm.Some? && env.emptyForm.value != []
  }

  /** The table and field keys the drawing passes work on. */
  function Prepared(v: Variant, c: FormConfig, words: seq<Word>, data: OMap<string>): (r: (Table, OMap<Resolved>))
    requires WellFormed(c) && c.fieldCoordinates.Some? && c.fieldConfig.Some?
    ensures Ready(r.0, r.1)
  {
    var t := c.fieldCoordinates.value;
    var conf := c.fieldConfig.value;
    var fk := FieldKeysOf(v, t, conf, IdsOf(c));
    FieldKeysReady(v, t, conf, IdsOf(c));
    var (t1, fk1) := Located(v, t, fk, data, words);
    LocatedReady(v, t, fk, data, words, FieldLabels);
    MultiAll(v, t1, fk1, conf, data, WithDefaults(c).defaultLetterSpacing.value, |conf.keys|)
  }

  /** The preparation as the fill runs it: the field keys, the label search, then the multi-character step. */
  lemma PreparedInSteps(v: Variant, c: FormConfig, words: seq<Word>, data: OMap<string>)
    requires WellFormed(c) && c.fieldCoordinates.Some? && c.fieldConfig.Some?
    ensures var t := c.fieldCoordinates.value;
      var conf := c.fieldConfig.value;
      var located := Located(v, t, FieldKeysOf(v, t, conf, IdsOf(c)), data, words);
      && Ready(located.0, located.1)
      && Prepared(v, c, words, data)
         == MultiAll(v, located.0, located.1, conf, data, WithDefaults(c).defaultLetterSpacing.value, |conf.keys|)
  {
    var t := c.fieldCoordinates.value;
    FieldKeysReady(v, t, c.fieldConfig.value, IdsOf(c));
    LocatedReady(v, t, FieldKeysOf(v, t, c.fieldConfig.value, IdsOf(c)), data, words, FieldLabels);
  }

  /**
   * The overlay's commands: the regular font, then the character, date,
   * checkbox and exact-key passes; `None` when a date or checkbox lookup
   * fails.
   */
  function Commands(v: Variant, t: Table, fk: OMap<Resolved>, conf: OMap<FieldConf>, data: OMap<string>,
                    fonts: Fonts, size: real, height: real): Option<seq<Command>>
    requires fk.KeysMapped() && ListsInTable(fk, t) && conf.KeysMapped()
  {
    var chars := [SetFont(fonts.regular, size)] + CharacterDraws(t, fk, data, height, |fk.keys|);
    match Then(Then(Some(chars), DateDraws(v, t, fk, data, height, |fk.keys|)), CheckDraws(t, fk, height, |fk.keys|))
    case None => None
    case Some(cs) => Some(cs + ExactDraws(v, t, conf, data, height, fonts, size, |conf.keys|))
  }

  /** The pages of the merge loop as a value. */
  function MergedPages(base: seq<Page>, overlay: seq<Page>): seq<Page> {
    seq(|base|, i requires 0 <= i < |base| => if i < |overlay| then MergePage(base[i], overlay[i]) else base[i])
  }

  /** The filled form, or `None` where `fill_pdf_form` returns False. */
  function FillSpec(v: Variant, loaded: Option<FormConfig>, env: Environment, data: OMap<string>): Option<seq<Page>>
    requires loaded.Some? ==> WellFormed(loaded.value)
  {
    if !HasInputs(loaded, env) then None
    else
      var c := WithDefaults(loaded.value);
      var (t, fk) := Prepared(v, loaded.value, env.words, data);
      var base := env.emptyForm.value;
      match Commands(v, t, fk, c.fieldConfig.value, data, env.fonts.value, c.fontSize.value, base[0].height)
      case None => None
      case Some(cmds) => Some(MergedPages(base, OverlayOf(base[0].width, base[0].height, cmds)))
  }

  /**
   * The fill succeeds exactly when the configuration, the fonts, the
   * coordinates, the field configuration and a non-empty empty form are
   * all there, no date field with text resolves to a list or an unknown
   * key, and every `x...` field resolves to a single key of the table.
   */
  lemma FillOutcome(v: Variant, loaded: Option<FormConfig>, env: Environment, data: OMap<string>)
    requires loaded.Some? ==> WellFormed(loaded.value)
    ensures FillSpec(v, loaded, env, data).Some? <==>
      && HasInputs(loaded, env)
      && var (t, fk) := Prepared(v, loaded.value, env.words, data);
         var height := env.emptyForm.value[0].height;
         && (forall i :: 0 <= i < |fk.keys| ==> DateDraw(v, t, fk.keys[i], fk.vals[fk.keys[i]], data, height).Some?)
         && (forall i :: 0 <= i < |fk.keys| && StartsWith(fk.keys[i], "x") ==> SingleBox(t, fk.vals[fk.keys[i]]).Some?)
  {
    if HasInputs(loaded, env) {
      var c := WithDefaults(loaded.value);
      var (t, fk) := Prepared(v, loaded.value, env.words, data);
      var base := env.emptyForm.value;
      CommandsOutcome(v, t, fk, c.fieldConfig.value, data, env.fonts.value, c.fontSize.value, base[0].height);
    }
  }

  /** The overlay can be drawn exactly when every date lookup and every checkbox lookup succeeds. */
  lemma CommandsOutcome(v: Variant, t: Table, fk: OMap<Resolved>, conf: OMap<FieldConf>, data: OMap<string>,
                        fonts: Fonts, size: real, height: real)
    requires fk.KeysMapped() && ListsInTable(fk, t) && conf.KeysMapped()
    ensures Commands(v, t, fk, conf, data, fonts, size, height).Some? <==>
      && (forall i :: 0 <= i < |fk.keys| ==> DateDraw(v, t, fk.keys[i], fk.vals[fk.keys[i]], data, height).Some?)
      && (forall i :: 0 <= i < |fk.keys| && StartsWith(fk.keys[i], "x") ==> SingleBox(t, fk.vals[fk.keys[i]]).Some?)
  {
    DateDrawsFailure(v, t, fk, data, height, |fk.keys|);
    CheckDrawsOutcome(t, fk, height, |fk.keys|);
  }

  /**
   * A filled form has the empty form's pages, in order: the first keeps
   * its size and content and gets the overlay, which starts by selecting
   * the regular font at the configured size; every other page is as it was.
   */
  lemma FillPages(v: Variant, loaded: Option<FormConfig>, env: Environment, data: OMap<string>)
    requires loaded.Some? ==> WellFormed(loaded.value)
    requires FillSpec(v, loaded, env, data).Some?
    ensures var pages := FillSpec(v, loaded, env, data).value;
      var base := env.emptyForm.value;
      && |pages| == |base|
      && pages[0].width == base[0].width && pages[0].height == base[0].height
      && base[0].content + [SetFont(env.fonts.value.regular, WithDefaults(loaded.value).fontSize.value)] <= pages[0].content
      && (forall i :: 1 <= i < |base| ==> pages[i] == base[i])
  {
    var base := env.emptyForm.value;
    var c := WithDefaults(loaded.value);
    var (t, fk) := Prepared(v, loaded.value, env.words, data);
    var fonts := env.fonts.value;
    var cmds := Commands(v, t, fk, c.fieldConfig.value, data, fonts, c.fontSize.value, base[0].height);
    var overlay := OverlayOf(base[0].width, base[0].height, cmds.value);
    var pages := MergedPages(base, overlay);
    assert FillSpec(v, loaded, env, data).value == pages;
    assert pages[0] == MergePage(base[0], overlay[0]);
    CommandsStartWithFont(v, t, fk, c.fieldConfig.value, data, fonts, c.fontSize.value, base[0].height);
  }

  /** The overlay opens with the regular font at the configured size. */
  lemma CommandsStartWithFont(v: Variant, t: Table, fk: OMap<Resolved>, conf: OMap<FieldConf>, data: OMap<string>,
                              fonts: Fonts, size: real, height: real)
    requires fk.KeysMapped() && ListsInTable(fk, t) && conf.KeysMapped()
    ensures var cmds := Commands(v, t, fk, conf, data, fonts, size, height);
      cmds.Some? ==> [SetFont(fonts.regular, size)] <= cmds.value
  {
    var chars := [SetFont(fonts.regular, size)] + CharacterDraws(t, fk, data, height, |fk.keys|);
    var both := Then(Then(Some(chars), DateDraws(v, t, fk, data, height, |fk.keys|)), CheckDraws(t, fk, height, |fk.keys|));
    if both.Some? {
      var rest := both.value[|chars|..] + ExactDraws(v, t, conf, data, height, fonts, size, |conf.keys|);
      assert Commands(v, t, fk, conf, data, fonts, size, height).value == chars + rest;
    }
  }

  // ---------------------------------------------------------------------
  // fill_pdf_form as the source runs it
  // ---------------------------------------------------------------------

  /**
   * Resolves the fields on a position table updated in place, draws the
   * overlay on a fresh canvas and merges it onto the empty form; `ok` is
   * what the source returns and `output` what it writes.
   */
  method FillPdfForm(v: Variant, loaded: Option<FormConfig>, env: Environment, data: OMap<string>)
    returns (ok: bool, output: seq<Page>)
    requires loaded.Some? ==> WellFormed(loaded.value)
    ensures ok <==> FillSpec(v, loaded, env, data).Some?
    ensures ok ==> output == FillSpec(v, loaded, env, data).value
  {
    if !HasInputs(loaded, env) {
      return false, [];
    }
    var config := WithDefaults(loaded.value);
    var fonts := env.fonts.value;
    var base := env.emptyForm.value;
    var t, fieldKeys := PrepareFields(v, loaded.value, data, env.words);
    var commands;
    ok, commands := DrawOverlay(v, t, fieldKeys, config.fieldConfig.value, data, fonts, config.fontSize.value,
                                base[0].width, base[0].height);
    if !ok {
      return false, [];
    }
    output := MergeOverlayWithBase(base, OverlayOf(base[0].width, base[0].height, commands));
    assert output == MergedPages(base, OverlayOf(base[0].width, base[0].height, commands));
  }

  /**
   * The fill's preparation: the position table loaded from the
   * configuration, the field keys, the label search and the
   * multi-character step, all on the one table.
   */
  method PrepareFields(v: Variant, file: FormConfig, data: OMap<string>, words: seq<Word>)
    returns (t: Table, fieldKeys: OMap<Resolved>)
    requires WellFormed(file) && file.fieldCoordinates.Some? && file.fieldConfig.Some?
    ensures (t, fieldKeys) == Prepared(v, file, words, data)
  {
    var table := new PositionTable(file.fieldCoordinates.value);
    ghost var located;
    fieldKeys, located := ResolveFields(v, table, file, data, words);
    fieldKeys := ProcessMultiCharFields(v, table, fieldKeys, file.fieldConfig.value, data,
                                        WithDefaults(file).defaultLetterSpacing.value);
    PreparedInSteps(v, file, words, data);
    t := table.Snapshot();
  }

  /** The loop over `field_config` that runs `process_multi_char_field` on the table in place. */
  method ProcessMultiCharFields(v: Variant, table: PositionTable, fk0: OMap<Resolved>, conf: OMap<FieldConf>,
                                data: OMap<string>, spacing: real) returns (fieldKeys: OMap<Resolved>)
    requires Ready(table.Snapshot(), fk0) && conf.KeysMapped()
    modifies table
    ensures (table.Snapshot(), fieldKeys) == MultiAll(v, old(table.Snapshot()), fk0, conf, data, spacing, |conf.keys|)
  {
    ghost var t0 := table.Snapshot();
    fieldKeys := fk0;
    var i := 0;
    while i < |conf.keys|
      invariant 0 <= i <= |conf.keys| && table.Valid()
      invariant (table.Snapshot(), fieldKeys) == MultiAll(v, t0, fk0, conf, data, spacing, i)
    {
      var f := conf.keys[i];
      if f in data.vals && f in fieldKeys.vals && fieldKeys.vals[f].Many? {
        var keys := ProcessMultiCharField(v, table, f, data.vals[f], fieldKeys.vals[f].keys, spacing);
        fieldKeys := fieldKeys.Put(f, Many(keys));
      }
      i := i + 1;
    }
  }

  /** `get_field_keys` on the table, then, in the backend, the label search for missing fields. */
  method ResolveFields(v: Variant, table: PositionTable, c: FormConfig, data: OMap<string>, words: seq<Word>)
    returns (fieldKeys: OMap<Resolved>, ghost located: (Table, OMap<Resolved>))
    requires WellFormed(c) && c.fieldCoordinates.Some? && c.fieldConfig.Some?
    requires table.Snapshot() == c.fieldCoordinates.value
    modifies table
    ensures table.Valid() && Ready(located.0, located.1)
    ensures (table.Snapshot(), fieldKeys) == located
    ensures located == Located(v, c.fieldCoordinates.value,
                               FieldKeysOf(v, c.fieldCoordinates.value, c.fieldConfig.value, IdsOf(c)), data, words)
  {
    var t := table.Snapshot();
    fieldKeys := GetFieldKeys(v, t, c.fieldConfig.value, IdsOf(c));
    FieldKeysReady(v, t, c.fieldConfig.value, IdsOf(c));
    LocatedReady(v, t, fieldKeys, data, words, FieldLabels);
    located := Located(v, t, fieldKeys, data, words);
    if v == Backend {
      var missing := MissingFields(data.keys, fieldKeys);
      if missing != [] {
        var found := FindFieldPositions(words);
        fieldKeys := InjectFoundFields(table, fieldKeys, missing, found);
      }
    }
  }

  /** The canvas of the size of the empty form's first page, and the four passes on it. */
  method DrawOverlay(v: Variant, t: Table, fk: OMap<Resolved>, conf: OMap<FieldConf>, data: OMap<string>,
                     fonts: Fonts, size: real, width: real, height: real) returns (ok: bool, commands: seq<Command>)
    requires fk.KeysMapped() && ListsInTable(fk, t) && conf.KeysMapped()
    ensures ok <==> Commands(v, t, fk, conf, data, fonts, size, height).Some?
    ensures ok ==> commands == Commands(v, t, fk, conf, data, fonts, size, height).value
  {
    var c := new Canvas(width, height);
    c.Issue(SetFont(fonts.regular, size));
    DrawCharacterFields(c, t, fk, data);
    ghost var chars := c.commands;
    assert chars == [SetFont(fonts.regular, size)] + CharacterDraws(t, fk, data, height, |fk.keys|);
    ghost var dates := DateDraws(v, t, fk, data, height, |fk.keys|);
    ok := DrawDateFields(v, c, t, fk, data);
    if !ok {
      assert Then(Some(chars), dates).None?;
      return false, [];
    }
    ghost var checks := CheckDraws(t, fk, height, |fk.keys|);
    ghost var both := Then(Some(chars), dates);
    assert both == Some(c.commands);
    ok := DrawCheckboxFields(c, t, fk);
    if !ok {
      assert Then(both, checks).None?;
      return false, [];
    }
    assert Then(both, checks) == Some(c.commands);
    DrawExactKeyFields(v, c, t, conf, data, fonts, size);
    commands := c.commands;
  }
}
