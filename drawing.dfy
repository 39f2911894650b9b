/**
 * The overlay: the drawing commands the form filler issues on a canvas the
 * size of the empty form's first page, the four drawing passes (character
 * fields, date fields, checkbox marks, exact-key fields including the
 * backend's covered and bolded customer ID) and the merge of the overlay
 * onto the empty form.
 */
module Drawing {
  import opened Base
  import opened Text
  import opened Geometry
  import opened Dicts
  import opened Positions
  import opened FieldKeys

  /** What the form filler asks of the canvas, in the order it asks. */
  datatype Command =
    | SetFont(name: string, size: real)
    | SetFillWhite(white: bool)          // white fill, or back to black
    | FillRect(x: real, y: real, w: real, h: real)
    | DrawString(x: real, y: real, text: string)

  /** The canvas the overlay is drawn on; it only ever holds one page. */
  class Canvas {
    const width: real
    const height: real
    var commands: seq<Command>

    constructor (width: real, height: real)
      ensures this.width == width && this.height == height && commands == []
    {
      this.width := width;
      this.height := height;
      commands := [];
    }

    method Issue(cmd: Command)
      modifies this
      ensures commands == old(commands) + [cmd]
    {
      commands := commands + [cmd];
    }
  }

  /** The font and fill colour the canvas is drawing with. */
  datatype PenState = PenState(font: string, size: real, white: bool)

  /** The pen after one command. */
  function Step(p: PenState, cmd: Command): PenState {
    match cmd
    case SetFont(name, size) => p.(font := name, size := size)
    case SetFillWhite(w) => p.(white := w)
    case _ => p
  }

  /** The pen after a sequence of commands. */
  function Run(p: PenState, cmds: seq<Command>): PenState
    decreases |cmds|
  {
    if cmds == [] then p else Run(Step(p, cmds[0]), cmds[1..])
  }

  lemma {:induction false} RunConcat(p: PenState, a: seq<Command>, b: seq<Command>)
    ensures Run(p, a + b) == Run(Run(p, a), b)
    decreases |a|
  {
    if a == [] {
      assert a + b == b;
    } else {
      assert (a + b)[1..] == a[1..] + b;
      assert (a + b)[0] == a[0];
      RunConcat(Step(p, a[0]), a[1..], b);
    }
  }

  /** Commands that never change the fill colour leave it as it was. */
  lemma {:induction false} RunKeepsFill(p: PenState, cmds: seq<Command>)
    requires forall j :: 0 <= j < |cmds| ==> !cmds[j].SetFillWhite?
    ensures Run(p, cmds).white == p.white
    decreases |cmds|
  {
    if cmds != [] {
      RunKeepsFill(Step(p, cmds[0]), cmds[1..]);
    }
  }

  /** Where a box's text goes: its left edge and its bottom edge measured from the page bottom. */
  function TextAt(r: Rect, height: real, text: string): Command {
    DrawString(r.x0, ConvertCoords(r, height).0, text)
  }

  // ---------------------------------------------------------------------
  // Character fields
  // ---------------------------------------------------------------------

  function Min(a: int, b: int): int { if a < b then a else b }

  /** The characters of one field drawn on its first `m` boxes, one each. */
  function FieldChars(t: Table, keys: seq<string>, value: string, height: real, m: nat): (cs: seq<Command>)
    requires AllIn(keys, t.vals) && m <= |keys|
    ensures |cs| == Min(m, |value|)
    ensures forall j :: 0 <= j < |cs| ==> cs[j] == TextAt(t.vals[keys[j]], height, [value[j]])
  {
    if m == 0 then []
    else
      var prev := FieldChars(t, keys, value, height, m - 1);
      if m - 1 < |value| then prev + [TextAt(t.vals[keys[m - 1]], height, [value[m - 1]])] else prev
  }

  /** Every list of keys in the field keys is in the table. */
  predicate ListsInTable(fk: OMap<Resolved>, t: Table) {
    forall f :: f in fk.vals && fk.vals[f].Many? ==> AllIn(fk.vals[f].keys, t.vals)
  }

  /** The fields the character pass draws: a list of keys, data, and a name not starting with "datum". */
  predicate IsCharacterField(f: string, fk: OMap<Resolved>, data: OMap<string>)
    requires f in fk.vals
  {
    fk.vals[f].Many? && !StartsWith(f, "datum") && f in data.vals
  }

  /** The character pass over the first `n` fields of the field keys. */
  function CharacterDraws(t: Table, fk: OMap<Resolved>, data: OMap<string>, height: real, n: nat): seq<Command>
    requires fk.KeysMapped() && ListsInTable(fk, t) && n <= |fk.keys|
  {
    if n == 0 then []
    else
      var f := fk.keys[n - 1];
      var here := if IsCharacterField(f, fk, data)
        then FieldChars(t, fk.vals[f].keys, data.vals[f], height, |fk.vals[f].keys|) else [];
      CharacterDraws(t, fk, data, height, n - 1) + here
  }

  /**
   * A field with at least as many boxes as characters has every character
   * drawn, the `j`-th on the `j`-th box; with fewer boxes the characters
   * beyond the last box are dropped.
   */
  lemma FieldCharsComplete(t: Table, keys: seq<string>, value: string, height: real)
    requires AllIn(keys, t.vals)
    ensures var cs := FieldChars(t, keys, value, height, |keys|);
      && (|value| <= |keys| ==> |cs| == |value|)
      && (|keys| < |value| ==> |cs| == |keys|)
  {
  }

  method DrawCharacterFields(c: Canvas, t: Table, fk: OMap<Resolved>, data: OMap<string>)
    requires fk.KeysMapped() && ListsInTable(fk, t)
    modifies c
    ensures c.commands == old(c.commands) + CharacterDraws(t, fk, data, c.height, |fk.keys|)
  {
    var i := 0;
    while i < |fk.keys|
      invariant 0 <= i <= |fk.keys|
      invariant c.commands == old(c.commands) + CharacterDraws(t, fk, data, c.height, i)
    {
      DrawCharacterField(c, t, fk, data, i, old(c.commands));
      i := i + 1;
    }
  }

  /** One pass of the outer loop: the characters of field `i`, if it is a character field. */
  method DrawCharacterField(c: Canvas, t: Table, fk: OMap<Resolved>, data: OMap<string>, i: nat, ghost start: seq<Command>)
    requires fk.KeysMapped() && ListsInTable(fk, t) && i < |fk.keys|
    requires c.commands == start + CharacterDraws(t, fk, data, c.height, i)
    modifies c
    ensures c.commands == start + CharacterDraws(t, fk, data, c.height, i + 1)
  {
    var f := fk.keys[i];
    CharacterDrawsStep(t, fk, data, c.height, i);
    var keys := fk.vals[f];
    if keys.Many? && !StartsWith(f, "datum") && f in data.vals {
      DrawFieldChars(c, t, keys.keys, data.vals[f]);
    }
  }

  /** The inner loop: one character per box while the value lasts. */
  method DrawFieldChars(c: Canvas, t: Table, keys: seq<string>, value: string)
    requires AllIn(keys, t.vals)
    modifies c
    ensures c.commands == old(c.commands) + FieldChars(t, keys, value, c.height, |keys|)
  {
    var idx := 0;
    while idx < |keys|
      invariant 0 <= idx <= |keys|
      invariant c.commands == old(c.commands) + FieldChars(t, keys, value, c.height, idx)
    {
      DrawFieldChar(c, t, keys, value, idx, old(c.commands));
      idx := idx + 1;
    }
  }

  /** One pass of the inner loop: the character for box `idx`, while the value lasts. */
  method DrawFieldChar(c: Canvas, t: Table, keys: seq<string>, value: string, idx: nat, ghost start: seq<Command>)
    requires AllIn(keys, t.vals) && idx < |keys|
    requires c.commands == start + FieldChars(t, keys, value, c.height, idx)
    modifies c
    ensures c.commands == start + FieldChars(t, keys, value, c.height, idx + 1)
  {
    var m := idx + 1;
    assert m - 1 == idx;
    if idx < |value| {
      var orig := t.vals[keys[idx]];
      var (newY0, _) := ConvertCoords(orig, c.height);
      c.Issue(DrawString(orig.x0, newY0, [value[idx]]));
    }
  }

  lemma CharacterDrawsStep(t: Table, fk: OMap<Resolved>, data: OMap<string>, height: real, m: nat)
    requires fk.KeysMapped() && ListsInTable(fk, t) && m < |fk.keys|
    ensures var f := fk.keys[m];
      CharacterDraws(t, fk, data, height, m + 1)
      == CharacterDraws(t, fk, data, height, m)
         + if IsCharacterField(f, fk, data) then FieldChars(t, fk.vals[f].keys, data.vals[f], height, |fk.vals[f].keys|) else []
  {
  }

  // ---------------------------------------------------------------------
  // Looking up a single box; a list or an unknown key is an error
  // ---------------------------------------------------------------------

  /**
   * `mapping[field_keys[f]]`: a list raises (a list is not a dictionary
   * key) and so does a key missing from the table.
   */
  function SingleBox(t: Table, r: Resolved): (b: Option<Rect>)
    ensures b.Some? <==> r.Single? && r.key in t.vals
    ensures b.Some? ==> b.value == t.vals[r.key]
  {
    match r
    case Single(k) => if k in t.vals then Some(t.vals[k]) else None
    case Many(_) => None
  }

  /** Appends `here` to a pass that has not failed yet. */
  function Then(acc: Option<seq<Command>>, here: Option<seq<Command>>): (r: Option<seq<Command>>)
    ensures r.Some? <==> acc.Some? && here.Some?
    ensures r.Some? ==> r.value == acc.value + here.value
  {
    match acc
    case None => None
    case Some(cs) => match here
      case None => None
      case Some(hs) => Some(cs + hs)
  }

  // ---------------------------------------------------------------------
  // Date fields
  // ---------------------------------------------------------------------

  predicate IsDateField(f: string) { StartsWith(f, "datum") || f == "geburtsdatum" }

  /**
   * What the date pass draws for one field. `geburtsdatum` draws its own
   * value. Another `datum...` field draws its own value in the backend and
   * the value of `datum` in the root copy, each only when that value exists.
   */
  function DateDraw(v: Variant, t: Table, f: string, r: Resolved, data: OMap<string>, height: real): Option<seq<Command>> {
    var text := if v == Backend || f == "geburtsdatum" then data.Get(f) else data.Get("datum");
    if !IsDateField(f) || text.None? then Some([])
    else match SingleBox(t, r)
      case Some(b) => Some([TextAt(b, height, text.value)])
      case None => None
  }

  /** The date pass over the first `n` fields; `None` once a lookup has failed. */
  function DateDraws(v: Variant, t: Table, fk: OMap<Resolved>, data: OMap<string>, height: real, n: nat): Option<seq<Command>>
    requires fk.KeysMapped() && n <= |fk.keys|
  {
    if n == 0 then Some([])
    else
      var f := fk.keys[n - 1];
      Then(DateDraws(v, t, fk, data, height, n - 1), DateDraw(v, t, f, fk.vals[f], data, height))
  }

  /**
   * The date pass fails exactly when some date field whose text exists
   * resolves to a list of keys or to a key missing from the table.
   */
  lemma {:induction false} DateDrawsFailure(v: Variant, t: Table, fk: OMap<Resolved>, data: OMap<string>, height: real, n: nat)
    requires fk.KeysMapped() && n <= |fk.keys|
    ensures DateDraws(v, t, fk, data, height, n).None?
      <==> exists i :: 0 <= i < n && DateDraw(v, t, fk.keys[i], fk.vals[fk.keys[i]], data, height).None?
  {
    if n > 0 {
      DateDrawsFailure(v, t, fk, data, height, n - 1);
      var f := fk.keys[n - 1];
      if DateDraw(v, t, f, fk.vals[f], data, height).None? {
        assert exists i :: 0 <= i < n && DateDraw(v, t, fk.keys[i], fk.vals[fk.keys[i]], data, height).None? by {
          assert DateDraw(v, t, fk.keys[n - 1], fk.vals[fk.keys[n - 1]], data, height).None?;
        }
      }
    }
  }

  /** In the root copy every `datum...` field shows the value of `datum`; in the backend its own. */
  lemma DateTextSource(t: Table, f: string, k: string, data: OMap<string>, height: real)
    requires StartsWith(f, "datum") && k in t.vals
    ensures "datum" in data.vals ==>
      DateDraw(Root, t, f, Single(k), data, height) == Some([TextAt(t.vals[k], height, data.vals["datum"])])
    ensures "datum" !in data.vals ==> DateDraw(Root, t, f, Single(k), data, height) == Some([])
    ensures f in data.vals ==>
      DateDraw(Backend, t, f, Single(k), data, height) == Some([TextAt(t.vals[k], height, data.vals[f])])
    ensures f !in data.vals ==> DateDraw(Backend, t, f, Single(k), data, height) == Some([])
  {
    assert f[0] == 'd';
  }

  method DrawDateFields(v: Variant, c: Canvas, t: Table, fk: OMap<Resolved>, data: OMap<string>) returns (ok: bool)
    requires fk.KeysMapped()
    modifies c
    ensures ok <==> DateDraws(v, t, fk, data, c.height, |fk.keys|).Some?
    ensures ok ==> c.commands == old(c.commands) + DateDraws(v, t, fk, data, c.height, |fk.keys|).value
  {
    var i := 0;
    while i < |fk.keys|
      invariant 0 <= i <= |fk.keys|
      invariant DateDraws(v, t, fk, data, c.height, i).Some?
      invariant c.commands == old(c.commands) + DateDraws(v, t, fk, data, c.height, i).value
    {
      var f := fk.keys[i];
      if StartsWith(f, "datum") || f == "geburtsdatum" {
        var text := if v == Backend || f == "geburtsdatum" then data.Get(f) else data.Get("datum");
        if text.Some? {
          var r := fk.vals[f];
          if r.Many? || r.key !in t.vals {
            DateDrawsFailure(v, t, fk, data, c.height, |fk.keys|);
            return false;
          }
          var rect := t.vals[r.key];
          var (newY0, _) := ConvertCoords(rect, c.height);
          c.Issue(DrawString(rect.x0, newY0, text.value));
        }
      }
      i := i + 1;
    }
    return true;
  }

  // ---------------------------------------------------------------------
  // Checkbox marks
  // ---------------------------------------------------------------------

  /** Every field whose name starts with "x" gets an "x" on its box, whether or not it has data. */
  function CheckDraw(t: Table, f: string, r: Resolved, height: real): Option<seq<Command>> {
    if !StartsWith(f, "x") then Some([])
    else match SingleBox(t, r)
      case Some(b) => Some([TextAt(b, height, "x")])
      case None => None
  }

  function CheckDraws(t: Table, fk: OMap<Resolved>, height: real, n: nat): Option<seq<Command>>
    requires fk.KeysMapped() && n <= |fk.keys|
  {
    if n == 0 then Some([])
    else
      var f := fk.keys[n - 1];
      Then(CheckDraws(t, fk, height, n - 1), CheckDraw(t, f, fk.vals[f], height))
  }

  /**
   * The checkbox pass succeeds exactly when every `x...` field resolves to a
   * single key of the table, and then it draws one "x" per such field.
   */
  lemma {:induction false} CheckDrawsOutcome(t: Table, fk: OMap<Resolved>, height: real, n: nat)
    requires fk.KeysMapped() && n <= |fk.keys|
    ensures CheckDraws(t, fk, height, n).Some?
      <==> forall i :: 0 <= i < n && StartsWith(fk.keys[i], "x") ==> SingleBox(t, fk.vals[fk.keys[i]]).Some?
    ensures CheckDraws(t, fk, height, n).Some? ==>
      forall cmd :: cmd in CheckDraws(t, fk, height, n).value ==> cmd.DrawString? && cmd.text == "x"
  {
    if n > 0 {
      CheckDrawsOutcome(t, fk, height, n - 1);
      var f := fk.keys[n - 1];
      if StartsWith(f, "x") && SingleBox(t, fk.vals[f]).None? {
        assert !(forall i :: 0 <= i < n && StartsWith(fk.keys[i], "x") ==> SingleBox(t, fk.vals[fk.keys[i]]).Some?) by {
          assert StartsWith(fk.keys[n - 1], "x") && SingleBox(t, fk.vals[fk.keys[n - 1]]).None?;
        }
      }
    }
  }

  method DrawCheckboxFields(c: Canvas, t: Table, fk: OMap<Resolved>) returns (ok: bool)
    requires fk.KeysMapped()
    modifies c
    ensures ok <==> CheckDraws(t, fk, c.height, |fk.keys|).Some?
    ensures ok ==> c.commands == old(c.commands) + CheckDraws(t, fk, c.height, |fk.keys|).value
  {
    var i := 0;
    while i < |fk.keys|
      invariant 0 <= i <= |fk.keys|
      invariant CheckDraws(t, fk, c.height, i).Some?
      invariant c.commands == old(c.commands) + CheckDraws(t, fk, c.height, i).value
    {
      var f := fk.keys[i];
      if StartsWith(f, "x") {
        var r := fk.vals[f];
        if r.Many? || r.key !in t.vals {
          CheckDrawsOutcome(t, fk, c.height, |fk.keys|);
          return false;
        }
        var rect := t.vals[r.key];
        var (newY0, _) := ConvertCoords(rect, c.height);
        c.Issue(DrawString(rect.x0, newY0, "x"));
      }
      i := i + 1;
    }
    return true;
  }

  // ---------------------------------------------------------------------
  // Exact-key fields and the customer ID
  // ---------------------------------------------------------------------

  /** The fonts registered for the fill: the regular one and, in the backend, perhaps a bold one. */
  datatype Fonts = Fonts(regular: string, bold: Option<string>)

  const Padding: real := 2.0

  /** The backend's simulated bold: the text once in place and twice more half a point to the right. */
  function BoldText(x: real, y: real, text: string): seq<Command> {
    [DrawString(x, y, text), DrawString(x + 0.5, y, text), DrawString(x + 0.5, y, text)]
  }

  /**
   * The customer ID: a white box over the printed ID, then the ID in the
   * bold font (or in simulated bold when there is none), in black.
   */
  function IdDraws(r: Rect, height: real, text: string, fonts: Fonts, size: real): seq<Command> {
    seq(6, j requires 0 <= j < 6 => IdCommand(r, ConvertCoords(r, height).0, text, fonts, size, j))
  }

  /** The `j`-th of the six commands: three for the cover, three for the text. */
  function IdCommand(r: Rect, y: real, text: string, fonts: Fonts, size: real, j: nat): Command
    requires j < 6
  {
    if j < 3 then Cover(r, y)[j] else IdText(r.x0, y, text, fonts, size)[j - 3]
  }

  /** The six commands are the cover followed by the text. */
  lemma IdDrawsParts(r: Rect, height: real, text: string, fonts: Fonts, size: real)
    ensures var y := ConvertCoords(r, height).0;
      IdDraws(r, height, text, fonts, size) == Cover(r, y) + IdText(r.x0, y, text, fonts, size)
  {
  }

  /** The white rectangle, `Padding` larger than the box on every side, between the two fill changes. */
  function Cover(r: Rect, y: real): seq<Command> {
    [SetFillWhite(true),
     FillRect(r.x0 - Padding, y - Padding, (r.x1 - r.x0) + Padding * 2.0, (r.y1 - r.y0) + Padding * 2.0),
     SetFillWhite(false)]
  }

  /** The ID in the bold font, back to the regular font after; or in simulated bold. */
  function IdText(x: real, y: real, text: string, fonts: Fonts, size: real): seq<Command> {
    if fonts.bold.Some? && fonts.bold.value != "" then
      [SetFont(fonts.bold.value, size), DrawString(x, y, text), SetFont(fonts.regular, size)]
    else BoldText(x, y, text)
  }

  lemma RunThree(p: PenState, a: Command, b: Command, c: Command)
    ensures Run(p, [a, b, c]) == Step(Step(Step(p, a), b), c)
  {
    assert [a, b, c][1..] == [b, c];
    assert [b, c][1..] == [c];
    assert [c][1..] == [];
    var q := Step(Step(p, a), b);
    assert Run(q, [c]) == Run(Step(q, c), []);
    assert Run(Step(p, a), [b, c]) == Run(q, [c]);
  }

  /**
   * The white box covers the ID's box with the padding on every side, the
   * ID is then drawn at the box's baseline with black fill, and the pen
   * ends as it started: regular font, black fill.
   */
  lemma IdCoverEncloses(r: Rect, height: real, text: string, fonts: Fonts, size: real)
    ensures var cs := IdDraws(r, height, text, fonts, size);
      var y := ConvertCoords(r, height).0;
      && cs[1].FillRect?
      && cs[1].x == r.x0 - 2.0 && cs[1].x + cs[1].w == r.x1 + 2.0
      && cs[1].y == y - 2.0 && cs[1].y + cs[1].h == ConvertCoords(r, height).1 + 2.0
      && (forall j :: 3 <= j < |cs| && cs[j].DrawString? ==>
            && cs[j].text == text && cs[j].y == y
            && !Run(PenState(fonts.regular, size, false), cs[..j]).white)
      && Run(PenState(fonts.regular, size, false), cs) == PenState(fonts.regular, size, false)
  {
    var cs := IdDraws(r, height, text, fonts, size);
    var p := PenState(fonts.regular, size, false);
    var y := ConvertCoords(r, height).0;
    var idText := IdText(r.x0, y, text, fonts, size);
    IdPenRestored(r, height, text, fonts, size);
    IdDrawsParts(r, height, text, fonts, size);
    assert cs == Cover(r, y) + idText;
    assert forall k :: 0 <= k < |idText| ==> !idText[k].SetFillWhite?;
    forall j | 3 <= j < |cs| && cs[j].DrawString?
      ensures !Run(p, cs[..j]).white
    {
      var rest := idText[..j - 3];
      assert cs[..j] == cs[..3] + rest;
      RunConcat(p, cs[..3], rest);
      RunKeepsFill(Run(p, cs[..3]), rest);
    }
  }

  lemma IdPenRestored(r: Rect, height: real, text: string, fonts: Fonts, size: real)
    ensures var cs := IdDraws(r, height, text, fonts, size);
      var p := PenState(fonts.regular, size, false);
      |cs| == 6 && Run(p, cs[..3]) == p && Run(p, cs) == p
  {
    var y := ConvertCoords(r, height).0;
    var cs := IdDraws(r, height, text, fonts, size);
    var p := PenState(fonts.regular, size, false);
    var cover := Cover(r, y);
    var idText := IdText(r.x0, y, text, fonts, size);
    IdDrawsParts(r, height, text, fonts, size);
    assert cs[..3] == cover && cs == cover + idText;
    RunThree(p, cover[0], cover[1], cover[2]);
    RunConcat(p, cover, idText);
    RunThree(p, idText[0], idText[1], idText[2]);
  }

  /**
   * What the exact-key pass draws for one configured field with data: the
   * backend's customer ID when the table has `id_field`; otherwise the
   * value on the box of the field's `exact_key` when it is in the table,
   * except for `geburtsdatum`.
   */
  function ExactDraw(v: Variant, t: Table, f: string, conf: FieldConf, data: OMap<string>, height: real,
                     fonts: Fonts, size: real): seq<Command> {
    if f !in data.vals then []
    else if v == Backend && f == "ID" && "id_field" in t.vals then
      IdDraws(t.vals["id_field"], height, data.vals[f], fonts, size)
    else if conf.exactKey.Some? && f != "geburtsdatum" && conf.exactKey.value in t.vals then
      [TextAt(t.vals[conf.exactKey.value], height, data.vals[f])]
    else []
  }

  function ExactDraws(v: Variant, t: Table, conf: OMap<FieldConf>, data: OMap<string>, height: real,
                      fonts: Fonts, size: real, n: nat): seq<Command>
    requires conf.KeysMapped() && n <= |conf.keys|
  {
    if n == 0 then []
    else
      var f := conf.keys[n - 1];
      ExactDraws(v, t, conf, data, height, fonts, size, n - 1) + ExactDraw(v, t, f, conf.vals[f], data, height, fonts, size)
  }

  /**
   * Whatever the exact-key pass draws, the pen ends in the regular font
   * with black fill when it started so.
   */
  lemma {:induction false} ExactDrawsKeepPen(v: Variant, t: Table, conf: OMap<FieldConf>, data: OMap<string>, height: real,
                                             fonts: Fonts, size: real, n: nat)
    requires conf.KeysMapped() && n <= |conf.keys|
    ensures var p := PenState(fonts.regular, size, false);
      Run(p, ExactDraws(v, t, conf, data, height, fonts, size, n)) == p
  {
    if n > 0 {
      var p := PenState(fonts.regular, size, false);
      var f := conf.keys[n - 1];
      ExactDrawsKeepPen(v, t, conf, data, height, fonts, size, n - 1);
      RunConcat(p, ExactDraws(v, t, conf, data, height, fonts, size, n - 1), ExactDraw(v, t, f, conf.vals[f], data, height, fonts, size));
      if f in data.vals && v == Backend && f == "ID" && "id_field" in t.vals {
        IdPenRestored(t.vals["id_field"], height, data.vals[f], fonts, size);
      } else {
        var d := ExactDraw(v, t, f, conf.vals[f], data, height, fonts, size);
        assert d == [] || (|d| == 1 && d[0].DrawString?);
        assert d != [] ==> d[1..] == [];
      }
    }
  }

  method DrawExactKeyFields(v: Variant, c: Canvas, t: Table, conf: OMap<FieldConf>, data: OMap<string>, fonts: Fonts, size: real)
    requires conf.KeysMapped()
    modifies c
    ensures c.commands == old(c.commands) + ExactDraws(v, t, conf, data, c.height, fonts, size, |conf.keys|)
  {
    var height := c.height;
    var i := 0;
    while i < |conf.keys|
      invariant 0 <= i <= |conf.keys|
      invariant c.commands == old(c.commands) + ExactDraws(v, t, conf, data, height, fonts, size, i)
    {
      DrawExactKeyField(v, c, t, conf, data, fonts, size, i, old(c.commands));
      i := i + 1;
    }
  }

  lemma ExactDrawsStep(v: Variant, t: Table, conf: OMap<FieldConf>, data: OMap<string>, height: real,
                       fonts: Fonts, size: real, m: nat)
    requires conf.KeysMapped() && m < |conf.keys|
    ensures var f := conf.keys[m];
      ExactDraws(v, t, conf, data, height, fonts, size, m + 1)
      == ExactDraws(v, t, conf, data, height, fonts, size, m) + ExactDraw(v, t, f, conf.vals[f], data, height, fonts, size)
  {
  }

  /** One pass of the exact-key loop: the draws of field `i` follow those of the fields before it. */
  method DrawExactKeyField(v: Variant, c: Canvas, t: Table, conf: OMap<FieldConf>, data: OMap<string>, fonts: Fonts,
                           size: real, i: nat, ghost start: seq<Command>)
    requires conf.KeysMapped() && i < |conf.keys|
    requires c.commands == start + ExactDraws(v, t, conf, data, c.height, fonts, size, i)
    modifies c
    ensures c.commands == start + ExactDraws(v, t, conf, data, c.height, fonts, size, i + 1)
  {
    var f := conf.keys[i];
    ExactDrawsStep(v, t, conf, data, c.height, fonts, size, i);
    if f in data.vals {
      if v == Backend && f == "ID" && "id_field" in t.vals {
        DrawId(c, t.vals["id_field"], data.vals[f], fonts, size);
      } else {
        var ck := conf.vals[f].exactKey;
        if ck.Some? && f != "geburtsdatum" && ck.value in t.vals {
          var rect := t.vals[ck.value];
          var (newY0, _) := ConvertCoords(rect, c.height);
          c.Issue(DrawString(rect.x0, newY0, data.vals[f]));
        }
      }
    }
  }

  /** The customer-ID branch: the white cover, then the ID in bold. */
  method DrawId(c: Canvas, rect: Rect, text: string, fonts: Fonts, size: real)
    modifies c
    ensures c.commands == old(c.commands) + IdDraws(rect, c.height, text, fonts, size)
  {
    var (newY0, _) := ConvertCoords(rect, c.height);
    IdDrawsParts(rect, c.height, text, fonts, size);
    c.Issue(SetFillWhite(true));
    c.Issue(FillRect(rect.x0 - Padding, newY0 - Padding, (rect.x1 - rect.x0) + Padding * 2.0, (rect.y1 - rect.y0) + Padding * 2.0));
    c.Issue(SetFillWhite(false));
    if fonts.bold.Some? && fonts.bold.value != "" {
      c.Issue(SetFont(fonts.bold.value, size));
      c.Issue(DrawString(rect.x0, newY0, text));
      c.Issue(SetFont(fonts.regular, size));
    } else {
      DrawBoldText(c, rect.x0, newY0, text);
    }
  }

  /** `draw_bold_text`: the text, then once more at each offset (0.5 and 0.5). */
  method DrawBoldText(c: Canvas, x: real, y: real, text: string)
    modifies c
    ensures c.commands == old(c.commands) + BoldText(x, y, text)
  {
    c.Issue(DrawString(x, y, text));
    var offsets := [0.5, 0.5];
    var k := 0;
    while k < |offsets|
      invariant 0 <= k <= |offsets|
      invariant c.commands == old(c.commands) + BoldText(x, y, text)[..k + 1]
    {
      c.Issue(DrawString(x + offsets[k], y, text));
      k := k + 1;
    }
  }

  // ---------------------------------------------------------------------
  // Pages and the merge
  // ---------------------------------------------------------------------

  /** A page: its size and what is painted on it, the empty form's own content first. */
  datatype Page = Page(width: real, height: real, content: seq<Command>)

  /** `merge_page`: the overlay is painted over the base page, which keeps its size. */
  function MergePage(base: Page, overlay: Page): Page {
    Page(base.width, base.height, base.content + overlay.content)
  }

  /**
   * The merge loop: every page of the empty form is kept, in order, and
   * the page at index `i` is merged with the overlay's page `i` when the
   * overlay has one.
   */
  method MergeOverlayWithBase(base: seq<Page>, overlay: seq<Page>) returns (out: seq<Page>)
    ensures |out| == |base|
    ensures forall i :: 0 <= i < |base| && i < |overlay| ==> out[i] == MergePage(base[i], overlay[i])
    ensures forall i :: |overlay| <= i < |base| ==> out[i] == base[i]
  {
    out := [];
    var i := 0;
    while i < |base|
      invariant 0 <= i <= |base| && |out| == i
      invariant forall j :: 0 <= j < i && j < |overlay| ==> out[j] == MergePage(base[j], overlay[j])
      invariant forall j :: |overlay| <= j < i ==> out[j] == base[j]
    {
      var page := base[i];
      if i < |overlay| {
        page := MergePage(page, overlay[i]);
      }
      out := out + [page];
      i := i + 1;
    }
  }

  /** The overlay a canvas saves: one page, since the filler never starts a second. */
  function OverlayOf(width: real, height: real, commands: seq<Command>): seq<Page> {
    [Page(width, height, commands)]
  }
}
