/**
 * The string logic of the e-mail processor: the replacement pairs and the
 * form data it reads from spreadsheet rows, and, in
 * `add_attachments_to_email`, how the names of the template's attachments
 * are found in its part headers, how each new attachment is paired with
 * one of them, and which MIME type it is declared with.
 */
module Attachments {
  import opened Base
  import opened Text
  import opened Dicts
  import Paths

  // ---------------------------------------------------------------------
  // Spreadsheet rows
  // ---------------------------------------------------------------------

  /** A spreadsheet cell: empty (NaN) or a value, kept as its `str`. */
  datatype Cell = NaN | Value(text: string)

  /** A sheet row: the sheet's columns in order, each with its cell. */
  type Row = OMap<Cell>

  /** The `_new` column that goes with a column: every `_old` in its name becomes `_new`. */
  function NewColumn(col: string): string { ReplaceAll(col, "_old", "_new") }

  /**
   * Column `i` gives the pair `key`: it is an `_old` column whose cell is
   * not empty and reads `key`, and its `_new` column exists with a
   * non-empty cell.
   */
  predicate PairColumnAt(row: Row, i: nat, key: string)
    requires row.KeysMapped() && i < |row.keys|
  {
    var col := row.keys[i];
    && EndsWith(col, "_old")
    && row.vals[col] == Value(key)
    && NewColumn(col) in row.vals
    && row.vals[NewColumn(col)].Value?
  }

  /** The replacement pairs of a data row after its first `n` columns. */
  function SheetReplacements(row: Row, n: nat): (r: OMap<string>)
    requires row.KeysMapped() && n <= |row.keys|
    ensures r.Valid()
  {
    if n == 0 then Empty()
    else
      var prev := SheetReplacements(row, n - 1);
      var col := row.keys[n - 1];
      if EndsWith(col, "_old") && row.vals[col].Value? && NewColumn(col) in row.vals && row.vals[NewColumn(col)].Value? then
        prev.Put(row.vals[col].text, row.vals[NewColumn(col)].text)
      else prev
  }

  /** The last column, among the first `n`, that gives the pair `key`. */
  function LastPairColumn(row: Row, key: string, n: nat): (r: Option<nat>)
    requires row.KeysMapped() && n <= |row.keys|
    ensures r.Some? ==> r.value < n && PairColumnAt(row, r.value, key)
    ensures forall i :: (if r.Some? then r.value < i else 0 <= i) && i < n ==> !PairColumnAt(row, i, key)
  {
    if n == 0 then None
    else if PairColumnAt(row, n - 1, key) then Some(n - 1)
    else LastPairColumn(row, key, n - 1)
  }

  /**
   * A text is replaced exactly when some `_old` column reads it and has a
   * non-empty `_new` partner; the last such column decides the new text.
   */
  lemma {:induction false} SheetReplacementsLookup(row: Row, n: nat, key: string)
    requires row.KeysMapped() && n <= |row.keys|
    ensures var r := SheetReplacements(row, n);
      match LastPairColumn(row, key, n)
      case Some(i) => key in r.vals && r.vals[key] == row.vals[NewColumn(row.keys[i])].text
      case None => key !in r.vals
  {
    if n > 0 {
      var m: nat := n - 1;
      SheetReplacementsLookup(row, m, key);
      assert SheetReplacements(row, n) == SheetReplacements(row, m + 1);
      assert LastPairColumn(row, key, n) == LastPairColumn(row, key, m + 1);
    }
  }

  /** The pairs are empty exactly when no column gives a pair. */
  lemma {:induction false} SheetReplacementsEmpty(row: Row, n: nat)
    requires row.KeysMapped() && n <= |row.keys|
    ensures SheetReplacements(row, n).keys == [] <==> forall i, key :: 0 <= i < n ==> !PairColumnAt(row, i, key)
  {
    if n > 0 {
      SheetReplacementsEmpty(row, n - 1);
      var col := row.keys[n - 1];
      if row.vals[col].Value? && PairColumnAt(row, n - 1, row.vals[col].text) {
        assert SheetReplacements(row, n).keys != [];
      }
    }
  }

  /** The column loop that fills `replacements`. */
  method BuildSheetReplacements(row: Row) returns (reps: OMap<string>)
    requires row.KeysMapped()
    ensures reps == SheetReplacements(row, |row.keys|)
  {
    reps := Empty();
    var i := 0;
    while i < |row.keys|
      invariant 0 <= i <= |row.keys|
      invariant reps == SheetReplacements(row, i)
    {
      var col := row.keys[i];
      if EndsWith(col, "_old") && row.vals[col].Value? {
        var newCol := NewColumn(col);
        if newCol in row.vals && row.vals[newCol].Value? {
          reps := reps.Put(row.vals[col].text, row.vals[newCol].text);
        }
      }
      i := i + 1;
    }
  }

  /** The pairs an e-mail is written with, or `None` when the row produces no e-mail. */
  function RowEmail(row: Row): Option<OMap<string>>
    requires row.KeysMapped()
  {
    if "mail_ID" !in row.vals then None
    else
      var reps := SheetReplacements(row, |row.keys|);
      if reps.keys == [] then None else Some(reps)
  }

  /** A row produces an e-mail exactly when it has a `mail_ID` column and a column that gives a pair. */
  lemma RowEmailIffPairs(row: Row)
    requires row.KeysMapped()
    ensures RowEmail(row).Some? <==>
      "mail_ID" in row.vals && exists i, key :: 0 <= i < |row.keys| && PairColumnAt(row, i, key)
  {
    SheetReplacementsEmpty(row, |row.keys|);
  }

  /** The cells of an attachment row that go to the form: every non-empty one except the two identifiers. */
  predicate IsFormColumn(att: Row, col: string)
    requires att.KeysMapped() && col in att.keys
  {
    col != "mail_ID" && col != "form_ID" && att.vals[col].Value?
  }

  /** `form_data` after the first `n` columns. */
  function FormData(att: Row, n: nat): (r: OMap<string>)
    requires att.KeysMapped() && n <= |att.keys|
    ensures forall f :: f in r.vals <==> f in att.keys[..n] && IsFormColumn(att, f)
    ensures forall f :: f in r.vals ==> att.vals[f] == Value(r.vals[f])
  {
    if n == 0 then Empty()
    else
      var prev := FormData(att, n - 1);
      assert att.keys[..n] == att.keys[..n - 1] + [att.keys[n - 1]];
      var col := att.keys[n - 1];
      if col != "mail_ID" && col != "form_ID" && att.vals[col].Value? then prev.Put(col, att.vals[col].text) else prev
  }

  lemma FormDataStep(att: Row, i: nat)
    requires att.KeysMapped() && i < |att.keys|
    ensures var col := att.keys[i];
      FormData(att, i + 1)
      == if col != "mail_ID" && col != "form_ID" && att.vals[col].Value? then FormData(att, i).Put(col, att.vals[col].text) else FormData(att, i)
  {
    var n := i + 1;
    assert n - 1 == i;
  }

  /** The column loop that fills `form_data`. */
  method BuildFormData(att: Row) returns (formData: OMap<string>)
    requires att.KeysMapped()
    ensures formData == FormData(att, |att.keys|)
  {
    formData := Empty();
    var i := 0;
    while i < |att.keys|
      invariant 0 <= i <= |att.keys|
      invariant formData == FormData(att, i)
    {
      var col := att.keys[i];
      FormDataStep(att, i);
      if col != "mail_ID" && col != "form_ID" && att.vals[col].Value? {
        formData := formData.Put(col, att.vals[col].text);
      }
      i := i + 1;
    }
  }

  /** The form an attachment row asks for and its data, or `None` when `form_ID` is missing or empty. */
  function FormRequest(att: Row): (r: Option<(string, OMap<string>)>)
    requires att.KeysMapped()
    ensures r.Some? ==> "form_ID" !in r.value.1.vals && "mail_ID" !in r.value.1.vals
    ensures r.Some? <==> "form_ID" in att.vals && att.vals["form_ID"].Value?
  {
    if "form_ID" !in att.vals || att.vals["form_ID"].NaN? then None
    else Some((att.vals["form_ID"].text, FormData(att, |att.keys|)))
  }

  // ---------------------------------------------------------------------
  // Header parameters
  // ---------------------------------------------------------------------

  /** Every piece stripped. */
  function StripAll(pieces: seq<string>): (r: seq<string>)
    ensures |r| == |pieces|
  {
    if pieces == [] then [] else [Strip(pieces[0])] + StripAll(pieces[1..])
  }

  /** The `;`-separated parameters of a header, each stripped. */
  function Params(header: string): seq<string> {
    StripAll(Split(header, ';'))
  }

  lemma {:induction false} StripAllAt(pieces: seq<string>, i: nat)
    requires i < |pieces|
    ensures StripAll(pieces)[i] == Strip(pieces[i])
  {
    if i > 0 {
      StripAllAt(pieces[1..], i - 1);
    }
  }

  /** The first parameter, from `i` on, that starts with `key`. */
  function FirstParam(params: seq<string>, key: string, i: nat): (r: Option<nat>)
    requires i <= |params|
    ensures r.Some? ==> i <= r.value < |params| && StartsWith(params[r.value], key)
    ensures forall j :: i <= j < |params| && (r.None? || j < r.value) ==> !StartsWith(params[j], key)
    decreases |params| - i
  {
    if i == |params| then None
    else if StartsWith(params[i], key) then Some(i)
    else FirstParam(params, key, i + 1)
  }

  /** A parameter's value: the text after its first `=`, with surrounding quotes stripped. */
  function ParamText(param: string): string {
    match AfterFirst(param, "=")
    case Some(v) => StripQuotes(v)
    case None => []
  }

  /**
   * The value of the first `;`-separated parameter of a header that starts
   * with `key`; the empty string when there is none, which the code treats
   * like a missing name.
   */
  function HeaderParam(header: string, key: string): string {
    var params := Params(header);
    match FirstParam(params, key, 0)
    case Some(i) => ParamText(params[i])
    case None => []
  }

  /** The parameter loop with its `break`. */
  method FindParam(header: string, key: string) returns (value: string)
    ensures value == HeaderParam(header, key)
  {
    var pieces := Split(header, ';');
    ghost var params := Params(header);
    value := [];
    var i := 0;
    while i < |pieces|
      invariant 0 <= i <= |pieces| && value == []
      invariant FirstParam(params, key, 0) == FirstParam(params, key, i)
    {
      StripAllAt(pieces, i);
      var param := Strip(pieces[i]);
      if StartsWith(param, key) {
        value := ParamText(param);
        break;
      }
      i := i + 1;
    }
  }

  /** A name that does not start or end with a quote character. */
  predicate PlainEnds(name: string) {
    name != [] ==> name[0] !in Quotes && name[|name| - 1] !in Quotes
  }

  /** A file name the mail library writes as a plain quoted parameter. */
  predicate Quotable(name: string) {
    && ';' !in name && '"' !in name && '\\' !in name
    && (forall i :: 0 <= i < |name| ==> name[i] < 128 as char)
    && PlainEnds(name)
  }

  /** A name in double quotes. */
  function Quoted(name: string): string { "\"" + name + "\"" }

  /** The header `value; param="name"` that `add_header(…, value, param=name)` writes. */
  function WithParam(value: string, param: string, name: string): string {
    value + "; " + param + "=" + Quoted(name)
  }

  lemma {:induction false} SplitAtSeparator(a: string, b: string, c: char)
    requires c !in a
    ensures Split(a + [c] + b, c) == [a] + Split(b, c)
    decreases |a|
  {
    if a == [] {
      assert a + [c] + b == [c] + b;
      assert ([c] + b)[1..] == b;
    } else {
      SplitAtSeparator(a[1..], b, c);
      assert (a + [c] + b)[1..] == a[1..] + [c] + b;
      assert [a[0]] + a[1..] == a;
    }
  }

  lemma {:induction false} SplitWithoutSeparator(s: string, c: char)
    requires c !in s
    ensures Split(s, c) == [s]
    decreases |s|
  {
    if s != [] {
      SplitWithoutSeparator(s[1..], c);
      assert [s[0]] + s[1..] == s;
    }
  }

  /** Stripping leaves a string whose ends are kept alone. */
  lemma StripByKeeps(s: string, cs: set<char>)
    requires s != [] ==> s[0] !in cs && s[|s| - 1] !in cs
    ensures StripBy(s, cs) == s
  {
    assert TrimLeft(s, cs) == s;
  }

  /** Stripping one pair of surrounding quotes from a quoted name with plain ends gives the name. */
  lemma StripQuotesOfQuoted(name: string)
    requires PlainEnds(name)
    ensures StripQuotes(Quoted(name)) == name
  {
    var s := Quoted(name);
    var t := name + ['"'];
    assert s[0] in Quotes && s[1..] == t;
    assert TrimLeft(s, Quotes) == TrimLeft(t, Quotes);
    if name == [] {
      assert TrimRight(TrimLeft(t, Quotes), Quotes) == [];
    } else {
      assert TrimLeft(t, Quotes) == t;
      assert t[..|name|] == name;
      assert TrimRight(t, Quotes) == TrimRight(name, Quotes);
      assert TrimRight(name, Quotes) == name;
    }
  }

  lemma WithParamShape(value: string, param: string, name: string)
    ensures WithParam(value, param, name) == value + [';'] + ([' '] + (param + "=" + Quoted(name)))
  {
  }

  lemma ParamsOfTwo(value: string, tail: string)
    requires ';' !in value && ';' !in tail
    ensures Params(value + [';'] + tail) == [Strip(value), Strip(tail)]
  {
    SplitAtSeparator(value, tail, ';');
    SplitWithoutSeparator(tail, ';');
    var pieces := Split(value + [';'] + tail, ';');
    assert pieces == [value, tail];
    StripAllAt(pieces, 0);
    StripAllAt(pieces, 1);
  }

  lemma StripLeadingSpace(p: string)
    requires p != [] && p[0] !in Whitespace && p[|p| - 1] !in Whitespace
    ensures Strip([' '] + p) == p
  {
    assert ([' '] + p)[1..] == p;
    assert TrimLeft([' '] + p, Whitespace) == TrimLeft(p, Whitespace);
    StripByKeeps(p, Whitespace);
  }

  lemma ParamTextOfWritten(param: string, name: string)
    requires '=' !in param && PlainEnds(name)
    ensures ParamText(param + "=" + Quoted(name)) == name
  {
    var p := param + "=" + Quoted(name);
    assert OccursAt(p, "=", |param|);
    forall j: nat | j < |param|
      ensures !OccursAt(p, "=", j)
    {
      assert p[j] == param[j];
    }
    assert p[|param| + 1..] == Quoted(name);
    StripQuotesOfQuoted(name);
  }

  /** The `param="name"` text of a written header: its ends, its prefix and no `;`. */
  lemma WrittenParamShape(param: string, name: string)
    requires param != [] && ';' !in param && ';' !in name && param[0] !in Whitespace
    ensures var p := param + "=" + Quoted(name);
      && p != [] && p[0] !in Whitespace && p[|p| - 1] !in Whitespace
      && StartsWith(p, param + "=")
      && ';' !in [' '] + p
  {
    var p := param + "=" + Quoted(name);
    assert [' '] + p == [' '] + param + ['='] + ['"'] + name + ['"'];
    assert p == (param + "=") + Quoted(name);
    assert p[0] == param[0];
  }

  /** A written header splits into the stripped value and the `param="name"` text. */
  lemma WrittenParams(value: string, param: string, name: string)
    requires ';' !in value
    requires param != [] && ';' !in param && ';' !in name && param[0] !in Whitespace
    ensures Params(WithParam(value, param, name)) == [Strip(value), param + "=" + Quoted(name)]
  {
    var p := param + "=" + Quoted(name);
    WithParamShape(value, param, name);
    WrittenParamShape(param, name);
    ParamsOfTwo(value, [' '] + p);
    StripLeadingSpace(p);
  }

  /** A header of two parameters where only the second starts with the key yields the second's value. */
  lemma HeaderParamOfSecond(header: string, key: string, first: string, second: string)
    requires Params(header) == [first, second]
    requires !StartsWith(first, key) && StartsWith(second, key)
    ensures HeaderParam(header, key) == ParamText(second)
  {
    var params := Params(header);
    assert FirstParam(params, key, 1) == Some(1);
    assert FirstParam(params, key, 0) == Some(1);
  }

  /**
   * The parameter a header was written with is read back: the header the
   * new attachment parts get yields the attachment's name again.
   */
  lemma WrittenParamReadsBack(value: string, param: string, name: string)
    requires ';' !in value && !StartsWith(Strip(value), param + "=")
    requires param != [] && ';' !in param && '=' !in param && param[0] !in Whitespace
    requires ';' !in name && PlainEnds(name)
    ensures HeaderParam(WithParam(value, param, name), param + "=") == name
  {
    var p := param + "=" + Quoted(name);
    WrittenParams(value, param, name);
    WrittenParamShape(param, name);
    HeaderParamOfSecond(WithParam(value, param, name), param + "=", Strip(value), p);
    ParamTextOfWritten(param, name);
  }

  // ---------------------------------------------------------------------
  // The names of the template's attachments
  // ---------------------------------------------------------------------

  /** The two headers of a message part that the name search reads; `None` for a missing header. */
  datatype Part = Part(disposition: Option<string>, contentType: Option<string>)

  /** The template as parsed: a multipart message has parts, any other has none that count. */
  datatype Message = Message(multipart: bool, parts: seq<Part>)

  /** The part is marked as an attachment: its Content-Disposition contains `attachment`. */
  predicate IsAttachment(p: Part) {
    p.disposition.Some? && Contains(p.disposition.value, "attachment")
  }

  /** The subtype an `image/…` Content-Type names: the text after the slash up to any `;`, stripped. */
  function ImageSubtype(ct: string): string
    requires StartsWith(ct, "image/")
  {
    Strip(BeforeFirst(ct[|"image/"|..], ";"))
  }

  /**
   * A name from an `image/…` Content-Type (already lowered), or "" when it
   * gives none: a JPEG subtype, spelt either way, is named `attachment.jpeg`,
   * any other subtype `attachment.<subtype>`.
   */
  function ImageName(ct: string): (r: string)
    ensures r != [] <==> StartsWith(ct, "image/") && ImageSubtype(ct) != []
    ensures StartsWith(ct, "image/") && ImageSubtype(ct) in {"jpeg", "jpg"} ==> r == "attachment.jpeg"
    ensures r != [] && ImageSubtype(ct) !in {"jpeg", "jpg"} ==> r == "attachment." + ImageSubtype(ct)
  {
    if StartsWith(ct, "image/") then
      var subtype := ImageSubtype(ct);
      if subtype == "jpeg" || subtype == "jpg" then "attachment.jpeg"
      else if subtype != [] then "attachment." + subtype
      else []
    else []
  }

  /**
   * The name an attachment part gets when no header names it: `.jpeg` for a
   * type mentioning `image/jpeg`, the piece after `image/` for any other image
   * type, `.pdf` for `application/pdf`, and `.dat` otherwise or with no type.
   */
  function FallbackName(contentType: Option<string>): (r: string)
    ensures r != []
    ensures contentType.None? ==> r == "attachment.dat"
    ensures contentType.Some? && Contains(Lower(contentType.value), "image/jpeg") ==> r == "attachment.jpeg"
    ensures contentType.Some? && Contains(Lower(contentType.value), "image/")
      && !Contains(Lower(contentType.value), "image/jpeg")
      ==> r == "attachment." + Strip(BeforeFirst(SecondPiece(Lower(contentType.value), "image/").value, ";"))
    ensures contentType.Some? && !Contains(Lower(contentType.value), "image/")
      ==> r == (if Contains(Lower(contentType.value), "application/pdf") then "attachment.pdf" else "attachment.dat")
  {
    match contentType
    case None => "attachment.dat"
    case Some(c) =>
      var ct := Lower(c);
      if Contains(ct, "image/jpeg") then
        ContainsPrefix(ct, "image/jpeg", "image/");
        "attachment.jpeg"
      else if Contains(ct, "image/") then
        match SecondPiece(ct, "image/")
        case Some(rest) => "attachment." + Strip(BeforeFirst(rest, ";"))
        case None => "attachment."
      else if Contains(ct, "application/pdf") then "attachment.pdf"
      else "attachment.dat"
  }

  /** The disposition's `filename=`, read only from a part marked as an attachment. */
  function DispositionName(p: Part): string {
    if IsAttachment(p) then HeaderParam(p.disposition.value, "filename=") else []
  }

  /** The type's `name=`, when no name was found before. */
  function TypeParamName(p: Part, prior: string): string {
    if prior == [] && p.contentType.Some? then HeaderParam(p.contentType.value, "name=") else prior
  }

  /** A name for an image type, when no name was found before. */
  function ImageTypeName(p: Part, prior: string): string {
    if prior == [] && p.contentType.Some? then ImageName(Lower(p.contentType.value)) else prior
  }

  /**
   * The name recorded for a part, or `None` when the part does not count:
   * the disposition's `filename=` (read only from an attachment), else the
   * type's `name=`, else a name for an image type; a part still unnamed
   * counts only when it is an attachment, and then gets a fallback name.
   */
  function PartName(p: Part): (r: Option<string>)
    ensures r.Some? ==> r.value != []
    ensures IsAttachment(p) ==> r.Some?
    ensures DispositionName(p) != [] ==> r == Some(DispositionName(p))
    ensures DispositionName(p) == [] && p.contentType.Some? && HeaderParam(p.contentType.value, "name=") != []
      ==> r == Some(HeaderParam(p.contentType.value, "name="))
    ensures DispositionName(p) == [] && p.contentType.Some? && HeaderParam(p.contentType.value, "name=") == []
      && ImageName(Lower(p.contentType.value)) != []
      ==> r == Some(ImageName(Lower(p.contentType.value)))
    ensures DispositionName(p) == [] && (p.contentType.None? || (HeaderParam(p.contentType.value, "name=") == []
      && ImageName(Lower(p.contentType.value)) == []))
      ==> r == (if IsAttachment(p) then Some(FallbackName(p.contentType)) else None)
  {
    var found := ImageTypeName(p, TypeParamName(p, DispositionName(p)));
    if found != [] then Some(found)
    else if IsAttachment(p) then Some(FallbackName(p.contentType))
    else None
  }

  /** A Content-Disposition that does not say `attachment` is never read for a name. */
  lemma DispositionNeedsAttachment(d: string, contentType: Option<string>)
    requires !Contains(d, "attachment")
    ensures PartName(Part(Some(d), contentType)) == PartName(Part(None, contentType))
  {
  }

  /** The Content-Disposition an attachment part is written with. */
  function AttachmentDisposition(name: string): string {
    WithParam("attachment", "filename", name)
  }

  /** An attachment whose disposition names it is recorded under that name. */
  lemma PartNameFromDisposition(p: Part)
    requires IsAttachment(p) && HeaderParam(p.disposition.value, "filename=") != []
    ensures PartName(p) == Some(HeaderParam(p.disposition.value, "filename="))
  {
  }

  /** A part written with the disposition `attachment; filename="name"` is found under that name again. */
  lemma AttachmentNameReadsBack(name: string, contentType: Option<string>)
    requires Quotable(name) && name != []
    ensures PartName(Part(Some(AttachmentDisposition(name)), contentType)) == Some(name)
  {
    var d := AttachmentDisposition(name);
    assert StartsWith(d, "attachment");
    assert Strip("attachment") == "attachment" by {
      StripByKeeps("attachment", Whitespace);
    }
    assert "filename" + "=" == "filename=";
    WrittenParamReadsBack("attachment", "filename", name);
    assert Contains(d, "attachment");
    PartNameFromDisposition(Part(Some(d), contentType));
  }

  /** The part loop that reads one part's name. */
  method ReadPartName(p: Part) returns (name: Option<string>)
    ensures name == PartName(p)
  {
    var filename := [];
    if p.disposition.Some? && Contains(p.disposition.value, "attachment") {
      filename := FindParam(p.disposition.value, "filename=");
    }
    assert filename == DispositionName(p);
    if filename == [] && p.contentType.Some? {
      filename := FindParam(p.contentType.value, "name=");
    }
    assert filename == TypeParamName(p, DispositionName(p));
    if filename == [] && p.contentType.Some? {
      filename := ImageName(Lower(p.contentType.value));
    }
    assert filename == ImageTypeName(p, TypeParamName(p, DispositionName(p)));
    if filename != [] {
      name := Some(filename);
    } else if IsAttachment(p) {
      name := Some(FallbackName(p.contentType));
    } else {
      name := None;
    }
  }

  /** The name each part is recorded under, if any, part by part. */
  function PartNames(parts: seq<Part>): (found: seq<Option<string>>)
    ensures |found| == |parts|
  {
    seq(|parts|, i requires 0 <= i < |parts| => PartName(parts[i]))
  }

  /** The names present in `found`, in order. */
  function Somes(found: seq<Option<string>>): (names: seq<string>)
    ensures |names| <= |found|
    ensures forall n :: n in names <==> Some(n) in found
    decreases |found|
  {
    if found == [] then []
    else
      var init := Somes(found[..|found| - 1]);
      match found[|found| - 1]
      case Some(name) => init + [name]
      case None => init
  }

  /** A present name is appended after the names before it. */
  lemma SomesSnocSome(found: seq<Option<string>>, name: string)
    ensures Somes(found + [Some(name)]) == Somes(found) + [name]
  {
    assert (found + [Some(name)])[..|found|] == found;
  }

  /** An absent name adds nothing. */
  lemma SomesSnocNone(found: seq<Option<string>>)
    ensures Somes(found + [None]) == Somes(found)
  {
    assert (found + [None])[..|found|] == found;
  }

  /** Only present names are kept, so none of them is empty when no present one is. */
  lemma {:induction false} SomesNonEmpty(found: seq<Option<string>>)
    requires forall i :: 0 <= i < |found| && found[i].Some? ==> found[i].value != []
    ensures forall k :: 0 <= k < |Somes(found)| ==> Somes(found)[k] != []
    decreases |found|
  {
    if found != [] {
      var init := found[..|found| - 1];
      assert forall i :: 0 <= i < |init| ==> init[i] == found[i];
      SomesNonEmpty(init);
    }
  }

  /** `original_attachments`: only a multipart template has any. */
  function OriginalNames(msg: Message): (names: seq<string>)
    ensures forall k :: 0 <= k < |names| ==> names[k] != []
    ensures !msg.multipart ==> names == []
    ensures msg.multipart ==> names == Somes(PartNames(msg.parts))
    ensures forall n :: n in names <==> msg.multipart && exists i :: 0 <= i < |msg.parts| && PartName(msg.parts[i]) == Some(n)
  {
    if msg.multipart then
      var found := PartNames(msg.parts);
      assert forall i :: 0 <= i < |found| ==> found[i] == PartName(msg.parts[i]);
      SomesNonEmpty(found);
      Somes(found)
    else []
  }

  /** How many parts are marked as attachments. */
  function AttachmentCount(parts: seq<Part>): nat
    decreases |parts|
  {
    if parts == [] then 0
    else AttachmentCount(parts[..|parts| - 1]) + (if IsAttachment(parts[|parts| - 1]) then 1 else 0)
  }

  /** A name is present for every attachment, so there are at least as many names as attachments. */
  lemma {:induction false} SomesCoverAttachments(parts: seq<Part>, found: seq<Option<string>>)
    requires |found| == |parts|
    requires forall i :: 0 <= i < |parts| && IsAttachment(parts[i]) ==> found[i].Some?
    ensures AttachmentCount(parts) <= |Somes(found)|
    decreases |parts|
  {
    if parts != [] {
      var init, initFound := parts[..|parts| - 1], found[..|found| - 1];
      assert forall i :: 0 <= i < |init| ==> init[i] == parts[i] && initFound[i] == found[i];
      SomesCoverAttachments(init, initFound);
    }
  }

  /** Every part of a multipart template marked as an attachment is counted among the names. */
  lemma NamesCountAttachments(msg: Message)
    requires msg.multipart
    ensures AttachmentCount(msg.parts) <= |OriginalNames(msg)| <= |msg.parts|
  {
    var found := PartNames(msg.parts);
    forall i | 0 <= i < |msg.parts| && IsAttachment(msg.parts[i])
      ensures found[i].Some?
    {
      assert found[i] == PartName(msg.parts[i]);
    }
    SomesCoverAttachments(msg.parts, found);
  }

  /** The part loop of `add_attachments_to_email`: the name of every part, in order. */
  method CollectNames(parts: seq<Part>) returns (names: seq<string>)
    ensures names == Somes(PartNames(parts))
  {
    ghost var found := PartNames(parts);
    names := [];
    var k := 0;
    while k < |parts|
      invariant 0 <= k <= |parts|
      invariant names == Somes(found[..k])
    {
      var name := ReadPartName(parts[k]);
      assert found[k] == name;
      assert found[..k + 1][..k] == found[..k];
      if name.Some? {
        names := names + [name.value];
      }
      k := k + 1;
    }
    assert found[..k] == found;
  }

  /** With new attachments and no names found, one JPEG name is assumed. */
  function WithDefault(names: seq<string>, newCount: nat): (r: seq<string>)
    ensures newCount > 0 ==> |r| >= 1
    ensures names != [] || newCount == 0 ==> r == names
    ensures names == [] && newCount > 0 ==> r == ["attachment.jpeg"]
  {
    if names == [] && newCount > 0 then ["attachment.jpeg"] else names
  }

  /** The name new attachment `i` is sent under: the `i`-th original name, else a numbered PDF name. */
  function NameFor(names: seq<string>, i: nat): (r: string)
    ensures i < |names| ==> r == names[i]
    ensures r != [] || (i < |names| && names[i] == [])
    ensures |names| <= i ==> r == "attachment_" + NatToString(i) + ".pdf"
  {
    if i < |names| then names[i] else "attachment_" + NatToString(i) + ".pdf"
  }

  /** Attachments beyond the original names get distinct numbered names. */
  lemma NumberedNamesDistinct(names: seq<string>, i: nat, j: nat)
    requires |names| <= i && |names| <= j && i != j
    ensures NameFor(names, i) != NameFor(names, j)
  {
    var a, b := NatToString(i), NatToString(j);
    if NameFor(names, i) == NameFor(names, j) {
      var prefix := "attachment_";
      var s := prefix + a + ".pdf";
      var t := prefix + b + ".pdf";
      assert |a| == |b|;
      assert s[|prefix|..|prefix| + |a|] == a;
      assert t[|prefix|..|prefix| + |b|] == b;
      NatToStringInjective(i, j);
    }
  }

  // ---------------------------------------------------------------------
  // MIME type and conversion of each new attachment
  // ---------------------------------------------------------------------

  /** A declared MIME type, or the lookup left to the `mimetypes` table for this name. */
  datatype Mime = Mime(main: string, sub: string) | Guessed(name: string)

  const ImageExtensions: seq<string> := [".jpg", ".jpeg", ".png", ".gif"]

  /** The MIME type for a lowered extension; other extensions go to the `mimetypes` lookup. */
  function MimeFor(ext: string, name: string): Mime {
    if ext == ".jpg" || ext == ".jpeg" then Mime("image", "jpeg")
    else if ext == ".png" then Mime("image", "png")
    else if ext == ".gif" then Mime("image", "gif")
    else if ext == ".pdf" then Mime("application", "pdf")
    else Guessed(name)
  }

  /** The extension a declared type is written with. */
  function ExtensionOf(m: Mime): Option<string> {
    match m
    case Mime("image", "jpeg") => Some(".jpeg")
    case Mime("image", "png") => Some(".png")
    case Mime("image", "gif") => Some(".gif")
    case Mime("application", "pdf") => Some(".pdf")
    case _ => None
  }

  /**
   * The four extensions the code knows get a declared type whose own
   * extension is the same one (`.jpg` being written `.jpeg`); every other
   * extension is left to the lookup by name.
   */
  lemma MimeForRoundTrip(ext: string, name: string)
    ensures ext in ImageExtensions + [".pdf"] <==> MimeFor(ext, name).Mime?
    ensures ext in ImageExtensions + [".pdf"] ==>
      ExtensionOf(MimeFor(ext, name)) == Some(if ext == ".jpg" then ".jpeg" else ext)
    ensures forall m :: ExtensionOf(m).Some? ==> MimeFor(ExtensionOf(m).value, name) == m
  {
  }

  /** What converting the PDF to the original image format gave. */
  datatype Conversion = Converted | NoPages | Failed

  /** The bytes attached: the file itself, or an image made from its first page in the format of `ext`. */
  datatype Payload = FileAsIs(path: string) | FirstPageImage(path: string, ext: string)

  datatype NewPart = NewPart(filename: string, mime: Mime, payload: Payload)

  /** The lowered extension of a name. */
  function ExtOf(name: string): string { Lower(Paths.SplitExt(name).1) }

  /** The PDF is turned into an image: conversion is available, the file is a PDF and the original was an image. */
  predicate WantsImage(available: bool, path: string, ext: string) {
    available && EndsWith(Lower(path), ".pdf") && ext in ImageExtensions
  }

  /** The name after a failed conversion: the original stem with `.pdf`. */
  function PdfName(name: string): string { Paths.SplitExt(name).0 + ".pdf" }

  /**
   * One new attachment part as the code builds it. After a failed
   * conversion the name becomes `<stem>.pdf` but the type is still taken
   * from the original (image) extension.
   */
  function PartAsWritten(name: string, path: string, available: bool, conv: Conversion): NewPart {
    var ext := ExtOf(name);
    if WantsImage(available, path, ext) then
      match conv
      case Converted => NewPart(name, MimeFor(ext, name), FirstPageImage(path, ext))
      case NoPages => NewPart(name, MimeFor(ext, name), FileAsIs(path))
      case Failed =>
        var pdfName := PdfName(name);
        NewPart(pdfName, MimeFor(ext, pdfName), FileAsIs(path))
    else NewPart(name, MimeFor(ext, name), FileAsIs(path))
  }

  /**
   * A part is sent under the original name, or, after a failed conversion,
   * under the `.pdf` name with the PDF itself; only a conversion puts an
   * image of the first page in, in the original format and under the
   * original name.
   */
  lemma PartAsWrittenPayload(name: string, path: string, available: bool, conv: Conversion)
    ensures var r := PartAsWritten(name, path, available, conv);
      && (r.filename == name || (conv == Failed && r.filename == PdfName(name)))
      && (r.payload.FirstPageImage? <==> WantsImage(available, path, ExtOf(name)) && conv == Converted)
      && (r.payload.FirstPageImage? ==> r.payload == FirstPageImage(path, ExtOf(name)) && r.filename == name)
      && (r.payload.FileAsIs? ==> r.payload.path == path)
  {
  }

  /** Every image extension gets an `image/…` type. */
  lemma ImageMime(ext: string, name: string)
    requires ext in ImageExtensions
    ensures MimeFor(ext, name).Mime? && MimeFor(ext, name).main == "image"
  {
  }

  lemma MimeForPdf(name: string)
    ensures MimeFor(".pdf", name) == Mime("application", "pdf")
  {
  }

  /**
   * A PDF attached after a failed conversion to an image format is named
   * `.pdf` but declared with the image type of the original name.
   */
  lemma FailedConversionMislabelled(name: string, path: string)
    requires WantsImage(true, path, ExtOf(name))
    ensures var r := PartAsWritten(name, path, true, Failed);
      && r.filename == PdfName(name) && r.payload == FileAsIs(path)
      && r.mime.Mime? && r.mime.main == "image"
      && MimeFor(ExtOf(r.filename), r.filename) == Mime("application", "pdf")
  {
    var ext := ExtOf(name);
    ImageMime(ext, PdfName(name));
    ImageExtensionNonEmpty(name);
    ExtOfPdfName(name);
    MimeForPdf(PdfName(name));
  }

  /** A name with an image extension has an extension. */
  lemma ImageExtensionNonEmpty(name: string)
    requires ExtOf(name) in ImageExtensions
    ensures Paths.SplitExt(name).1 != []
  {
  }

  /** `scan.jpg` sent in place of a PDF that could not be converted: it becomes `scan.pdf`, declared `image/jpeg`. */
  lemma ScanJpgMislabelled()
    ensures WantsImage(true, "form.pdf", ExtOf("scan.jpg"))
    ensures PdfName("scan.jpg") == "scan.pdf"
    ensures MimeFor(ExtOf("scan.jpg"), "scan.pdf") == Mime("image", "jpeg")
  {
    ScanJpgWanted();
    ScanJpgPdfName();
    ScanJpgMime();
  }

  lemma ScanJpgWanted()
    ensures WantsImage(true, "form.pdf", ExtOf("scan.jpg"))
  {
    ScanJpgSplits();
    FormPdfIsPdf();
  }

  lemma ScanJpgPdfName()
    ensures PdfName("scan.jpg") == "scan.pdf"
  {
    ScanJpgSplits();
    assert "scan" + ".pdf" == "scan.pdf";
  }

  lemma ScanJpgMime()
    ensures MimeFor(ExtOf("scan.jpg"), "scan.pdf") == Mime("image", "jpeg")
  {
    ScanJpgSplits();
  }

  lemma FormPdfIsPdf()
    ensures EndsWith(Lower("form.pdf"), ".pdf")
  {
    LowerKeeps("form.pdf");
  }

  /** The example name splits into `scan` and `.jpg`. */
  lemma ScanJpgSplits()
    ensures Paths.SplitExt("scan.jpg") == ("scan", ".jpg")
    ensures ExtOf("scan.jpg") == ".jpg"
  {
    var name := "scan.jpg";
    NoSeparatorStart(name);
    LastIndexOfTail(name, '.', 4);
    assert name[5..] == "jpg";
    assert name[0] != '.';
    Paths.SplitExtAtLastDot(name, 4);
    assert name[..4] == "scan" && name[4..] == ".jpg";
    LowerKeeps(".jpg");
  }

  /** A name without a separator is one component. */
  lemma NoSeparatorStart(p: string)
    requires forall i :: 0 <= i < |p| ==> p[i] != Paths.Sep
    ensures Paths.ComponentStart(p) == 0
  {
  }

  /** Putting `.pdf` in place of a name's extension gives a name whose extension is `.pdf`. */
  lemma PdfNameExtension(name: string)
    requires Paths.SplitExt(name).1 != []
    ensures Paths.SplitExt(PdfName(name)) == (Paths.SplitExt(name).0, ".pdf")
  {
    var stem := Paths.SplitExt(name).0;
    var p := PdfName(name);
    var d := |stem|;
    var start := Paths.ComponentStart(name);
    var dot :| Paths.LastIndex(name, '.') == Some(dot);
    assert d == dot;
    var i :| start <= i < d && name[i] != '.';
    assert p[..d] == stem == name[..d];
    assert p[d..] == ".pdf";
    assert Paths.LastIndex(p, '.') == Some(d) by {
      LastIndexOfTail(p, '.', d);
    }
    assert Paths.ComponentStart(p) == start by {
      ComponentStartOfPrefix(name, p, d);
    }
    assert p[i] == name[i];
    Paths.SplitExtAtLastDot(p, d);
  }

  /** The name after a failed conversion has the extension `.pdf`. */
  lemma ExtOfPdfName(name: string)
    requires Paths.SplitExt(name).1 != []
    ensures ExtOf(PdfName(name)) == ".pdf"
  {
    PdfNameExtension(name);
    LowerKeeps(".pdf");
  }

  lemma LastIndexOfTail(s: string, c: char, d: nat)
    requires d < |s| && s[d] == c
    requires forall i :: d < i < |s| ==> s[i] != c
    ensures Paths.LastIndex(s, c) == Some(d)
  {
  }

  lemma ComponentStartOfPrefix(a: string, b: string, d: nat)
    requires d <= |a| && d <= |b| && a[..d] == b[..d]
    requires Paths.Sep !in a[d..] && Paths.Sep !in b[d..]
    ensures Paths.ComponentStart(a) == Paths.ComponentStart(b)
  {
    forall k | d <= k < |a|
      ensures a[k] != Paths.Sep
    {
      assert a[d..][k - d] == a[k];
    }
    forall k | d <= k < |b|
      ensures b[k] != Paths.Sep
    {
      assert b[d..][k - d] == b[k];
    }
    var ra, rb := Paths.LastIndex(a, Paths.Sep), Paths.LastIndex(b, Paths.Sep);
    if ra.Some? {
      assert a[ra.value] == b[ra.value] by { assert a[..d][ra.value] == b[..d][ra.value]; }
    }
    if rb.Some? {
      assert a[rb.value] == b[rb.value] by { assert a[..d][rb.value] == b[..d][rb.value]; }
    }
  }

  /**
   * One new attachment part as evidently intended: the type is taken from
   * the extension of the name the part is finally sent under. Used by the
   * rest of the model.
   */
  function AttachmentPart(name: string, path: string, available: bool, conv: Conversion): NewPart {
    var written := PartAsWritten(name, path, available, conv);
    NewPart(written.filename, MimeFor(ExtOf(written.filename), written.filename), written.payload)
  }

  /**
   * The correction changes nothing but the type after a failed conversion
   * to an image format, which becomes `application/pdf`.
   */
  lemma AttachmentPartCorrectsOnlyFailures(name: string, path: string, available: bool, conv: Conversion)
    ensures var fixed, written := AttachmentPart(name, path, available, conv), PartAsWritten(name, path, available, conv);
      && fixed.filename == written.filename && fixed.payload == written.payload
      && (if WantsImage(available, path, ExtOf(name)) && conv == Failed
          then fixed.mime == Mime("application", "pdf") && fixed.mime != written.mime
          else fixed.mime == written.mime)
  {
    if WantsImage(available, path, ExtOf(name)) && conv == Failed {
      FailedConversionMislabelled(name, path);
    }
  }

  // ---------------------------------------------------------------------
  // add_attachments_to_email
  // ---------------------------------------------------------------------

  /** The new parts for the given PDF files, paired with the names by index. */
  function NewParts(names: seq<string>, files: seq<string>, available: bool, convert: string -> Conversion): (r: seq<NewPart>)
    ensures |r| == |files|
    decreases |files|
  {
    if files == [] then []
    else
      var i := |files| - 1;
      NewParts(names, files[..i], available, convert) + [AttachmentPart(NameFor(names, i), files[i], available, convert(files[i]))]
  }

  /** New part `i` is built from file `i` under name `i`. */
  lemma {:induction false} NewPartsAt(names: seq<string>, files: seq<string>, available: bool, convert: string -> Conversion, i: nat)
    requires i < |files|
    ensures NewParts(names, files, available, convert)[i] == AttachmentPart(NameFor(names, i), files[i], available, convert(files[i]))
    decreases |files|
  {
    var last := |files| - 1;
    var init := files[..last];
    var part := AttachmentPart(NameFor(names, last), files[last], available, convert(files[last]));
    assert NewParts(names, files, available, convert) == NewParts(names, init, available, convert) + [part];
    if i < last {
      NewPartsAt(names, init, available, convert, i);
      assert init[i] == files[i];
    } else {
      assert i == last;
      assert (NewParts(names, init, available, convert) + [part])[last] == part;
    }
  }

  /** Building one more part appends it. */
  lemma NewPartsSnoc(names: seq<string>, files: seq<string>, available: bool, convert: string -> Conversion, i: nat)
    requires i < |files|
    ensures NewParts(names, files[..i + 1], available, convert)
      == NewParts(names, files[..i], available, convert) + [AttachmentPart(NameFor(names, i), files[i], available, convert(files[i]))]
  {
    var pre := files[..i + 1];
    assert |pre| - 1 == i;
    assert pre[..i] == files[..i];
    assert pre[i] == files[i];
  }

  /**
   * The part-building of `add_attachments_to_email`: the names found in
   * the template (with the JPEG default) and one new part per file.
   */
  method AddAttachments(msg: Message, files: seq<string>, available: bool, convert: string -> Conversion)
    returns (names: seq<string>, parts: seq<NewPart>)
    ensures names == WithDefault(OriginalNames(msg), |files|)
    ensures parts == NewParts(names, files, available, convert)
  {
    names := [];
    if msg.multipart {
      names := CollectNames(msg.parts);
    }
    if names == [] && files != [] {
      names := ["attachment.jpeg"];
    }
    parts := [];
    var i := 0;
    while i < |files|
      invariant 0 <= i <= |files|
      invariant parts == NewParts(names, files[..i], available, convert)
    {
      var part := AttachmentPart(NameFor(names, i), files[i], available, convert(files[i]));
      NewPartsSnoc(names, files, available, convert, i);
      parts := parts + [part];
      i := i + 1;
    }
    assert files[..i] == files;
  }

  lemma NewPartNamed(names: seq<string>, files: seq<string>, available: bool, convert: string -> Conversion, i: nat)
    requires i < |files|
    requires forall k :: 0 <= k < |names| ==> names[k] != []
    ensures var part := NewParts(names, files, available, convert)[i];
      part.filename != [] && part.mime == MimeFor(ExtOf(part.filename), part.filename)
  {
    NewPartsAt(names, files, available, convert, i);
    assert NameFor(names, i) != [];
    PartAsWrittenPayload(NameFor(names, i), files[i], available, convert(files[i]));
  }

  /**
   * Every new attachment is sent under a name: a found one, the JPEG
   * default for the first, or a numbered PDF name; and its type matches
   * that name.
   */
  lemma NewPartsNamed(msg: Message, files: seq<string>, available: bool, convert: string -> Conversion)
    ensures var parts := NewParts(WithDefault(OriginalNames(msg), |files|), files, available, convert);
      forall i :: 0 <= i < |parts| ==>
        parts[i].filename != [] && parts[i].mime == MimeFor(ExtOf(parts[i].filename), parts[i].filename)
  {
    var names := WithDefault(OriginalNames(msg), |files|);
    assert forall k :: 0 <= k < |names| ==> names[k] != [] by {
      if OriginalNames(msg) == [] && |files| > 0 {
        assert names == ["attachment.jpeg"];
      }
    }
    var parts := NewParts(names, files, available, convert);
    forall i | 0 <= i < |parts|
      ensures parts[i].filename != [] && parts[i].mime == MimeFor(ExtOf(parts[i].filename), parts[i].filename)
    {
      NewPartNamed(names, files, available, convert, i);
    }
  }
}
