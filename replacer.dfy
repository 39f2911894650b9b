/**
 * `replace_in_eml`, identical in the backend and in the stand-alone e-mail
 * script: decode the template with the first encoding that works, apply
 * the replacement pairs one after the other, and either write the changed
 * text in the same encoding or copy the template unchanged. Also the two
 * callers: the backend's batch over templates and CSV rows, whose rows
 * give the replacement pairs through `_old`/`_new` columns, and the
 * script's fixed pairs applied to every `.eml` file of a folder.
 */
module Replacer {
  import opened Base
  import opened Text
  import opened Dicts
  import Paths

  // ---------------------------------------------------------------------
  // Decoding: the first encoding that works, else lossy UTF-8
  // ---------------------------------------------------------------------

  datatype Encoding = Utf8 | Latin1 | Cp1252

  /** The encodings tried, in this order. */
  const Encodings: seq<Encoding> := [Utf8, Latin1, Cp1252]

  /**
   * What the template's bytes decode to: the text for each encoding that
   * accepts them (an encoding that raises is absent) and the UTF-8
   * decoding with replacement characters. Latin-1 maps every byte to a
   * character, so the bytes of a real file always have a Latin-1 entry and
   * the Cp1252 and lossy steps are never reached; the map leaves that fact
   * open so the chain can be stated as the code writes it.
   */
  datatype Source = Source(decoded: map<Encoding, string>, lossy: string)

  /** Index of the first encoding, from `i` on, that decodes the bytes. */
  function FirstDecodable(src: Source, i: nat): (r: Option<nat>)
    requires i <= |Encodings|
    ensures r.Some? ==> i <= r.value < |Encodings| && Encodings[r.value] in src.decoded
    ensures forall j :: i <= j < |Encodings| && (r.None? || j < r.value) ==> Encodings[j] !in src.decoded
    decreases |Encodings| - i
  {
    if i == |Encodings| then None
    else if Encodings[i] in src.decoded then Some(i)
    else FirstDecodable(src, i + 1)
  }

  /** The text and the encoding `replace_in_eml` goes on with. */
  function Detect(src: Source): (string, Encoding) {
    match FirstDecodable(src, 0)
    case Some(i) => (src.decoded[Encodings[i]], Encodings[i])
    case None => (src.lossy, Utf8)
  }

  /**
   * UTF-8 wins whenever it decodes; otherwise Latin-1, which accepts every
   * byte string, so Windows-1252 and the lossy fallback are only reached
   * when Latin-1 is absent too.
   */
  lemma DetectOrder(src: Source)
    ensures Utf8 in src.decoded ==> Detect(src) == (src.decoded[Utf8], Utf8)
    ensures Utf8 !in src.decoded && Latin1 in src.decoded ==> Detect(src) == (src.decoded[Latin1], Latin1)
    ensures Detect(src).1 == Cp1252 ==> Utf8 !in src.decoded && Latin1 !in src.decoded
    ensures Detect(src) == (src.lossy, Utf8) <== src.decoded == map[]
  {
    assert Encodings[0] == Utf8 && Encodings[1] == Latin1 && Encodings[2] == Cp1252;
  }

  /** The encoding loop with its `break` on the first success. */
  method DetectEncoding(src: Source) returns (content: string, encoding: Encoding)
    ensures (content, encoding) == Detect(src)
  {
    var detected: Option<Encoding> := None;
    content := [];
    var i := 0;
    while i < |Encodings|
      invariant 0 <= i <= |Encodings| && detected.None?
      invariant FirstDecodable(src, 0) == FirstDecodable(src, i)
    {
      var e := Encodings[i];
      if e in src.decoded {
        content := src.decoded[e];
        detected := Some(e);
        break;
      }
      i := i + 1;
    }
    if detected.None? {
      content := src.lossy;
      detected := Some(Utf8);
    }
    encoding := detected.value;
  }

  // ---------------------------------------------------------------------
  // The replacement loop
  // ---------------------------------------------------------------------

  /** Replacement pairs the loop can apply: no old text is empty. */
  predicate NonEmptyKeys(reps: OMap<string>) {
    forall i :: 0 <= i < |reps.keys| ==> reps.keys[i] != []
  }

  /**
   * The text and the running `replacements_made` after the first `n`
   * pairs: a pair whose old text occurs is replaced everywhere and adds its
   * occurrence count; a pair whose old text does not occur is skipped.
   */
  function Applied(s: string, reps: OMap<string>, n: nat): (string, nat)
    requires reps.KeysMapped() && NonEmptyKeys(reps) && n <= |reps.keys|
  {
    if n == 0 then (s, 0)
    else
      var (text, made) := Applied(s, reps, n - 1);
      var oldText := reps.keys[n - 1];
      var count := Count(text, oldText);
      if count > 0 then (ReplaceAll(text, oldText, reps.vals[oldText]), made + count) else (text, made)
  }

  /** Every pair replaced unconditionally, one after the other: `str.replace` folded over the pairs. */
  function ReplaceEach(s: string, reps: OMap<string>, n: nat): string
    requires reps.KeysMapped() && NonEmptyKeys(reps) && n <= |reps.keys|
  {
    if n == 0 then s
    else
      var oldText := reps.keys[n - 1];
      ReplaceAll(ReplaceEach(s, reps, n - 1), oldText, reps.vals[oldText])
  }

  /**
   * The `count > 0` guard only saves work: the text is the plain fold of
   * `str.replace` over the pairs in order, each pair acting on what the
   * earlier ones produced.
   */
  lemma {:induction false} AppliedIsReplaceEach(s: string, reps: OMap<string>, n: nat)
    requires reps.KeysMapped() && NonEmptyKeys(reps) && n <= |reps.keys|
    ensures Applied(s, reps, n).0 == ReplaceEach(s, reps, n)
  {
    if n > 0 {
      AppliedIsReplaceEach(s, reps, n - 1);
      var text := Applied(s, reps, n - 1).0;
      var oldText := reps.keys[n - 1];
      if Count(text, oldText) == 0 {
        CountZeroIffAbsent(text, oldText);
        ReplaceAbsent(text, oldText, reps.vals[oldText]);
      }
    }
  }

  /** When no occurrence is counted, the text is unchanged. */
  lemma {:induction false} NothingCountedNothingChanged(s: string, reps: OMap<string>, n: nat)
    requires reps.KeysMapped() && NonEmptyKeys(reps) && n <= |reps.keys|
    requires Applied(s, reps, n).1 == 0
    ensures Applied(s, reps, n).0 == s
  {
    if n > 0 {
      NothingCountedNothingChanged(s, reps, n - 1);
    }
  }

  /** A count alone does not mean a change: a pair that maps a text to itself counts but changes nothing. */
  lemma CountedButUnchanged()
    ensures var reps := OMap(["a"], map["a" := "a"]);
      Applied("a", reps, 1) == ("a", 1)
  {
    var reps := OMap(["a"], map["a" := "a"]);
    assert Count("a", "a") == 1 by {
      assert Count(""[..], "a") == 0;
    }
    ReplaceSelf("a", "a");
  }

  // ---------------------------------------------------------------------
  // replace_in_eml
  // ---------------------------------------------------------------------

  /** What is left at the output path. */
  datatype Output =
    | NotWritten                                  // the template could not be read
    | Encoded(text: string, encoding: Encoding)   // the changed text in the detected encoding
    | Emptied                                     // opened for writing, then the encoding failed
    | CopyOfInput                                 // nothing changed: the template is copied

  datatype Outcome = Outcome(changed: bool, output: Output)

  /**
   * The result of `replace_in_eml`; `src` is `None` when the template cannot
   * be read, and `canEncode` says whether a text can be encoded in an
   * encoding.
   */
  function ReplaceInEmlSpec(src: Option<Source>, reps: OMap<string>, canEncode: (Encoding, string) -> bool): (r: Outcome)
    requires reps.KeysMapped() && NonEmptyKeys(reps)
    ensures r.changed <==> r.output.Encoded?
  {
    match src
    case None => Outcome(false, NotWritten)
    case Some(bytes) =>
      var (content, encoding) := Detect(bytes);
      var text := Applied(content, reps, |reps.keys|).0;
      if text != content then
        if canEncode(encoding, text) then Outcome(true, Encoded(text, encoding)) else Outcome(false, Emptied)
      else Outcome(false, CopyOfInput)
  }

  /**
   * The function reports a change exactly when the text changed and could
   * be written back; a template in which no old text occurs is copied
   * as it is.
   */
  lemma ReplaceInEmlChanged(src: Option<Source>, reps: OMap<string>, canEncode: (Encoding, string) -> bool)
    requires reps.KeysMapped() && NonEmptyKeys(reps)
    ensures var r := ReplaceInEmlSpec(src, reps, canEncode);
      && (r.changed <==> src.Some? && r.output.Encoded? && r.output.text != Detect(src.value).0)
      && (src.Some? && Applied(Detect(src.value).0, reps, |reps.keys|).1 == 0 ==> r == Outcome(false, CopyOfInput))
  {
    if src.Some? && Applied(Detect(src.value).0, reps, |reps.keys|).1 == 0 {
      NothingCountedNothingChanged(Detect(src.value).0, reps, |reps.keys|);
    }
  }

  /** `replace_in_eml` as the source runs it; `made` is the `replacements_made` it reports. */
  method ReplaceInEml(src: Option<Source>, reps: OMap<string>, canEncode: (Encoding, string) -> bool)
    returns (changed: bool, output: Output, made: nat)
    requires reps.KeysMapped() && NonEmptyKeys(reps)
    ensures Outcome(changed, output) == ReplaceInEmlSpec(src, reps, canEncode)
    ensures src.Some? ==> made == Applied(Detect(src.value).0, reps, |reps.keys|).1
  {
    made := 0;
    if src.None? {
      return false, NotWritten, 0;
    }
    var content, encoding := DetectEncoding(src.value);
    var original := content;
    var i := 0;
    while i < |reps.keys|
      invariant 0 <= i <= |reps.keys|
      invariant (content, made) == Applied(original, reps, i)
    {
      var oldText := reps.keys[i];
      var count := Count(content, oldText);
      if count > 0 {
        content := ReplaceAll(content, oldText, reps.vals[oldText]);
        made := made + count;
      }
      i := i + 1;
    }
    if content != original {
      if canEncode(encoding, content) {
        changed, output := true, Encoded(content, encoding);
      } else {
        changed, output := false, Emptied;
      }
    } else {
      changed, output := false, CopyOfInput;
    }
  }

  // ---------------------------------------------------------------------
  // Replacement pairs from a CSV row (the backend's batch)
  // ---------------------------------------------------------------------

  /** The `_new` column that goes with a column: every `_old` in its name becomes `_new`. */
  function NewColumn(key: string): string { ReplaceAll(key, "_old", "_new") }

  /** The column at `i` is an `_old` column with the non-empty value `v` and a `_new` partner. */
  predicate OldColumnAt(row: OMap<string>, i: nat, v: string)
    requires row.KeysMapped() && i < |row.keys|
  {
    var key := row.keys[i];
    EndsWith(key, "_old") && row.vals[key] == v && v != [] && NewColumn(key) in row.vals
  }

  /** The replacement pairs of a row after its first `n` columns. */
  function RowReplacements(row: OMap<string>, n: nat): (r: OMap<string>)
    requires row.KeysMapped() && n <= |row.keys|
    ensures r.Valid() && NonEmptyKeys(r)
  {
    if n == 0 then Empty()
    else
      var prev := RowReplacements(row, n - 1);
      var key := row.keys[n - 1];
      var value := row.vals[key];
      if EndsWith(key, "_old") && value != [] && NewColumn(key) in row.vals then
        prev.Put(value, row.vals[NewColumn(key)])
      else prev
  }

  /** The last `_old` column among the first `n` whose value is `v`. */
  function LastOldColumn(row: OMap<string>, v: string, n: nat): (r: Option<nat>)
    requires row.KeysMapped() && n <= |row.keys|
    ensures r.Some? ==> r.value < n && OldColumnAt(row, r.value, v)
    ensures forall i :: (if r.Some? then r.value < i else 0 <= i) && i < n ==> !OldColumnAt(row, i, v)
  {
    if n == 0 then None
    else if OldColumnAt(row, n - 1, v) then Some(n - 1)
    else LastOldColumn(row, v, n - 1)
  }

  /**
   * A text is replaced exactly when it is the non-empty value of an `_old`
   * column whose `_new` column exists, and it is replaced by the `_new`
   * value of the last such column.
   */
  lemma {:induction false} RowReplacementsLookup(row: OMap<string>, n: nat, v: string)
    requires row.KeysMapped() && n <= |row.keys|
    ensures var r := RowReplacements(row, n);
      match LastOldColumn(row, v, n)
      case Some(i) => v in r.vals && r.vals[v] == row.vals[NewColumn(row.keys[i])]
      case None => v !in r.vals
  {
    if n > 0 {
      RowReplacementsLookup(row, n - 1, v);
    }
  }

  /** The loop of `batch_process_emails` that builds one row's pairs. */
  method BuildReplacements(row: OMap<string>) returns (reps: OMap<string>)
    requires row.KeysMapped()
    ensures reps == RowReplacements(row, |row.keys|)
  {
    reps := Empty();
    var i := 0;
    while i < |row.keys|
      invariant 0 <= i <= |row.keys|
      invariant reps == RowReplacements(row, i)
    {
      var key := row.keys[i];
      var value := row.vals[key];
      if EndsWith(key, "_old") && value != [] {
        var newKey := NewColumn(key);
        if newKey in row.vals {
          reps := reps.Put(value, row.vals[newKey]);
        }
      }
      i := i + 1;
    }
  }

  // ---------------------------------------------------------------------
  // Choosing the templates and naming the outputs
  // ---------------------------------------------------------------------

  /** `name.lower().endswith('.eml')`. */
  predicate IsEml(name: string) { EndsWith(Lower(name), ".eml") }

  /** The directory listing filtered to `.eml` files, in listing order. */
  function EmlFiles(names: seq<string>): (r: seq<string>)
    ensures forall f :: f in r <==> f in names && IsEml(f)
    ensures |r| <= |names|
  {
    if names == [] then []
    else (if IsEml(names[0]) then [names[0]] else []) + EmlFiles(names[1..])
  }

  /** The batch's output name: `<template stem>_set<row number>_<timestamp>.eml`. */
  function SetFileName(template: string, i: nat, timestamp: string): string {
    Paths.SplitExt(template).0 + "_set" + NatToString(i + 1) + ("_" + timestamp + ".eml")
  }

  /** Two rows of one template never share an output name, whatever the timestamp. */
  lemma SetFileNamesDistinct(template: string, i: nat, j: nat, timestamp: string)
    requires SetFileName(template, i, timestamp) == SetFileName(template, j, timestamp)
    ensures i == j
  {
    var stem := Paths.SplitExt(template).0 + "_set";
    var a := NatToString(i + 1);
    var b := NatToString(j + 1);
    var tail := "_" + timestamp + ".eml";
    assert stem + a + tail == stem + b + tail;
    assert (stem + a + tail)[|stem|..] == a + tail;
    assert (stem + b + tail)[|stem|..] == b + tail;
    assert a + tail == b + tail;
    assert a == (a + tail)[..|a|] == (b + tail)[..|b|] == b;
    NatToStringInjective(i + 1, j + 1);
  }

  // ---------------------------------------------------------------------
  // batch_process_emails
  // ---------------------------------------------------------------------

  /** Rows as the CSV reader gives them: every listed column has a value. */
  predicate RowsMapped(rows: seq<OMap<string>>) {
    forall i :: 0 <= i < |rows| ==> rows[i].KeysMapped()
  }

  /** A row yields at least one replacement pair. */
  predicate HasPairs(row: OMap<string>)
    requires row.KeysMapped()
  {
    RowReplacements(row, |row.keys|).keys != []
  }

  /** Pairs a job may apply: at least one, listed once each, none with an empty old text. */
  ghost predicate Usable(reps: OMap<string>) {
    reps.KeysMapped() && NonEmptyKeys(reps)
  }

  /** One call of `replace_in_eml` the batch makes. */
  datatype Job = Job(input: string, output: string, replacements: OMap<string>)

  /** The job for row `i` of a template: read the template, write the numbered set file. */
  function RowJob(templateDir: string, outputDir: string, template: string, i: nat, timestamp: string,
                  reps: OMap<string>): (job: Job)
    ensures job.replacements == reps
  {
    Job(Paths.Join(templateDir, template), Paths.Join(outputDir, SetFileName(template, i, timestamp)), reps)
  }

  /** A row's call reads a path ending in the template's name and writes one ending in the row's set-file name. */
  lemma RowJobPaths(templateDir: string, outputDir: string, template: string, i: nat, timestamp: string,
                    reps: OMap<string>)
    ensures EndsWith(RowJob(templateDir, outputDir, template, i, timestamp, reps).input, template)
    ensures EndsWith(RowJob(templateDir, outputDir, template, i, timestamp, reps).output,
                     SetFileName(template, i, timestamp))
  {
  }

  /** The rows, among the first `n`, that yield pairs: exactly those, once each, in row order. */
  function PairedRows(rows: seq<OMap<string>>, n: nat): (idx: seq<nat>)
    requires RowsMapped(rows) && n <= |rows|
    ensures forall k :: 0 <= k < |idx| ==> idx[k] < n
    ensures forall k, l :: 0 <= k < l < |idx| ==> idx[k] < idx[l]
  {
    if n == 0 then []
    else
      var prev := PairedRows(rows, n - 1);
      if HasPairs(rows[n - 1]) then prev + [n - 1] else prev
  }

  /** Every listed row has pairs. */
  lemma {:induction false} PairedRowsSound(rows: seq<OMap<string>>, n: nat, k: nat)
    requires RowsMapped(rows) && n <= |rows| && k < |PairedRows(rows, n)|
    ensures HasPairs(rows[PairedRows(rows, n)[k]])
  {
    var m: nat := n - 1;
    var prev := PairedRows(rows, m);
    assert PairedRows(rows, n) == prev + if HasPairs(rows[m]) then [m] else [];
    if k < |prev| {
      PairedRowsSound(rows, m, k);
    }
  }

  /** No row with pairs is left out. */
  lemma {:induction false} PairedRowsComplete(rows: seq<OMap<string>>, n: nat, i: nat)
    requires RowsMapped(rows) && i < n <= |rows| && HasPairs(rows[i])
    ensures i in PairedRows(rows, n)
  {
    var m: nat := n - 1;
    if i < m {
      PairedRowsComplete(rows, m, i);
    }
    assert PairedRows(rows, n) == PairedRows(rows, m) + if HasPairs(rows[m]) then [m] else [];
  }

  /** Row indices within the rows. */
  predicate PairedIndices(rows: seq<OMap<string>>, idx: seq<nat>) {
    forall k :: 0 <= k < |idx| ==> idx[k] < |rows|
  }

  /** The jobs for the given rows of one template, in the given order. */
  function JobsFor(templateDir: string, outputDir: string, template: string, rows: seq<OMap<string>>,
                   timestamp: string, idx: seq<nat>): (jobs: seq<Job>)
    requires RowsMapped(rows) && PairedIndices(rows, idx)
    ensures |jobs| == |idx|
    ensures UsableJobs(jobs)
  {
    if idx == [] then []
    else
      var i := idx[|idx| - 1];
      var init := JobsFor(templateDir, outputDir, template, rows, timestamp, idx[..|idx| - 1]);
      var job := RowJob(templateDir, outputDir, template, i, timestamp, RowReplacements(rows[i], |rows[i].keys|));
      assert Usable(job.replacements);
      init + [job]
  }

  /** Job `k` writes the set file of the `k`-th listed row. */
  lemma {:induction false} JobsForOutput(templateDir: string, outputDir: string, template: string, rows: seq<OMap<string>>,
                                         timestamp: string, idx: seq<nat>, k: nat)
    requires RowsMapped(rows) && PairedIndices(rows, idx) && k < |idx|
    ensures JobsFor(templateDir, outputDir, template, rows, timestamp, idx)[k].output
         == Paths.Join(outputDir, SetFileName(template, idx[k], timestamp))
  {
    var prefix := idx[..|idx| - 1];
    var i := idx[|idx| - 1];
    var job := RowJob(templateDir, outputDir, template, i, timestamp, RowReplacements(rows[i], |rows[i].keys|));
    var before := JobsFor(templateDir, outputDir, template, rows, timestamp, prefix);
    assert JobsFor(templateDir, outputDir, template, rows, timestamp, idx) == before + [job];
    if k < |prefix| {
      JobsForOutput(templateDir, outputDir, template, rows, timestamp, prefix, k);
      assert (before + [job])[k] == before[k];
    } else {
      assert k == |before| && idx[k] == i;
      assert (before + [job])[k] == job;
    }
  }

  /** The jobs for one template and the first `n` rows: one per row with pairs, in row order. */
  function RowJobs(templateDir: string, outputDir: string, template: string, rows: seq<OMap<string>>,
                   timestamp: string, n: nat): (jobs: seq<Job>)
    requires RowsMapped(rows) && n <= |rows|
    ensures |jobs| == |PairedRows(rows, n)|
    ensures UsableJobs(jobs)
  {
    JobsFor(templateDir, outputDir, template, rows, timestamp, PairedRows(rows, n))
  }

  /** Row `m` adds its job exactly when it has pairs. */
  lemma RowJobsStep(templateDir: string, outputDir: string, template: string, rows: seq<OMap<string>>,
                    timestamp: string, m: nat)
    requires RowsMapped(rows) && m < |rows|
    ensures var reps := RowReplacements(rows[m], |rows[m].keys|);
      RowJobs(templateDir, outputDir, template, rows, timestamp, m + 1)
      == RowJobs(templateDir, outputDir, template, rows, timestamp, m)
         + if reps.keys != [] then [RowJob(templateDir, outputDir, template, m, timestamp, reps)] else []
  {
    var idx := PairedRows(rows, m);
    if HasPairs(rows[m]) {
      assert PairedRows(rows, m + 1) == idx + [m];
      assert (idx + [m])[..|idx|] == idx;
    } else {
      assert PairedRows(rows, m + 1) == idx;
    }
  }

  /** The jobs of one template write pairwise different files. */
  lemma RowJobsDistinctOutputs(templateDir: string, outputDir: string, template: string, rows: seq<OMap<string>>,
                               timestamp: string, n: nat)
    requires RowsMapped(rows) && n <= |rows|
    ensures var jobs := RowJobs(templateDir, outputDir, template, rows, timestamp, n);
      forall k, l :: 0 <= k < l < |jobs| ==> jobs[k].output != jobs[l].output
  {
    var idx := PairedRows(rows, n);
    var jobs := RowJobs(templateDir, outputDir, template, rows, timestamp, n);
    forall k, l | 0 <= k < l < |jobs|
      ensures jobs[k].output != jobs[l].output
    {
      JobsForOutput(templateDir, outputDir, template, rows, timestamp, idx, k);
      JobsForOutput(templateDir, outputDir, template, rows, timestamp, idx, l);
      var a := SetFileName(template, idx[k], timestamp);
      var b := SetFileName(template, idx[l], timestamp);
      SetFileNameStart(template, idx[k], idx[l], timestamp);
      if jobs[k].output == jobs[l].output {
        Paths.JoinInjective(outputDir, a, b);
        SetFileNamesDistinct(template, idx[k], idx[l], timestamp);
      }
    }
  }

  /** Every output name of a template starts with the same character. */
  lemma SetFileNameStart(template: string, i: nat, j: nat, timestamp: string)
    ensures var a := SetFileName(template, i, timestamp);
      var b := SetFileName(template, j, timestamp);
      a != [] && b != [] && a[0] == b[0]
  {
    var head := Paths.SplitExt(template).0 + "_set";
    assert SetFileName(template, i, timestamp)[0] == head[0];
    assert SetFileName(template, j, timestamp)[0] == head[0];
  }

  /** The jobs for the first `n` templates, each with every row. */
  function Plan(templateDir: string, outputDir: string, templates: seq<string>, rows: seq<OMap<string>>,
                timestamp: string, n: nat): (jobs: seq<Job>)
    requires RowsMapped(rows) && n <= |templates|
    ensures UsableJobs(jobs)
  {
    if n == 0 then []
    else Plan(templateDir, outputDir, templates, rows, timestamp, n - 1)
         + RowJobs(templateDir, outputDir, templates[n - 1], rows, timestamp, |rows|)
  }

  lemma PlanStep(templateDir: string, outputDir: string, templates: seq<string>, rows: seq<OMap<string>>,
                 timestamp: string, m: nat)
    requires RowsMapped(rows) && m < |templates|
    ensures Plan(templateDir, outputDir, templates, rows, timestamp, m + 1)
         == Plan(templateDir, outputDir, templates, rows, timestamp, m)
            + RowJobs(templateDir, outputDir, templates[m], rows, timestamp, |rows|)
  {
  }

  /** Running the jobs of one more template extends the plan's outcomes and their count. */
  lemma PlanAppend(templateDir: string, outputDir: string, templates: seq<string>, rows: seq<OMap<string>>,
                   timestamp: string, m: nat, jobs: seq<Job>, outcomes: seq<Outcome>, more: seq<Job>, results: seq<Outcome>,
                   load: string -> Option<Source>, canEncode: (Encoding, string) -> bool)
    requires RowsMapped(rows) && m < |templates|
    requires jobs == Plan(templateDir, outputDir, templates, rows, timestamp, m)
    requires more == RowJobs(templateDir, outputDir, templates[m], rows, timestamp, |rows|)
    requires outcomes == RunJobs(jobs, load, canEncode) && results == RunJobs(more, load, canEncode)
    ensures jobs + more == Plan(templateDir, outputDir, templates, rows, timestamp, m + 1)
    ensures outcomes + results == RunJobs(jobs + more, load, canEncode)
    ensures Successes(outcomes + results) == Successes(outcomes) + Successes(results)
  {
    PlanStep(templateDir, outputDir, templates, rows, timestamp, m);
    SuccessesAppend(outcomes, results);
    RunJobsAppend(jobs, more, load, canEncode);
  }

  /** How many outcomes report a change: `successful_files`. */
  function Successes(outcomes: seq<Outcome>): (k: nat)
    ensures k <= |outcomes|
    ensures k == 0 <==> forall i :: 0 <= i < |outcomes| ==> !outcomes[i].changed
  {
    if outcomes == [] then 0
    else Successes(outcomes[..|outcomes| - 1]) + (if outcomes[|outcomes| - 1].changed then 1 else 0)
  }

  /** Counting over two runs one after the other adds up. */
  lemma {:induction false} SuccessesAppend(a: seq<Outcome>, b: seq<Outcome>)
    ensures Successes(a + b) == Successes(a) + Successes(b)
    decreases |b|
  {
    if b != [] {
      var b' := b[..|b| - 1];
      assert (a + b)[..|a + b| - 1] == a + b';
      SuccessesAppend(a, b');
    } else {
      assert a + b == a;
    }
  }

  /** Jobs the loop can run: each has usable pairs. */
  ghost predicate UsableJobs(jobs: seq<Job>) {
    forall j :: 0 <= j < |jobs| ==> Usable(jobs[j].replacements)
  }

  /** The outcome of each job, in order. */
  ghost function RunJobs(jobs: seq<Job>, load: string -> Option<Source>, canEncode: (Encoding, string) -> bool): (r: seq<Outcome>)
    requires UsableJobs(jobs)
    ensures |r| == |jobs|
  {
    seq(|jobs|, j requires 0 <= j < |jobs| => ReplaceInEmlSpec(load(jobs[j].input), jobs[j].replacements, canEncode))
  }

  /** Running two job lists one after the other gives the outcomes of each, in order. */
  lemma RunJobsAppend(a: seq<Job>, b: seq<Job>, load: string -> Option<Source>, canEncode: (Encoding, string) -> bool)
    requires UsableJobs(a) && UsableJobs(b)
    ensures UsableJobs(a + b)
    ensures RunJobs(a + b, load, canEncode) == RunJobs(a, load, canEncode) + RunJobs(b, load, canEncode)
  {
    assert forall j :: 0 <= j < |a + b| ==> (a + b)[j] == if j < |a| then a[j] else b[j - |a|];
  }

  /** Running one more job appends its outcome. */
  lemma RunJobsSnoc(jobs: seq<Job>, i: nat, load: string -> Option<Source>, canEncode: (Encoding, string) -> bool)
    requires UsableJobs(jobs) && i < |jobs|
    ensures UsableJobs(jobs[..i]) && UsableJobs(jobs[..i + 1])
    ensures RunJobs(jobs[..i + 1], load, canEncode)
      == RunJobs(jobs[..i], load, canEncode) + [ReplaceInEmlSpec(load(jobs[i].input), jobs[i].replacements, canEncode)]
  {
  }

  /** Running one more job appends its outcome. */
  lemma RunJobsPush(jobs: seq<Job>, job: Job, load: string -> Option<Source>, canEncode: (Encoding, string) -> bool)
    requires UsableJobs(jobs) && Usable(job.replacements)
    ensures UsableJobs(jobs + [job])
    ensures RunJobs(jobs + [job], load, canEncode)
      == RunJobs(jobs, load, canEncode) + [ReplaceInEmlSpec(load(job.input), job.replacements, canEncode)]
  {
  }

  /**
   * `batch_process_emails` after the existence checks: no rows or no
   * `.eml` template means failure; otherwise every job runs and the batch
   * succeeds when at least one of them changed its template.
   */
  ghost function BatchSpec(templateDir: string, outputDir: string, names: seq<string>, rows: seq<OMap<string>>,
                     timestamp: string, load: string -> Option<Source>, canEncode: (Encoding, string) -> bool): (bool, seq<Outcome>)
    requires RowsMapped(rows)
  {
    var templates := EmlFiles(names);
    if rows == [] || templates == [] then (false, [])
    else
      var outcomes := RunJobs(Plan(templateDir, outputDir, templates, rows, timestamp, |templates|), load, canEncode);
      (Successes(outcomes) > 0, outcomes)
  }

  /** The batch succeeds exactly when some job wrote a rewritten template. */
  lemma BatchSucceeds(templateDir: string, outputDir: string, names: seq<string>, rows: seq<OMap<string>>,
                      timestamp: string, load: string -> Option<Source>, canEncode: (Encoding, string) -> bool)
    requires RowsMapped(rows)
    ensures var (ok, outcomes) := BatchSpec(templateDir, outputDir, names, rows, timestamp, load, canEncode);
      ok <==> exists i :: 0 <= i < |outcomes| && outcomes[i].output.Encoded?
  {
    var (ok, outcomes) := BatchSpec(templateDir, outputDir, names, rows, timestamp, load, canEncode);
    var templates := EmlFiles(names);
    if !(rows == [] || templates == []) {
      var jobs := Plan(templateDir, outputDir, templates, rows, timestamp, |templates|);
      assert outcomes == RunJobs(jobs, load, canEncode);
      forall i | 0 <= i < |outcomes|
        ensures outcomes[i].changed <==> outcomes[i].output.Encoded?
      {
        var job := jobs[i];
        assert outcomes[i] == ReplaceInEmlSpec(load(job.input), job.replacements, canEncode);
      }
    }
  }

  /** Row `m` adds the outcome of its job exactly when it has pairs. */
  lemma RunRowJobsStep(templateDir: string, outputDir: string, template: string, rows: seq<OMap<string>>,
                       timestamp: string, m: nat, load: string -> Option<Source>, canEncode: (Encoding, string) -> bool)
    requires RowsMapped(rows) && m < |rows|
    ensures var reps := RowReplacements(rows[m], |rows[m].keys|);
      var job := RowJob(templateDir, outputDir, template, m, timestamp, reps);
      RunJobs(RowJobs(templateDir, outputDir, template, rows, timestamp, m + 1), load, canEncode)
      == RunJobs(RowJobs(templateDir, outputDir, template, rows, timestamp, m), load, canEncode)
         + if reps.keys != [] then [ReplaceInEmlSpec(load(job.input), reps, canEncode)] else []
  {
    var reps := RowReplacements(rows[m], |rows[m].keys|);
    var jobs := RowJobs(templateDir, outputDir, template, rows, timestamp, m);
    RowJobsStep(templateDir, outputDir, template, rows, timestamp, m);
    if reps.keys != [] {
      RunJobsPush(jobs, RowJob(templateDir, outputDir, template, m, timestamp, reps), load, canEncode);
    }
  }

  /** What a row adds to a template's run: nothing when it yields no pairs, else the outcome of its call. */
  ghost function RowOutcomes(input: string, row: OMap<string>, load: string -> Option<Source>,
                             canEncode: (Encoding, string) -> bool): seq<Outcome>
    requires row.KeysMapped()
  {
    var reps := RowReplacements(row, |row.keys|);
    if reps.keys != [] then [ReplaceInEmlSpec(load(input), reps, canEncode)] else []
  }

  /** The outcomes of the template at `input` against the first `n` rows, row by row. */
  ghost function TemplateOutcomes(input: string, rows: seq<OMap<string>>, n: nat, load: string -> Option<Source>,
                                  canEncode: (Encoding, string) -> bool): seq<Outcome>
    requires RowsMapped(rows) && n <= |rows|
  {
    if n == 0 then []
    else TemplateOutcomes(input, rows, n - 1, load, canEncode) + RowOutcomes(input, rows[n - 1], load, canEncode)
  }

  lemma TemplateOutcomesStep(input: string, rows: seq<OMap<string>>, m: nat, load: string -> Option<Source>,
                             canEncode: (Encoding, string) -> bool)
    requires RowsMapped(rows) && m < |rows|
    ensures TemplateOutcomes(input, rows, m + 1, load, canEncode)
         == TemplateOutcomes(input, rows, m, load, canEncode) + RowOutcomes(input, rows[m], load, canEncode)
  {
    var n := m + 1;
    assert n - 1 == m;
  }

  /** How many of the template's calls report a change, counted row by row as the loop does. */
  ghost function TemplateSuccesses(input: string, rows: seq<OMap<string>>, n: nat, load: string -> Option<Source>,
                                   canEncode: (Encoding, string) -> bool): nat
    requires RowsMapped(rows) && n <= |rows|
  {
    if n == 0 then 0
    else TemplateSuccesses(input, rows, n - 1, load, canEncode) + Successes(RowOutcomes(input, rows[n - 1], load, canEncode))
  }

  lemma TemplateSuccessesStep(input: string, rows: seq<OMap<string>>, m: nat, load: string -> Option<Source>,
                              canEncode: (Encoding, string) -> bool)
    requires RowsMapped(rows) && m < |rows|
    ensures TemplateSuccesses(input, rows, m + 1, load, canEncode)
         == TemplateSuccesses(input, rows, m, load, canEncode) + Successes(RowOutcomes(input, rows[m], load, canEncode))
  {
    var n := m + 1;
    assert n - 1 == m;
  }

  /** Counting row by row is counting the template's outcomes. */
  lemma {:induction false} TemplateSuccessesCount(input: string, rows: seq<OMap<string>>, n: nat,
                                                  load: string -> Option<Source>, canEncode: (Encoding, string) -> bool)
    requires RowsMapped(rows) && n <= |rows|
    ensures TemplateSuccesses(input, rows, n, load, canEncode) == Successes(TemplateOutcomes(input, rows, n, load, canEncode))
  {
    if n > 0 {
      var m: nat := n - 1;
      TemplateSuccessesCount(input, rows, m, load, canEncode);
      TemplateOutcomesStep(input, rows, m, load, canEncode);
      SuccessesAppend(TemplateOutcomes(input, rows, m, load, canEncode), RowOutcomes(input, rows[m], load, canEncode));
      assert TemplateSuccesses(input, rows, n, load, canEncode) == TemplateSuccesses(input, rows, m + 1, load, canEncode);
    }
  }

  /** Row by row, the template's outcomes are those of its jobs. */
  lemma {:induction false} TemplateOutcomesRunJobs(templateDir: string, outputDir: string, template: string,
                                                   rows: seq<OMap<string>>, timestamp: string, n: nat,
                                                   load: string -> Option<Source>, canEncode: (Encoding, string) -> bool)
    requires RowsMapped(rows) && n <= |rows|
    ensures TemplateOutcomes(Paths.Join(templateDir, template), rows, n, load, canEncode)
         == RunJobs(RowJobs(templateDir, outputDir, template, rows, timestamp, n), load, canEncode)
  {
    if n > 0 {
      var m: nat := n - 1;
      var input := Paths.Join(templateDir, template);
      TemplateOutcomesRunJobs(templateDir, outputDir, template, rows, timestamp, m, load, canEncode);
      RunRowJobsStep(templateDir, outputDir, template, rows, timestamp, m, load, canEncode);
      TemplateOutcomesStep(input, rows, m, load, canEncode);
      var reps := RowReplacements(rows[m], |rows[m].keys|);
      assert RowJob(templateDir, outputDir, template, m, timestamp, reps).input == input;
      assert TemplateOutcomes(input, rows, n, load, canEncode) == TemplateOutcomes(input, rows, m + 1, load, canEncode);
    }
  }

  /**
   * One pass of the inner loop: build the row's pairs, skip the row when
   * there are none, else rewrite the template and count a change.
   */
  method ProcessRow(input: string, rows: seq<OMap<string>>, i: nat, outcomes: seq<Outcome>, successful: nat,
                    load: string -> Option<Source>, canEncode: (Encoding, string) -> bool)
    returns (outcomes': seq<Outcome>, successful': nat)
    requires RowsMapped(rows) && i < |rows|
    requires outcomes == TemplateOutcomes(input, rows, i, load, canEncode)
    requires successful == TemplateSuccesses(input, rows, i, load, canEncode)
    ensures outcomes' == TemplateOutcomes(input, rows, i + 1, load, canEncode)
    ensures successful' == TemplateSuccesses(input, rows, i + 1, load, canEncode)
  {
    TemplateOutcomesStep(input, rows, i, load, canEncode);
    TemplateSuccessesStep(input, rows, i, load, canEncode);
    outcomes', successful' := outcomes, successful;
    var reps := BuildReplacements(rows[i]);
    if reps.keys != [] {
      var changed, output, _ := ReplaceInEml(load(input), reps, canEncode);
      var step := [Outcome(changed, output)];
      assert step[..0] == [];
      outcomes' := outcomes + step;
      if changed {
        successful' := successful + 1;
      }
    }
  }

  /** One template, read from `input`, against every row: the inner loop of the batch. */
  method ProcessTemplate(input: string, rows: seq<OMap<string>>, load: string -> Option<Source>,
                         canEncode: (Encoding, string) -> bool)
    returns (outcomes: seq<Outcome>, successful: nat)
    requires RowsMapped(rows)
    ensures outcomes == TemplateOutcomes(input, rows, |rows|, load, canEncode)
    ensures successful == Successes(outcomes)
  {
    outcomes, successful := [], 0;
    var i := 0;
    while i < |rows|
      invariant 0 <= i <= |rows|
      invariant outcomes == TemplateOutcomes(input, rows, i, load, canEncode)
      invariant successful == TemplateSuccesses(input, rows, i, load, canEncode)
    {
      outcomes, successful := ProcessRow(input, rows, i, outcomes, successful, load, canEncode);
      i := i + 1;
    }
    TemplateSuccessesCount(input, rows, |rows|, load, canEncode);
  }

  /** The batch's outer loop: every template against every row, counting the changed files. */
  method ProcessTemplates(templateDir: string, outputDir: string, templates: seq<string>, rows: seq<OMap<string>>,
                          timestamp: string, load: string -> Option<Source>, canEncode: (Encoding, string) -> bool)
    returns (outcomes: seq<Outcome>, successful: nat)
    requires RowsMapped(rows)
    ensures outcomes == RunJobs(Plan(templateDir, outputDir, templates, rows, timestamp, |templates|), load, canEncode)
    ensures successful == Successes(outcomes)
  {
    outcomes, successful := [], 0;
    var t := 0;
    while t < |templates|
      invariant 0 <= t <= |templates|
      invariant outcomes == RunJobs(Plan(templateDir, outputDir, templates, rows, timestamp, t), load, canEncode)
      invariant successful == Successes(outcomes)
    {
      var templatePath := Paths.Join(templateDir, templates[t]);
      var results, count := ProcessTemplate(templatePath, rows, load, canEncode);
      TemplateOutcomesRunJobs(templateDir, outputDir, templates[t], rows, timestamp, |rows|, load, canEncode);
      PlanAppend(templateDir, outputDir, templates, rows, timestamp, t, Plan(templateDir, outputDir, templates, rows, timestamp, t),
                 outcomes, RowJobs(templateDir, outputDir, templates[t], rows, timestamp, |rows|), results, load, canEncode);
      outcomes := outcomes + results;
      successful := successful + count;
      t := t + 1;
    }
  }

  method BatchProcessEmails(templateDir: string, outputDir: string, names: seq<string>, rows: seq<OMap<string>>,
                            timestamp: string, load: string -> Option<Source>, canEncode: (Encoding, string) -> bool)
    returns (ok: bool, outcomes: seq<Outcome>)
    requires RowsMapped(rows)
    ensures (ok, outcomes) == BatchSpec(templateDir, outputDir, names, rows, timestamp, load, canEncode)
  {
    if rows == [] {
      return false, [];
    }
    var templates := EmlFiles(names);
    if templates == [] {
      return false, [];
    }
    var successful;
    outcomes, successful := ProcessTemplates(templateDir, outputDir, templates, rows, timestamp, load, canEncode);
    ok := successful > 0;
  }

  // ---------------------------------------------------------------------
  // The stand-alone script: fixed pairs over a folder
  // ---------------------------------------------------------------------

  /** The pairs the script applies, in this order. */
  const ScriptReplacements: OMap<string> := OMap(
    ["paul.schneider@example.com", "Paul Schneider", "23.10.1982", "0304494487", "432546506", "Felix Schneider"],
    map[
      "paul.schneider@example.com" := "divya.eesarla@cgi.com",
      "Paul Schneider" := "Divya Sree",
      "23.10.1982" := "01.01.1990",
      "0304494487" := "0123456789",
      "432546506" := "987654321",
      "Felix Schneider" := "Jane"])

  lemma ScriptReplacementsUsable()
    ensures Usable(ScriptReplacements)
  {
  }

  /** Where the script writes a file: the output folder joined with the input's basename. */
  function ScriptOutput(inputDir: string, outputDir: string, file: string): string {
    Paths.Join(outputDir, Paths.Basename(Paths.Join(inputDir, file)))
  }

  /** A listed file keeps its name in the output folder. */
  lemma ScriptOutputKeepsName(inputDir: string, outputDir: string, file: string)
    requires Paths.Sep !in file
    ensures ScriptOutput(inputDir, outputDir, file) == Paths.Join(outputDir, file)
  {
    Paths.BasenameOfJoin(inputDir, file);
  }

  /** The script's jobs: every `.eml` file of the folder with the fixed pairs. */
  function ScriptJobs(inputDir: string, outputDir: string, names: seq<string>): (jobs: seq<Job>)
    ensures UsableJobs(jobs)
  {
    ScriptReplacementsUsable();
    var files := EmlFiles(names);
    seq(|files|, i requires 0 <= i < |files| =>
      Job(Paths.Join(inputDir, files[i]), ScriptOutput(inputDir, outputDir, files[i]), ScriptReplacements))
  }

  /** The script's loop: one call per `.eml` file, and the number of files changed. */
  method ProcessFolder(inputDir: string, outputDir: string, names: seq<string>, load: string -> Option<Source>,
                       canEncode: (Encoding, string) -> bool)
    returns (outcomes: seq<Outcome>, successCount: nat)
    ensures outcomes == RunJobs(ScriptJobs(inputDir, outputDir, names), load, canEncode)
    ensures successCount == Successes(outcomes)
  {
    ScriptReplacementsUsable();
    var files := EmlFiles(names);
    ghost var jobs := ScriptJobs(inputDir, outputDir, names);
    outcomes := [];
    successCount := 0;
    var i := 0;
    while i < |files|
      invariant 0 <= i <= |files|
      invariant outcomes == RunJobs(jobs[..i], load, canEncode)
      invariant successCount == Successes(outcomes)
    {
      var path := Paths.Join(inputDir, files[i]);
      var changed, output, _ := ReplaceInEml(load(path), ScriptReplacements, canEncode);
      SuccessesAppend(outcomes, [Outcome(changed, output)]);
      assert jobs[i].input == path && jobs[i].replacements == ScriptReplacements;
      RunJobsSnoc(jobs, i, load, canEncode);
      outcomes := outcomes + [Outcome(changed, output)];
      if changed {
        successCount := successCount + 1;
      }
      i := i + 1;
    }
    assert jobs[..i] == jobs;
  }
}
