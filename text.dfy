/**
 * The Python `str` operations the form filler and the e-mail tools rely on,
 * written out over `seq<char>`: membership (`in`), `startswith`/`endswith`,
 * `lower`, `isdigit`/`isalpha`, `strip`, `split`, `count` and `replace`.
 * Character classes and case mapping are the ASCII ones.
 */
module Text {
  import opened Base

  // ---------------------------------------------------------------------
  // Character classes
  // ---------------------------------------------------------------------

  predicate IsDigit(c: char) { '0' <= c <= '9' }

  predicate IsAlpha(c: char) { 'a' <= c <= 'z' || 'A' <= c <= 'Z' }

  /** The characters `str.strip()` removes when given no argument. */
  const Whitespace: set<char> :=
    {' ', '\t', '\n', '\r', '\U{000B}', '\U{000C}', '\U{001C}', '\U{001D}', '\U{001E}', '\U{001F}'}

  /** The characters `str.strip('"\'')` removes. */
  const Quotes: set<char> := {'"', '\''}

  function LowerChar(c: char): char {
    if 'A' <= c <= 'Z' then (c as int + 32) as char else c
  }

  /** `s.lower()`: every character lowered, nothing else changed. */
  function Lower(s: string): (r: string)
    ensures |r| == |s|
  {
    if s == [] then [] else [LowerChar(s[0])] + Lower(s[1..])
  }

  /** Each character is lowered in place. */
  lemma {:induction false} LowerAt(s: string, i: nat)
    requires i < |s|
    ensures Lower(s)[i] == LowerChar(s[i])
    decreases i
  {
    if i > 0 {
      LowerAt(s[1..], i - 1);
    }
  }

  /** Lowering a string without capitals leaves it alone. */
  lemma {:induction false} LowerKeeps(s: string)
    requires forall i :: 0 <= i < |s| ==> !('A' <= s[i] <= 'Z')
    ensures Lower(s) == s
    decreases |s|
  {
    if s != [] {
      LowerKeeps(s[1..]);
      assert [s[0]] + s[1..] == s;
    }
  }

  // ---------------------------------------------------------------------
  // Prefixes, suffixes, substrings
  // ---------------------------------------------------------------------

  predicate StartsWith(s: string, prefix: string) { prefix <= s }

  predicate EndsWith(s: string, suffix: string) {
    |suffix| <= |s| && s[|s| - |suffix|..] == suffix
  }

  /** `pat in s`; the empty pattern occurs in every string, as in Python. */
  predicate Contains(s: string, pat: string)
    decreases |s|
  {
    |pat| <= |s| && (pat <= s || Contains(s[1..], pat))
  }

  /** `pat` occurs in `s` starting at index `j`. */
  predicate OccursAt(s: string, pat: string, j: nat) {
    j + |pat| <= |s| && s[j..j + |pat|] == pat
  }

  /** Index of the first occurrence of `pat` at or after `from`. */
  function IndexFrom(s: string, pat: string, from: nat): (r: Option<nat>)
    requires from <= |s|
    ensures r.Some? ==> from <= r.value && OccursAt(s, pat, r.value)
    ensures forall j: nat :: from <= j && (r.None? || j < r.value) ==> !OccursAt(s, pat, j)
    decreases |s| - from
  {
    if from + |pat| > |s| then None
    else if OccursAt(s, pat, from) then Some(from)
    else IndexFrom(s, pat, from + 1)
  }

  function IndexOf(s: string, pat: string): Option<nat> { IndexFrom(s, pat, 0) }

  /** `s.split(pat)[0]`: the text before the first `pat`, or all of `s`. */
  function BeforeFirst(s: string, pat: string): (r: string)
    ensures r <= s
    ensures forall j: nat :: j < |r| ==> !OccursAt(s, pat, j)
    ensures |r| < |s| ==> OccursAt(s, pat, |r|)
    ensures (forall j: nat :: !OccursAt(s, pat, j)) ==> r == s
  {
    match IndexOf(s, pat)
    case Some(i) => s[..i]
    case None => s
  }

  /** `s.split(pat, 1)[1]`: the text after the first `pat`; `None` when `pat` does not occur. */
  function AfterFirst(s: string, pat: string): (r: Option<string>)
    ensures r.Some? ==> EndsWith(s, pat + r.value)
    ensures r.None? <==> forall j: nat :: !OccursAt(s, pat, j)
    ensures r.Some? ==> s == BeforeFirst(s, pat) + pat + r.value
  {
    match IndexOf(s, pat)
    case Some(i) =>
      assert s[i..] == pat + s[i + |pat|..];
      Some(s[i + |pat|..])
    case None => None
  }

  /** `pat in s` holds exactly when `pat` occurs at some index of `s`. */
  lemma {:induction false} ContainsOccurs(s: string, pat: string)
    ensures Contains(s, pat) <==> exists j: nat :: OccursAt(s, pat, j)
    decreases |s|
  {
    if Contains(s, pat) {
      if pat <= s {
        assert OccursAt(s, pat, 0);
      } else {
        ContainsOccurs(s[1..], pat);
        var j: nat :| OccursAt(s[1..], pat, j);
        assert s[1..][j..j + |pat|] == s[j + 1..j + 1 + |pat|];
        assert OccursAt(s, pat, j + 1);
      }
    }
    if exists j: nat :: OccursAt(s, pat, j) {
      var j: nat :| OccursAt(s, pat, j);
      if j > 0 {
        assert s[1..][j - 1..j - 1 + |pat|] == s[j..j + |pat|];
        assert OccursAt(s[1..], pat, j - 1);
        ContainsOccurs(s[1..], pat);
      } else {
        assert pat <= s;
      }
    }
  }

  /** A string holding `pat` holds every prefix of `pat`. */
  lemma ContainsPrefix(s: string, pat: string, pre: string)
    requires pre <= pat && Contains(s, pat)
    ensures Contains(s, pre)
  {
    ContainsOccurs(s, pat);
    var j: nat :| OccursAt(s, pat, j);
    assert s[j..j + |pre|] == pat[..|pre|];
    assert OccursAt(s, pre, j);
    ContainsOccurs(s, pre);
  }

  /** `s.split(pat)[1]`: the text between the first and the second `pat`; it exists exactly when `pat in s`. */
  function SecondPiece(s: string, pat: string): (r: Option<string>)
    ensures r.Some? <==> Contains(s, pat)
  {
    ContainsOccurs(s, pat);
    match AfterFirst(s, pat)
    case Some(rest) => Some(BeforeFirst(rest, pat))
    case None => None
  }

  // ---------------------------------------------------------------------
  // strip
  // ---------------------------------------------------------------------

  /** Drops the leading characters of `s` that belong to `cs`. */
  function TrimLeft(s: string, cs: set<char>): (r: string)
    ensures |r| <= |s| && r == s[|s| - |r|..]
    ensures r != [] ==> r[0] !in cs
    ensures forall i :: 0 <= i < |s| - |r| ==> s[i] in cs
    decreases |s|
  {
    if s != [] && s[0] in cs then TrimLeft(s[1..], cs) else s
  }

  /** Drops the trailing characters of `s` that belong to `cs`. */
  function TrimRight(s: string, cs: set<char>): (r: string)
    ensures r <= s
    ensures r != [] ==> r[|r| - 1] !in cs
    ensures forall i :: |r| <= i < |s| ==> s[i] in cs
    decreases |s|
  {
    if s != [] && s[|s| - 1] in cs then TrimRight(s[..|s| - 1], cs) else s
  }

  /** `s.strip(chars)`. */
  function StripBy(s: string, cs: set<char>): string {
    TrimRight(TrimLeft(s, cs), cs)
  }

  /** `s.strip()`. */
  function Strip(s: string): string { StripBy(s, Whitespace) }

  /** `s.strip('"\'')`. */
  function StripQuotes(s: string): string { StripBy(s, Quotes) }

  // ---------------------------------------------------------------------
  // split on one character
  // ---------------------------------------------------------------------

  /** `s.split(c)`: the pieces between occurrences of `c`; never empty. */
  function Split(s: string, c: char): (r: seq<string>)
    ensures |r| >= 1
    ensures forall p :: p in r ==> c !in p
    decreases |s|
  {
    if s == [] then [""]
    else if s[0] == c then [""] + Split(s[1..], c)
    else var t := Split(s[1..], c); [[s[0]] + t[0]] + t[1..]
  }

  /** `c.join(pieces)`. */
  function Join(pieces: seq<string>, c: char): string
    requires |pieces| >= 1
  {
    if |pieces| == 1 then pieces[0] else pieces[0] + [c] + Join(pieces[1..], c)
  }

  /** Splitting and joining again with the same separator gives back the input. */
  lemma {:induction false} SplitJoin(s: string, c: char)
    ensures Join(Split(s, c), c) == s
    decreases |s|
  {
    if s == [] {
    } else if s[0] == c {
      SplitJoin(s[1..], c);
      assert Split(s, c) == [""] + Split(s[1..], c);
    } else {
      SplitJoin(s[1..], c);
      var t := Split(s[1..], c);
      var r := Split(s, c);
      assert r == [[s[0]] + t[0]] + t[1..];
      if |t| == 1 {
      } else {
        assert r[1..] == t[1..];
        assert Join(t, c) == t[0] + [c] + Join(t[1..], c);
      }
    }
  }

  // ---------------------------------------------------------------------
  // count and replace: left to right, non-overlapping
  // ---------------------------------------------------------------------

  /** `s.count(pat)` for a non-empty pattern. */
  function Count(s: string, pat: string): nat
    requires pat != []
    decreases |s|
  {
    if |s| < |pat| then 0
    else if pat <= s then 1 + Count(s[|pat|..], pat)
    else Count(s[1..], pat)
  }

  /** `s.replace(pat, rep)` for a non-empty pattern. */
  function ReplaceAll(s: string, pat: string, rep: string): string
    requires pat != []
    decreases |s|
  {
    if |s| < |pat| then s
    else if pat <= s then rep + ReplaceAll(s[|pat|..], pat, rep)
    else [s[0]] + ReplaceAll(s[1..], pat, rep)
  }

  /** The count is zero exactly when the pattern does not occur. */
  lemma {:induction false} CountZeroIffAbsent(s: string, pat: string)
    requires pat != []
    ensures Count(s, pat) == 0 <==> !Contains(s, pat)
    decreases |s|
  {
    if |s| < |pat| {
    } else if pat <= s {
    } else {
      CountZeroIffAbsent(s[1..], pat);
    }
  }

  /** Replacing a pattern that does not occur changes nothing. */
  lemma {:induction false} ReplaceAbsent(s: string, pat: string, rep: string)
    requires pat != [] && !Contains(s, pat)
    ensures ReplaceAll(s, pat, rep) == s
    decreases |s|
  {
    if |s| >= |pat| {
      ReplaceAbsent(s[1..], pat, rep);
      assert [s[0]] + s[1..] == s;
    }
  }

  lemma MulSucc(c: int, d: int)
    ensures (1 + c) * d == d + c * d
  {
  }

  /** Each of the `Count` replaced occurrences changes the length by `|rep| - |pat|`. */
  lemma {:induction false} ReplaceLength(s: string, pat: string, rep: string)
    requires pat != []
    ensures |ReplaceAll(s, pat, rep)| == |s| + Count(s, pat) * (|rep| - |pat|)
    decreases |s|
  {
    var d := |rep| - |pat|;
    if |s| < |pat| {
    } else if pat <= s {
      var t := s[|pat|..];
      ReplaceLength(t, pat, rep);
      var c := Count(t, pat);
      assert Count(s, pat) == 1 + c;
      assert ReplaceAll(s, pat, rep) == rep + ReplaceAll(t, pat, rep);
      MulSucc(c, d);
    } else {
      ReplaceLength(s[1..], pat, rep);
      assert Count(s, pat) == Count(s[1..], pat);
      assert ReplaceAll(s, pat, rep) == [s[0]] + ReplaceAll(s[1..], pat, rep);
    }
  }

  /** Replacing a pattern that occurs by a different text always changes the string. */
  lemma {:induction false} ReplacePresentChanges(s: string, pat: string, rep: string)
    requires pat != [] && rep != pat && Count(s, pat) > 0
    ensures ReplaceAll(s, pat, rep) != s
    decreases |s|
  {
    if |rep| != |pat| {
      ReplaceLength(s, pat, rep);
      NonZeroProduct(Count(s, pat), |rep| - |pat|);
    } else if pat <= s {
      var r := ReplaceAll(s, pat, rep);
      assert r == rep + ReplaceAll(s[|pat|..], pat, rep);
      assert r[..|pat|] == rep;
      assert s[..|pat|] == pat;
    } else {
      ReplacePresentChanges(s[1..], pat, rep);
      var r := ReplaceAll(s, pat, rep);
      assert r == [s[0]] + ReplaceAll(s[1..], pat, rep);
      assert r[1..] == ReplaceAll(s[1..], pat, rep);
    }
  }

  lemma NonZeroProduct(a: int, b: int)
    requires a != 0 && b != 0
    ensures a * b != 0
  {
  }

  /** Replacing a pattern by itself is the identity. */
  lemma {:induction false} ReplaceSelf(s: string, pat: string)
    requires pat != []
    ensures ReplaceAll(s, pat, pat) == s
    decreases |s|
  {
    if |s| < |pat| {
    } else if pat <= s {
      ReplaceSelf(s[|pat|..], pat);
      assert s == pat + s[|pat|..];
    } else {
      ReplaceSelf(s[1..], pat);
      assert s == [s[0]] + s[1..];
    }
  }

  // ---------------------------------------------------------------------
  // Decimal rendering of a natural number, as in an f-string
  // ---------------------------------------------------------------------

  function DigitChar(d: nat): char
    requires d < 10
  {
    ('0' as int + d) as char
  }

  function NatToString(n: nat): (r: string)
    ensures |r| >= 1 && (n >= 10 ==> |r| >= 2)
    ensures forall i :: 0 <= i < |r| ==> IsDigit(r[i])
  {
    if n < 10 then [DigitChar(n)] else NatToString(n / 10) + [DigitChar(n % 10)]
  }

  /** Distinct numbers render differently, so generated key names never collide. */
  lemma {:induction false} NatToStringInjective(m: nat, n: nat)
    requires NatToString(m) == NatToString(n)
    ensures m == n
    decreases m
  {
    var sm, sn := NatToString(m), NatToString(n);
    if m < 10 && n < 10 {
    } else if m >= 10 && n >= 10 {
      assert sm[|sm| - 1] == DigitChar(m % 10) && sn[|sn| - 1] == DigitChar(n % 10);
      assert sm[..|sm| - 1] == NatToString(m / 10);
      assert sn[..|sn| - 1] == NatToString(n / 10);
      NatToStringInjective(m / 10, n / 10);
    } else {
      assert false;
    }
  }
}
