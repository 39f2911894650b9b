/**
 * The `os.path` operations the e-mail tools use on file names, as the POSIX
 * implementation defines them: `basename`, `join` of two parts and
 * `splitext`.
 */
module Paths {
  import opened Base
  import opened Text

  const Sep: char := '/'

  /** Index of the last occurrence of `c` in `s`, like `str.rfind` (`None` for -1). */
  function LastIndex(s: string, c: char): (r: Option<nat>)
    ensures r.Some? ==> r.value < |s| && s[r.value] == c
    ensures forall i :: 0 <= i < |s| && (r.None? || r.value < i) ==> s[i] != c
  {
    if s == [] then None
    else if s[|s| - 1] == c then Some(|s| - 1)
    else LastIndex(s[..|s| - 1], c)
  }

  /** Where the last path component starts. */
  function ComponentStart(p: string): (i: nat)
    ensures i <= |p|
    ensures i == 0 || p[i - 1] == Sep
    ensures forall k :: i <= k < |p| ==> p[k] != Sep
  {
    match LastIndex(p, Sep)
    case Some(j) => j + 1
    case None => 0
  }

  /** `os.path.basename`: everything after the last separator. */
  function Basename(p: string): (r: string)
    ensures EndsWith(p, r) && Sep !in r
    ensures |r| == |p| || p[|p| - |r| - 1] == Sep
  {
    p[ComponentStart(p)..]
  }

  /** `os.path.join(a, b)`: an absolute `b` replaces `a`; otherwise one separator joins them. */
  function Join(a: string, b: string): (r: string)
    ensures EndsWith(r, b)
  {
    if b != [] && b[0] == Sep then b
    else if a == [] || a[|a| - 1] == Sep then a + b
    else a + [Sep] + b
  }

  /** Two names starting with the same character join onto a directory differently unless they are equal. */
  lemma JoinInjective(dir: string, a: string, b: string)
    requires a != [] && b != [] && a[0] == b[0]
    requires Join(dir, a) == Join(dir, b)
    ensures a == b
  {
    var ja := Join(dir, a);
    if a[0] != Sep && !(dir == [] || dir[|dir| - 1] == Sep) {
      assert ja == (dir + [Sep]) + a && Join(dir, b) == (dir + [Sep]) + b;
      assert a == ja[|dir| + 1..];
    } else if a[0] != Sep {
      assert a == ja[|dir|..];
    }
  }

  /** Joining a directory and a plain file name and taking the basename gives the name back. */
  lemma BasenameOfJoin(dir: string, name: string)
    requires Sep !in name
    ensures Basename(Join(dir, name)) == name
  {
    var p := Join(dir, name);
    var k := |p| - |name|;
    assert p[k..] == name;
    if name != [] {
      assert name[0] in name;
    }
    if dir != [] {
      assert p[k - 1] == Sep;
    }
  }

  /**
   * `os.path.splitext`: the extension starts at the last dot of the last
   * component, provided that component has a character other than a dot
   * before it; a name like ".eml" has no extension.
   */
  function SplitExt(p: string): (r: (string, string))
    ensures r.0 + r.1 == p
    ensures r.1 == [] || (r.1[0] == '.' && '.' !in r.1[1..] && Sep !in r.1)
    ensures r.1 != [] <==> HasExtension(p)
  {
    var start := ComponentStart(p);
    match LastIndex(p, '.')
    case Some(d) =>
      if d > start && exists i :: start <= i < d && p[i] != '.' then
        assert p == p[..d] + p[d..];
        assert forall i :: 0 <= i < |p[d..]| ==> p[d..][i] == p[d + i];
        (p[..d], p[d..])
      else
        assert !HasExtension(p) by {
          forall i, e | start <= i < e < |p| && p[e] == '.'
            ensures p[i] == '.'
          {
            assert e <= d;
          }
        }
        (p, [])
    case None => (p, [])
  }

  /** The last component has a dot with some character other than a dot before it. */
  predicate HasExtension(p: string) {
    exists i, e :: ComponentStart(p) <= i < e < |p| && p[i] != '.' && p[e] == '.'
  }

  /** A component with a non-dot character before its last dot splits at that dot. */
  lemma SplitExtAtLastDot(p: string, d: nat)
    requires ComponentStart(p) < d < |p| && p[d] == '.' && '.' !in p[d + 1..]
    requires exists i :: ComponentStart(p) <= i < d && p[i] != '.'
    ensures SplitExt(p) == (p[..d], p[d..])
  {
  }
}
