/**
 * The POSIX `os.path` operations the core calls (`join` with two arguments,
 * `basename`, `splitext`), written out with the library's semantics.
 */
module PosixPath {

  const Sep: char := '/'
  const ExtSep: char := '.'

  /** `str.rfind(c)`: the last index of `c` in `s`, or -1. */
  function RFind(s: string, c: char): (r: int)
    ensures -1 <= r < |s|
    ensures r >= 0 ==> s[r] == c
    ensures forall k :: r < k < |s| ==> s[k] != c
  {
    if |s| == 0 then -1
    else if s[|s| - 1] == c then |s| - 1
    else RFind(s[..|s| - 1], c)
  }

  /** The last occurrence of `c` at `|a|`, followed by text without `c`, is what `RFind` finds. */
  lemma {:induction false} RFindLast(a: string, c: char, b: string)
    requires c !in b
    ensures RFind(a + [c] + b, c) == |a|
    decreases |b|
  {
    var s := a + [c] + b;
    if |b| == 0 {
      assert s[|s| - 1] == c;
    } else {
      var m := |b| - 1;
      assert s[|s| - 1] == b[m];
      assert s[..|s| - 1] == a + [c] + b[..m];
      assert c !in b[..m] by {
        assert forall j :: 0 <= j < m ==> b[..m][j] == b[j];
      }
      RFindLast(a, c, b[..m]);
    }
  }

  /** A character that does not occur is not found. */
  lemma RFindAbsent(s: string, c: char)
    requires c !in s
    ensures RFind(s, c) == -1
  {
    assert forall k :: 0 <= k < |s| ==> s[k] != c;
  }

  /** `os.path.join(a, b)`: an absolute `b` replaces `a`; otherwise one separator goes between them. */
  function Join(a: string, b: string): string {
    if |b| > 0 && b[0] == Sep then b
    else if |a| == 0 || a[|a| - 1] == Sep then a + b
    else a + [Sep] + b
  }

  /** `os.path.basename(p)`: everything after the last separator. */
  function Basename(p: string): (r: string)
    ensures Sep !in r
    ensures |r| <= |p| && r == p[|p| - |r|..]
  {
    p[RFind(p, Sep) + 1..]
  }

  /**
   * `os.path.splitext(p)`: splits off the last extension, i.e. the part from the last
   * dot that comes after the last separator, unless only dots precede that dot in
   * the last component.
   */
  function SplitExt(p: string): (string, string) {
    var sepIndex := RFind(p, Sep);
    var dotIndex := RFind(p, ExtSep);
    if dotIndex > sepIndex && exists k :: sepIndex + 1 <= k < dotIndex && p[k] != ExtSep then
      (p[..dotIndex], p[dotIndex..])
    else
      (p, "")
  }

  /** The two parts of `splitext` always put the path back together. */
  lemma SplitExtConcat(p: string)
    ensures SplitExt(p).0 + SplitExt(p).1 == p
  {
    var dotIndex := RFind(p, ExtSep);
    if SplitExt(p).1 != "" {
      assert p[..dotIndex] + p[dotIndex..] == p;
    }
  }
}
