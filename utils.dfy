/**
 * utils.py: the file-name stem of a path (`get_filename`) and the fixed-seed
 * reordering of a list (`randomize`).
 */
module Utils {
  import opened PosixPath

  /** `get_filename`: the basename of `path` without its last extension. */
  function GetFilename(path: string): string {
    SplitExt(Basename(path)).0
  }

  /** The stem never holds a separator, and it is a prefix of the basename. */
  lemma GetFilenameIsStem(path: string)
    ensures Sep !in GetFilename(path)
    ensures GetFilename(path) <= Basename(path)
  {
    var b := Basename(path);
    var dotIndex := RFind(b, ExtSep);
    if GetFilename(path) != b {
      assert GetFilename(path) == b[..dotIndex];
    }
  }

  /**
   * Only the last extension is removed: when the stem differs from the basename, the
   * rest is one dot followed by no further dot, and the stem does not consist of dots only.
   */
  lemma GetFilenameStripsLastExtension(path: string)
    ensures var b, stem := Basename(path), GetFilename(path);
            stem != b ==>
              |stem| < |b| && b == stem + b[|stem|..] && b[|stem|] == ExtSep &&
              (forall k :: |stem| < k < |b| ==> b[k] != ExtSep) &&
              (exists k :: 0 <= k < |stem| && stem[k] != ExtSep)
  {
    var b := Basename(path);
    assert RFind(b, Sep) == -1;
  }

  /**
   * The basename comes back unchanged exactly when it has no dot, or when only dots
   * come before its last dot (as in ".jpg").
   */
  lemma GetFilenameUnchanged(path: string)
    ensures var b := Basename(path);
            GetFilename(path) == b <==>
              (ExtSep !in b || forall k :: 0 <= k < RFind(b, ExtSep) ==> b[k] == ExtSep)
  {
    var b := Basename(path);
    assert RFind(b, Sep) == -1;
    var d := RFind(b, ExtSep);
    if ExtSep in b {
      var i :| 0 <= i < |b| && b[i] == ExtSep;
      assert d >= 0;
    }
    if GetFilename(path) != b {
      assert |b[..d]| < |b|;
    }
  }

  /** A directory is dropped and only the last of two extensions is stripped. */
  lemma GetFilenameNestedExample()
    ensures GetFilename("data/a.tar.gz") == "a.tar"
  {
    assert "data/a.tar.gz" == "data" + [Sep] + "a.tar.gz";
    RFindLast("data", Sep, "a.tar.gz");
    var b := Basename("data/a.tar.gz");
    assert b == "a.tar.gz";
    assert b == "a.tar" + [ExtSep] + "gz";
    RFindLast("a.tar", ExtSep, "gz");
    RFindAbsent(b, Sep);
    assert b[0] != ExtSep;
  }

  /** A name that starts with its only dot has no extension to strip. */
  lemma GetFilenameDotfileExample()
    ensures GetFilename("images/.jpg") == ".jpg"
  {
    assert "images/.jpg" == "images" + [Sep] + ".jpg";
    RFindLast("images", Sep, ".jpg");
    var b := Basename("images/.jpg");
    assert b == ".jpg";
    assert b == "" + [ExtSep] + "jpg";
    RFindLast("", ExtSep, "jpg");
    RFindAbsent(b, Sep);
  }

  /** A bare name without directory or extension is returned unchanged. */
  lemma GetFilenamePlainExample()
    ensures GetFilename("apple") == "apple"
  {
    RFindAbsent("apple", Sep);
    RFindAbsent("apple", ExtSep);
  }

  // ---------------------------------------------------------------------------
  // randomize

  /** The indices 0 .. n-1 in order: `list(range(n))`. */
  function Range(n: nat): (r: seq<nat>)
    ensures |r| == n && forall i :: 0 <= i < n ==> r[i] == i
  {
    seq(n, i requires 0 <= i < n => i)
  }

  /** `p` is a reordering of `0 .. n-1`. */
  predicate IsPermutation(p: seq<nat>, n: nat) {
    multiset(p) == multiset(Range(n))
  }

  lemma PermutationInRange(p: seq<nat>, n: nat)
    requires IsPermutation(p, n)
    ensures |p| == n && forall i :: 0 <= i < |p| ==> p[i] < n
  {
    assert |multiset(p)| == |p|;
    forall i | 0 <= i < |p|
      ensures p[i] < n
    {
      assert p[i] in multiset(p);
      assert p[i] in multiset(Range(n));
      assert p[i] in Range(n);
    }
  }

  /** Every entry of `index` is an index into a sequence of length `n`. */
  predicate InRange(index: seq<nat>, n: nat) {
    forall i :: 0 <= i < |index| ==> index[i] < n
  }

  /** `[data[i] for i in index]`. */
  function Pick<T>(data: seq<T>, index: seq<nat>): (r: seq<T>)
    requires InRange(index, |data|)
    ensures |r| == |index| && forall i :: 0 <= i < |index| ==> r[i] == data[index[i]]
  {
    seq(|index|, i requires 0 <= i < |index| => data[index[i]])
  }

  lemma PickConcat<T>(data: seq<T>, a: seq<nat>, b: seq<nat>)
    requires InRange(a, |data|)
    requires InRange(b, |data|)
    ensures InRange(a + b, |data|)
    ensures Pick(data, a + b) == Pick(data, a) + Pick(data, b)
  {
    assert forall i :: 0 <= i < |a + b| ==> (a + b)[i] == if i < |a| then a[i] else b[i - |a|];
  }

  lemma RemoveAt(q: seq<nat>, k: nat)
    requires k < |q|
    ensures multiset(q) == multiset{q[k]} + multiset(q[..k] + q[k + 1..])
  {
    assert q == q[..k] + [q[k]] + q[k + 1..];
  }

  lemma PickRemoveAt<T>(data: seq<T>, q: seq<nat>, k: nat)
    requires k < |q| && InRange(q, |data|)
    ensures multiset(Pick(data, q)) == multiset{data[q[k]]} + multiset(Pick(data, q[..k] + q[k + 1..]))
  {
    var left, right := q[..k], q[k + 1..];
    var x := [q[k]];
    assert q == left + (x + right);
    PickConcat(data, x, right);
    PickConcat(data, left, x + right);
    PickConcat(data, left, right);
    var pl, pr := Pick(data, left), Pick(data, right);
    assert Pick(data, x) == [data[q[k]]];
    assert Pick(data, q) == pl + ([data[q[k]]] + pr);
    assert multiset(pl + ([data[q[k]]] + pr)) == multiset(pl) + multiset{data[q[k]]} + multiset(pr);
  }

  /** Removing an entry keeps the others, so their bounds carry over. */
  lemma RemoveAtBounds(q: seq<nat>, k: nat, n: nat)
    requires k < |q| && InRange(q, n)
    ensures InRange(q[..k] + q[k + 1..], n)
  {
    var rest := q[..k] + q[k + 1..];
    forall i | 0 <= i < |rest|
      ensures rest[i] < n
    {
      if i < k {
        assert rest[i] == q[i];
      } else {
        assert rest[i] == q[i + 1];
      }
    }
  }

  /** Removing the same value from two lists with equal multisets leaves equal multisets. */
  lemma RemoveMatching(p: seq<nat>, q: seq<nat>, k: nat)
    requires |p| > 0 && k < |q| && q[k] == p[0]
    requires multiset(p) == multiset(q)
    ensures multiset(p[1..]) == multiset(q[..k] + q[k + 1..])
  {
    var x := multiset{p[0]};
    var a, b := multiset(p[1..]), multiset(q[..k] + q[k + 1..]);
    assert p == [p[0]] + p[1..];
    assert multiset(p) == x + a;
    RemoveAt(q, k);
    assert x + a == x + b;
    assert a == (x + a) - x;
  }

  lemma PickCons<T>(data: seq<T>, p: seq<nat>)
    requires |p| > 0 && InRange(p, |data|)
    ensures multiset(Pick(data, p)) == multiset{data[p[0]]} + multiset(Pick(data, p[1..]))
  {
    assert Pick(data, p) == [data[p[0]]] + Pick(data, p[1..]);
  }

  /** The first index of `p` also occurs in `q`, at some `k`; removing both leaves index lists with equal multisets. */
  lemma MatchFirst<T>(data: seq<T>, p: seq<nat>, q: seq<nat>) returns (k: nat)
    requires |p| > 0
    requires InRange(q, |data|)
    requires multiset(p) == multiset(q)
    ensures k < |q| && q[k] == p[0]
    ensures InRange(q[..k] + q[k + 1..], |data|)
    ensures multiset(p[1..]) == multiset(q[..k] + q[k + 1..])
  {
    assert p[0] in multiset(q) by {
      assert p[0] in multiset(p);
    }
    k :| 0 <= k < |q| && q[k] == p[0];
    RemoveAtBounds(q, k, |data|);
    RemoveMatching(p, q, k);
  }

  /** Removing the matched index from both lists removes the same element from both picks. */
  lemma PickStep<T>(data: seq<T>, p: seq<nat>, q: seq<nat>, k: nat)
    requires |p| > 0 && k < |q| && q[k] == p[0]
    requires InRange(p, |data|)
    requires InRange(q, |data|)
    ensures multiset(Pick(data, p)) == multiset{data[p[0]]} + multiset(Pick(data, p[1..]))
    ensures multiset(Pick(data, q)) == multiset{data[p[0]]} + multiset(Pick(data, q[..k] + q[k + 1..]))
  {
    PickCons(data, p);
    PickRemoveAt(data, q, k);
  }

  /** Picking by two index lists with the same multiset gives the same multiset of elements. */
  lemma {:induction false} PickMultiset<T>(data: seq<T>, p: seq<nat>, q: seq<nat>)
    requires InRange(p, |data|)
    requires InRange(q, |data|)
    requires multiset(p) == multiset(q)
    ensures multiset(Pick(data, p)) == multiset(Pick(data, q))
    decreases |p|
  {
    if |p| == 0 {
      assert |q| == |multiset(q)| == 0;
      assert Pick(data, p) == [] == Pick(data, q);
    } else {
      var k := MatchFirst(data, p, q);
      PickMultiset(data, p[1..], q[..k] + q[k + 1..]);
      PickStep(data, p, q, k);
    }
  }

  /**
   * `randomize`: reorders `data` by the index permutation `shuffle(len(data))`.
   * The shuffle is `random.shuffle` after `random.seed(12345)`, so it is a function
   * of the length alone; it is kept abstract and only required to be a permutation.
   */
  function Randomize<T>(data: seq<T>, shuffle: nat -> seq<nat>): (r: seq<T>)
    requires IsPermutation(shuffle(|data|), |data|)
    ensures |r| == |data| == |shuffle(|data|)|
    ensures forall i :: 0 <= i < |r| ==> shuffle(|data|)[i] < |data| && r[i] == data[shuffle(|data|)[i]]
  {
    PermutationInRange(shuffle(|data|), |data|);
    Pick(data, shuffle(|data|))
  }

  /** Reordering keeps every element and its multiplicity. */
  lemma RandomizeIsPermutation<T>(data: seq<T>, shuffle: nat -> seq<nat>)
    requires IsPermutation(shuffle(|data|), |data|)
    ensures multiset(Randomize(data, shuffle)) == multiset(data)
  {
    var n := |data|;
    PermutationInRange(shuffle(n), n);
    PickMultiset(data, shuffle(n), Range(n));
    assert Pick(data, Range(n)) == data;
  }

  function Zip<T, U>(a: seq<T>, b: seq<U>): (r: seq<(T, U)>)
    requires |a| == |b|
    ensures |r| == |a| && forall i :: 0 <= i < |a| ==> r[i] == (a[i], b[i])
  {
    seq(|a|, i requires 0 <= i < |a| => (a[i], b[i]))
  }

  /**
   * The order depends only on the length: two lists of the same length are
   * reordered in lock-step, so reordering their pairing pairs their reorderings.
   */
  lemma RandomizeSameOrder<T, U>(a: seq<T>, b: seq<U>, shuffle: nat -> seq<nat>)
    requires |a| == |b| && IsPermutation(shuffle(|a|), |a|)
    ensures Randomize(Zip(a, b), shuffle) == Zip(Randomize(a, shuffle), Randomize(b, shuffle))
  {
  }
}
