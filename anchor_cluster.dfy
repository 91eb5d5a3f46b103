/**
 * The centroid clustering engine (anchors.py, `_cluster`): a K-means variant whose
 * distance is 1 - overlap and whose update is the truncated coordinate-wise mean.
 * The functions below specify one round; `Cluster` is the in-place loop.
 */
module AnchorCluster {
  import opened AnchorMetric

  /** Distances of one box to every centroid (one row of the distance matrix). */
  function DistanceRow(x: Box, centroids: seq<Box>): seq<real>
    requires Positive(x) && AllPositive(centroids)
  {
    seq(|centroids|, j requires 0 <= j < |centroids| => 1.0 - Iou(x, centroids[j]))
  }

  /** The |corpus| x K distance matrix. */
  function Distances(corpus: seq<Box>, centroids: seq<Box>): seq<seq<real>>
    requires AllPositive(corpus) && AllPositive(centroids)
  {
    seq(|corpus|, i requires 0 <= i < |corpus| => DistanceRow(corpus[i], centroids))
  }

  predicate IsMatrix(d: seq<seq<real>>, rows: nat, cols: nat) {
    |d| == rows && forall i :: 0 <= i < rows ==> |d[i]| == cols
  }

  function Abs(r: real): real {
    if r < 0.0 then -r else r
  }

  /** Sum of |a[j] - b[j]| over one row. */
  function RowL1(a: seq<real>, b: seq<real>): real
    requires |a| == |b|
  {
    if |a| == 0 then 0.0 else Abs(a[0] - b[0]) + RowL1(a[1..], b[1..])
  }

  /** `np.sum(np.abs(a - b))` over two matrices of the same shape, not normalised. */
  function L1(a: seq<seq<real>>, b: seq<seq<real>>): real
    requires |a| == |b| && forall i :: 0 <= i < |a| ==> |a[i]| == |b[i]|
  {
    if |a| == 0 then 0.0 else RowL1(a[0], b[0]) + L1(a[1..], b[1..])
  }

  lemma {:induction false} RowL1Self(a: seq<real>)
    ensures RowL1(a, a) == 0.0
  {
    if |a| > 0 {
      RowL1Self(a[1..]);
    }
  }

  /** An unchanged distance matrix has L1 difference zero. */
  lemma {:induction false} L1Self(a: seq<seq<real>>)
    ensures L1(a, a) == 0.0
  {
    if |a| > 0 {
      RowL1Self(a[0]);
      L1Self(a[1..]);
    }
  }

  /** `k` is the lowest index at which `row` takes its minimum. */
  predicate IsFirstMin(row: seq<real>, k: nat) {
    && k < |row|
    && (forall j :: 0 <= j < |row| ==> row[k] <= row[j])
    && (forall j :: 0 <= j < k ==> row[j] > row[k])
  }

  /** `np.argmin` of one row: the lowest index holding the minimum. */
  function ArgMin(row: seq<real>): (k: nat)
    requires |row| > 0
    ensures IsFirstMin(row, k)
  {
    if |row| == 1 then 0
    else
      var k := ArgMin(row[..|row| - 1]);
      if row[|row| - 1] < row[k] then |row| - 1 else k
  }

  /** `np.argmin(distances, axis=1)`: every box goes to its nearest centroid. */
  function Assign(d: seq<seq<real>>): (closest: seq<nat>)
    requires forall i :: 0 <= i < |d| ==> |d[i]| > 0
    ensures |closest| == |d|
    ensures forall i :: 0 <= i < |d| ==> IsFirstMin(d[i], closest[i])
  {
    seq(|d|, i requires 0 <= i < |d| => ArgMin(d[i]))
  }

  /** `np.sum(closest == j)`: the number of members of cluster `j`. */
  function Count(closest: seq<nat>, j: nat): nat
  {
    if |closest| == 0 then 0
    else Count(closest[..|closest| - 1], j) + (if closest[|closest| - 1] == j then 1 else 0)
  }

  /** `centroid_sums[j]`: the coordinate-wise sum of the members of cluster `j`. */
  function MemberSum(corpus: seq<Box>, closest: seq<nat>, j: nat): Box
    requires |corpus| == |closest|
  {
    if |corpus| == 0 then Box(0, 0)
    else
      var s := MemberSum(corpus[..|corpus| - 1], closest[..|closest| - 1], j);
      var b := corpus[|corpus| - 1];
      if closest[|closest| - 1] == j then Box(s.w + b.w, s.h + b.h) else s
  }

  /**
   * The centroids after the update: a centroid with members becomes the truncated
   * mean of its members (the sums are non-negative, so `/` truncates as the
   * float-to-int32 store does); a centroid without members is left as it is.
   */
  function Updated(corpus: seq<Box>, closest: seq<nat>, centroids: seq<Box>): (r: seq<Box>)
    requires |corpus| == |closest|
    ensures |r| == |centroids|
  {
    seq(|centroids|, j requires 0 <= j < |centroids| =>
      var n := Count(closest, j);
      if n == 0 then centroids[j]
      else var s := MemberSum(corpus, closest, j); Box(s.w / n, s.h / n))
  }

  /**
   * One assignment-and-update round on the current centroids. It changes centroid
   * values only: their number stays the same, and so does their positivity.
   */
  function Step(corpus: seq<Box>, centroids: seq<Box>): (r: seq<Box>)
    requires AllPositive(corpus) && AllPositive(centroids) && |centroids| > 0
    ensures |r| == |centroids| && AllPositive(r)
  {
    var closest := Assign(Distances(corpus, centroids));
    UpdatedPositive(corpus, closest, centroids);
    Updated(corpus, closest, centroids)
  }

  // ---------------------------------------------------------------------------
  // Properties of one update round

  lemma MulSucc(n: int, a: int)
    ensures (n + 1) * a == n * a + a
  {
  }

  lemma {:induction false} MemberSumBounds(corpus: seq<Box>, closest: seq<nat>, j: nat, lo: Box, hi: Box)
    requires |corpus| == |closest|
    requires forall i :: 0 <= i < |corpus| && closest[i] == j ==>
               lo.w <= corpus[i].w <= hi.w && lo.h <= corpus[i].h <= hi.h
    ensures var s, n := MemberSum(corpus, closest, j), Count(closest, j);
            n * lo.w <= s.w <= n * hi.w && n * lo.h <= s.h <= n * hi.h
  {
    if |corpus| > 0 {
      var m := |corpus| - 1;
      var pc, pk := corpus[..m], closest[..m];
      assert forall i :: 0 <= i < m ==> pc[i] == corpus[i] && pk[i] == closest[i];
      MemberSumBounds(pc, pk, j, lo, hi);
      var n0 := Count(pk, j);
      if closest[m] == j {
        MulSucc(n0, lo.w);
        MulSucc(n0, hi.w);
        MulSucc(n0, lo.h);
        MulSucc(n0, hi.h);
      }
    }
  }

  lemma {:induction false} CountBound(closest: seq<nat>, j: nat)
    ensures Count(closest, j) <= |closest|
    ensures Count(closest, j) > 0 ==> exists i :: 0 <= i < |closest| && closest[i] == j
  {
    if |closest| > 0 {
      var m := |closest| - 1;
      CountBound(closest[..m], j);
      if Count(closest[..m], j) > 0 {
        var i :| 0 <= i < m && closest[..m][i] == j;
        assert closest[i] == j;
      }
    }
  }

  lemma {:induction false} CountZero(closest: seq<nat>, j: nat)
    requires forall i :: 0 <= i < |closest| ==> closest[i] != j
    ensures Count(closest, j) == 0
  {
    if |closest| > 0 {
      CountZero(closest[..|closest| - 1], j);
    }
  }

  lemma DivSpec(s: int, n: int)
    requires n > 0
    ensures (s / n) * n <= s < (s / n + 1) * n
  {
    assert s == (s / n) * n + s % n;
    MulSucc(s / n, n);
  }

  lemma DivBetween(s: int, n: int, lo: int, hi: int)
    requires n > 0 && n * lo <= s <= n * hi
    ensures lo <= s / n <= hi
  {
    DivSpec(s, n);
  }

  /** The truncated mean of `n` values between `lo` and `hi` is their floor mean and lies between the bounds too. */
  lemma MeanBounds(s: int, n: int, lo: int, hi: int)
    requires n > 0 && n * lo <= s <= n * hi
    ensures (s / n) * n <= s < (s / n + 1) * n
    ensures lo <= s / n <= hi
  {
    DivSpec(s, n);
    DivBetween(s, n, lo, hi);
  }

  lemma MulDiv(n: int, a: int)
    requires n > 0
    ensures (n * a) / n == a
  {
    DivSpec(n * a, n);
  }

  /**
   * What the update does to centroid `j`: with no members it is unchanged; with
   * members it is the truncated mean of their sum, and it lies between any bounds
   * that hold for all of its members.
   */
  lemma UpdatedCentroid(corpus: seq<Box>, closest: seq<nat>, centroids: seq<Box>, j: nat, lo: Box, hi: Box)
    requires |corpus| == |closest| && j < |centroids|
    requires forall i :: 0 <= i < |corpus| && closest[i] == j ==>
               lo.w <= corpus[i].w <= hi.w && lo.h <= corpus[i].h <= hi.h
    ensures var r, n, s := Updated(corpus, closest, centroids)[j], Count(closest, j), MemberSum(corpus, closest, j);
            (n == 0 ==> r == centroids[j]) &&
            (n > 0 ==> r.w * n <= s.w < (r.w + 1) * n && r.h * n <= s.h < (r.h + 1) * n) &&
            (n > 0 ==> lo.w <= r.w <= hi.w && lo.h <= r.h <= hi.h)
  {
    var n := Count(closest, j);
    if n > 0 {
      var s := MemberSum(corpus, closest, j);
      MemberSumBounds(corpus, closest, j, lo, hi);
      MeanBounds(s.w, n, lo.w, hi.w);
      MeanBounds(s.h, n, lo.h, hi.h);
      assert Updated(corpus, closest, centroids)[j] == Box(s.w / n, s.h / n);
    }
  }

  /** A centroid that no box is assigned to keeps its value: the `sm != 0` test skips it. */
  lemma UnusedCentroidKept(corpus: seq<Box>, closest: seq<nat>, centroids: seq<Box>, j: nat)
    requires |corpus| == |closest| && j < |centroids|
    requires forall i :: 0 <= i < |closest| ==> closest[i] != j
    ensures Updated(corpus, closest, centroids)[j] == centroids[j]
  {
    CountZero(closest, j);
  }

  /** Only a centroid that at least one box is assigned to can move. */
  lemma MovedCentroidHasMember(corpus: seq<Box>, closest: seq<nat>, centroids: seq<Box>, j: nat)
    requires |corpus| == |closest| && j < |centroids|
    requires Updated(corpus, closest, centroids)[j] != centroids[j]
    ensures exists i :: 0 <= i < |closest| && closest[i] == j
  {
    CountBound(closest, j);
  }

  /** The update keeps every centroid positive when the corpus is positive. */
  lemma UpdatedPositive(corpus: seq<Box>, closest: seq<nat>, centroids: seq<Box>)
    requires |corpus| == |closest| && AllPositive(corpus) && AllPositive(centroids)
    ensures AllPositive(Updated(corpus, closest, centroids))
  {
    var r := Updated(corpus, closest, centroids);
    forall j | 0 <= j < |r|
      ensures Positive(r[j])
    {
      var hi := Box(MaxWidth(corpus), MaxHeight(corpus));
      MaxBounds(corpus);
      UpdatedCentroid(corpus, closest, centroids, j, Box(1, 1), hi);
    }
  }

  function MaxWidth(bs: seq<Box>): int {
    if |bs| == 0 then 0 else var m := MaxWidth(bs[1..]); if bs[0].w > m then bs[0].w else m
  }

  function MaxHeight(bs: seq<Box>): int {
    if |bs| == 0 then 0 else var m := MaxHeight(bs[1..]); if bs[0].h > m then bs[0].h else m
  }

  lemma {:induction false} MaxBounds(bs: seq<Box>)
    ensures forall i :: 0 <= i < |bs| ==> bs[i].w <= MaxWidth(bs) && bs[i].h <= MaxHeight(bs)
  {
    if |bs| > 0 {
      MaxBounds(bs[1..]);
      assert forall i :: 1 <= i < |bs| ==> bs[i] == bs[1..][i - 1];
    }
  }

  // ---------------------------------------------------------------------------
  // The whole loop as a function of its state

  /** How a run ends: the centroids returned, the value of `iteration` at the exit, and `difference` there. */
  datatype Outcome = Outcome(centroids: seq<Box>, rounds: nat, difference: real)

  /** The initial value of `difference` (`1e5`). */
  const InitialDifference: real := 100000.0

  function Max(a: int, b: int): int {
    if a >= b then a else b
  }

  /**
   * The rest of the run from loop state (`centroids`, `previous`, `difference`,
   * `iteration`): each round computes the distances, recomputes the difference only
   * once `previous` is non-empty, exits when `difference < eps` or
   * `iteration > iterations`, and otherwise updates the centroids.
   */
  function RunFrom(corpus: seq<Box>, centroids: seq<Box>, previous: seq<seq<real>>,
                   difference: real, iteration: nat, eps: real, iterations: int): (r: Outcome)
    requires |corpus| > 0 && AllPositive(corpus) && AllPositive(centroids) && |centroids| > 0
    requires |previous| == 0 || IsMatrix(previous, |corpus|, |centroids|)
    ensures |r.centroids| == |centroids| && AllPositive(r.centroids)
    ensures iteration + 1 <= r.rounds <= Max(iteration + 1, iterations + 1)
    ensures r.difference < eps || r.rounds > iterations
    ensures r.difference >= eps ==> r.rounds == Max(iteration + 1, iterations + 1)
    decreases iterations - iteration
  {
    var round := iteration + 1;
    var d := Distances(corpus, centroids);
    var diff := if |previous| > 0 then L1(d, previous) else difference;
    if diff < eps || round > iterations then
      Outcome(centroids, round, diff)
    else
      RunFrom(corpus, Step(corpus, centroids), d, diff, round, eps, iterations)
  }

  /** `_cluster(bounding_boxes, centroids, eps, iterations)` from its initial state. */
  function Run(corpus: seq<Box>, centroids: seq<Box>, eps: real, iterations: int): Outcome
    requires |corpus| > 0 && AllPositive(corpus) && AllPositive(centroids) && |centroids| > 0
  {
    RunFrom(corpus, centroids, [], InitialDifference, 0, eps, iterations)
  }

  /**
   * The loop always stops: it performs at most `iterations` updates (none when
   * `iterations < 1`), it stops early only on `difference < eps`, and a run that
   * does not converge performs exactly `iterations` updates.
   */
  lemma {:induction false} RunBounds(corpus: seq<Box>, centroids: seq<Box>, eps: real, iterations: int)
    requires |corpus| > 0 && AllPositive(corpus) && AllPositive(centroids) && |centroids| > 0
    ensures var r := Run(corpus, centroids, eps, iterations);
            |r.centroids| == |centroids| && AllPositive(r.centroids) &&
            1 <= r.rounds <= Max(1, iterations + 1) &&
            (r.difference < eps || r.rounds > iterations) &&
            (r.difference >= eps ==> r.rounds - 1 == Max(0, iterations))
  {
  }

  /** The first round cannot end on convergence: with `eps <= 1e5` and a budget of at least one, one update always happens. */
  lemma FirstRoundUpdates(corpus: seq<Box>, centroids: seq<Box>, eps: real, iterations: int)
    requires |corpus| > 0 && AllPositive(corpus) && AllPositive(centroids) && |centroids| > 0
    requires eps <= InitialDifference && iterations >= 1
    ensures Run(corpus, centroids, eps, iterations).rounds >= 2
  {
  }

  /** With `eps` above the initial difference, round 1 already counts as converged and returns the centroids unchanged. */
  lemma LargeEpsExitsAtOnce(corpus: seq<Box>, centroids: seq<Box>, eps: real, iterations: int)
    requires |corpus| > 0 && AllPositive(corpus) && AllPositive(centroids) && |centroids| > 0
    requires eps > InitialDifference
    ensures var r := Run(corpus, centroids, eps, iterations);
            r.rounds == 1 && r.centroids == centroids && r.difference == InitialDifference
  {
  }

  /**
   * Centroids that one round leaves unchanged are returned after exactly one
   * update: the second round sees a difference of zero.
   */
  lemma FixedPointConverges(corpus: seq<Box>, centroids: seq<Box>, eps: real, iterations: int)
    requires |corpus| > 0 && AllPositive(corpus) && AllPositive(centroids) && |centroids| > 0
    requires Step(corpus, centroids) == centroids
    requires 0.0 < eps <= InitialDifference && iterations >= 1
    ensures Run(corpus, centroids, eps, iterations) == Outcome(centroids, 2, 0.0)
  {
    var d := Distances(corpus, centroids);
    L1Self(d);
    assert RunFrom(corpus, centroids, [], InitialDifference, 0, eps, iterations)
        == RunFrom(corpus, centroids, d, InitialDifference, 1, eps, iterations);
  }

  lemma {:induction false} UniformMemberSum(corpus: seq<Box>, closest: seq<nat>, j: nat, b: Box)
    requires |corpus| == |closest|
    requires forall i :: 0 <= i < |corpus| ==> corpus[i] == b
    ensures MemberSum(corpus, closest, j) == Box(Count(closest, j) * b.w, Count(closest, j) * b.h)
  {
    if |corpus| > 0 {
      var m := |corpus| - 1;
      UniformMemberSum(corpus[..m], closest[..m], j, b);
      MulSucc(Count(closest[..m], j), b.w);
      MulSucc(Count(closest[..m], j), b.h);
    }
  }

  /**
   * A corpus of identical boxes whose centroids are all drawn from it is a fixed
   * point: each centroid with members is their mean, the others stay put.
   */
  lemma UniformCorpusIsFixed(corpus: seq<Box>, centroids: seq<Box>, b: Box)
    requires |corpus| > 0 && |centroids| > 0 && Positive(b)
    requires forall i :: 0 <= i < |corpus| ==> corpus[i] == b
    requires forall j :: 0 <= j < |centroids| ==> centroids[j] == b
    ensures Step(corpus, centroids) == centroids
  {
    var closest := Assign(Distances(corpus, centroids));
    var r := Step(corpus, centroids);
    forall j | 0 <= j < |centroids|
      ensures r[j] == centroids[j]
    {
      var n := Count(closest, j);
      UniformMemberSum(corpus, closest, j, b);
      if n > 0 {
        MulDiv(n, b.w);
        MulDiv(n, b.h);
      }
    }
  }

  /** Clustering identical boxes returns the drawn centroids after a single update. */
  lemma UniformCorpusConverges(corpus: seq<Box>, centroids: seq<Box>, b: Box, eps: real, iterations: int)
    requires |corpus| > 0 && |centroids| > 0 && Positive(b)
    requires forall i :: 0 <= i < |corpus| ==> corpus[i] == b
    requires forall j :: 0 <= j < |centroids| ==> centroids[j] == b
    requires 0.0 < eps <= InitialDifference && iterations >= 1
    ensures Run(corpus, centroids, eps, iterations) == Outcome(centroids, 2, 0.0)
  {
    UniformCorpusIsFixed(corpus, centroids, b);
    FixedPointConverges(corpus, centroids, eps, iterations);
  }

  // ---------------------------------------------------------------------------
  // The imperative engine

  /** The distance matrix, built row by row by appending `1 - _iou(box, centroids)`. */
  method ComputeDistances(corpus: seq<Box>, centroids: seq<Box>) returns (d: seq<seq<real>>)
    requires AllPositive(corpus) && AllPositive(centroids)
    ensures d == Distances(corpus, centroids)
    ensures IsMatrix(d, |corpus|, |centroids|)
  {
    d := [];
    for i := 0 to |corpus|
      invariant |d| == i
      invariant forall k :: 0 <= k < i ==> d[k] == DistanceRow(corpus[k], centroids)
    {
      var scores := Ious(corpus[i], centroids);
      var row := seq(|scores|, j requires 0 <= j < |scores| => 1.0 - scores[j]);
      assert row == DistanceRow(corpus[i], centroids);
      d := d + [row];
    }
  }

  /** `centroid_sums`: a zeroed K x 2 accumulator to which every box is added in place. */
  method CentroidSums(corpus: seq<Box>, closest: seq<nat>, k: nat) returns (sums: seq<Box>)
    requires |corpus| == |closest|
    requires forall i :: 0 <= i < |closest| ==> closest[i] < k
    ensures |sums| == k
    ensures forall j :: 0 <= j < k ==> sums[j] == MemberSum(corpus, closest, j)
  {
    var acc := new Box[k](_ => Box(0, 0));
    for i := 0 to |corpus|
      invariant forall j :: 0 <= j < k ==> acc[j] == MemberSum(corpus[..i], closest[..i], j)
    {
      assert corpus[..i + 1][..i] == corpus[..i];
      assert closest[..i + 1][..i] == closest[..i];
      var c := closest[i];
      acc[c] := Box(acc[c].w + corpus[i].w, acc[c].h + corpus[i].h);
    }
    assert corpus[..|corpus|] == corpus;
    assert closest[..|closest|] == closest;
    sums := acc[..];
  }

  /** Overwrite, in place, every centroid that has members with the truncated mean of its members. */
  method MoveCentroids(corpus: seq<Box>, closest: seq<nat>, sums: seq<Box>, centroids: array<Box>)
    requires |corpus| == |closest| && |sums| == centroids.Length
    requires forall j :: 0 <= j < |sums| ==> sums[j] == MemberSum(corpus, closest, j)
    modifies centroids
    ensures centroids[..] == Updated(corpus, closest, old(centroids[..]))
  {
    ghost var before := centroids[..];
    for j := 0 to centroids.Length
      invariant forall m :: 0 <= m < j ==> centroids[m] == Updated(corpus, closest, before)[m]
      invariant forall m :: j <= m < centroids.Length ==> centroids[m] == before[m]
    {
      var sm := Count(closest, j);
      if sm != 0 {
        centroids[j] := Box(sums[j].w / sm, sums[j].h / sm);
      }
    }
  }

  /** One round of the loop that does not exit: it updates the centroids and remembers the distances. */
  lemma RunFromContinues(corpus: seq<Box>, centroids: seq<Box>, previous: seq<seq<real>>,
                         difference: real, iteration: nat, eps: real, iterations: int)
    requires |corpus| > 0 && AllPositive(corpus) && AllPositive(centroids) && |centroids| > 0
    requires |previous| == 0 || IsMatrix(previous, |corpus|, |centroids|)
    requires var d := Distances(corpus, centroids);
             var diff := if |previous| > 0 then L1(d, previous) else difference;
             !(diff < eps || iteration + 1 > iterations)
    ensures var d := Distances(corpus, centroids);
            var diff := if |previous| > 0 then L1(d, previous) else difference;
            RunFrom(corpus, centroids, previous, difference, iteration, eps, iterations)
            == RunFrom(corpus, Step(corpus, centroids), d, diff, iteration + 1, eps, iterations)
  {
  }

  /** The round in which the loop exits returns the centroids as they are. */
  lemma RunFromExits(corpus: seq<Box>, centroids: seq<Box>, previous: seq<seq<real>>,
                     difference: real, iteration: nat, eps: real, iterations: int)
    requires |corpus| > 0 && AllPositive(corpus) && AllPositive(centroids) && |centroids| > 0
    requires |previous| == 0 || IsMatrix(previous, |corpus|, |centroids|)
    requires var d := Distances(corpus, centroids);
             var diff := if |previous| > 0 then L1(d, previous) else difference;
             diff < eps || iteration + 1 > iterations
    ensures RunFrom(corpus, centroids, previous, difference, iteration, eps, iterations).centroids == centroids
  {
  }

  /**
   * The state of the `_cluster` loop before round `iteration + 1`: positive
   * centroids, a distance matrix of the right shape from the previous round (or none
   * yet), and the outcome of the whole run equal to the rest of the run from here.
   */
  ghost predicate LoopState(corpus: seq<Box>, centroids: seq<Box>, previous: seq<seq<real>>, difference: real,
                            iteration: nat, eps: real, iterations: int, outcome: Outcome)
  {
    && |corpus| > 0 && AllPositive(corpus) && |centroids| > 0 && AllPositive(centroids)
    && (|previous| == 0 || IsMatrix(previous, |corpus|, |centroids|))
    && outcome == RunFrom(corpus, centroids, previous, difference, iteration, eps, iterations)
  }

  /**
   * The body of the `_cluster` loop for round `iteration + 1`: compute the distance
   * matrix, recompute `difference` once `previous` is non-empty, and either report
   * the exit, with the centroids being those of the run, or assign boxes and move
   * the centroids in place, which continues the same run.
   */
  method Round(corpus: seq<Box>, centroids: array<Box>, previous: seq<seq<real>>,
               difference: real, iteration: nat, eps: real, iterations: int, ghost outcome: Outcome)
    returns (exit: bool, distances: seq<seq<real>>, difference': real)
    requires LoopState(corpus, centroids[..], previous, difference, iteration, eps, iterations, outcome)
    modifies centroids
    ensures exit <==> difference' < eps || iteration + 1 > iterations
    ensures exit ==> centroids[..] == old(centroids[..]) == outcome.centroids
    ensures !exit ==> LoopState(corpus, centroids[..], distances, difference', iteration + 1, eps, iterations, outcome)
  {
    ghost var current := centroids[..];
    distances := ComputeDistances(corpus, centroids[..]);
    difference' := difference;
    if |previous| > 0 {
      difference' := L1(distances, previous);
    }
    exit := difference' < eps || iteration + 1 > iterations;
    if exit {
      RunFromExits(corpus, current, previous, difference, iteration, eps, iterations);
      return;
    }
    var closest := Assign(distances);
    var sums := CentroidSums(corpus, closest, centroids.Length);
    MoveCentroids(corpus, closest, sums, centroids);
    assert centroids[..] == Step(corpus, current);
    RunFromContinues(corpus, current, previous, difference, iteration, eps, iterations);
  }

  /**
   * `_cluster`: refines `centroids` in place until the distance matrix changes by
   * less than `eps` or the round counter passes `iterations`; the array ends holding
   * exactly the centroids of `Run`.
   */
  method Cluster(corpus: seq<Box>, centroids: array<Box>, eps: real, iterations: int)
    requires |corpus| > 0 && AllPositive(corpus)
    requires centroids.Length > 0 && AllPositive(centroids[..])
    modifies centroids
    ensures centroids[..] == Run(corpus, old(centroids[..]), eps, iterations).centroids
  {
    ghost var outcome := Run(corpus, centroids[..], eps, iterations);
    var previous: seq<seq<real>> := [];
    var iteration: nat := 0;
    var difference := InitialDifference;
    while true
      invariant LoopState(corpus, centroids[..], previous, difference, iteration, eps, iterations, outcome)
      invariant iteration == 0 || iteration <= iterations
      decreases iterations - iteration + 1
    {
      var exit, distances, next := Round(corpus, centroids, previous, difference, iteration, eps, iterations, outcome);
      if exit {
        return;
      }
      previous, difference, iteration := distances, next, iteration + 1;
    }
  }
}
