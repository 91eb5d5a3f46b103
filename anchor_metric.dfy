/**
 * The box-overlap metric of the anchor clustering engine (anchors.py, `_iou`).
 * A box is a (width, height) pair; the score of a box against a centroid is the
 * intersection over union of two rectangles that share their top-left corner.
 */
module AnchorMetric {

  /** A corpus row or a centroid: the `int32` pair (w, h). */
  datatype Box = Box(w: int, h: int)

  predicate Positive(b: Box) {
    b.w > 0 && b.h > 0
  }

  predicate AllPositive(bs: seq<Box>) {
    forall i :: 0 <= i < |bs| ==> Positive(bs[i])
  }

  function Min(a: int, b: int): int {
    if a <= b then a else b
  }

  /** Overlap of box `x` with centroid `c`, by the source's four-way case split. */
  function Iou(x: Box, c: Box): real
    requires Positive(x) && Positive(c)
  {
    var w, h, cw, ch := x.w, x.h, c.w, c.h;
    ProductPositive(w, h);
    ProductPositive(cw, ch);
    if cw >= w && ch >= h then
      // the centroid is larger in both dimensions
      (w * h) as real / (cw * ch) as real
    else if cw >= w && ch <= h then
      // the centroid is larger in width only
      assert ch * (cw - w) >= 0 by { ProductNonNegative(ch, cw - w); }
      (w * ch) as real / (w * h + ch * (cw - w)) as real
    else if cw <= w && ch >= h then
      // the centroid is larger in height only
      assert cw * (ch - h) >= 0 by { ProductNonNegative(cw, ch - h); }
      (cw * h) as real / (w * h + cw * (ch - h)) as real
    else
      // the box is larger in both dimensions
      (cw * ch) as real / (w * h) as real
  }

  /** Intersection area of the two corner-anchored rectangles. */
  function Intersection(x: Box, c: Box): int {
    Min(x.w, c.w) * Min(x.h, c.h)
  }

  /** Union area of the two corner-anchored rectangles. */
  function Union(x: Box, c: Box): int {
    x.w * x.h + c.w * c.h - Intersection(x, c)
  }

  lemma ProductPositive(a: int, b: int)
    requires a > 0 && b > 0
    ensures a * b > 0
  {
  }

  lemma ProductNonNegative(a: int, b: int)
    requires a >= 0 && b >= 0
    ensures a * b >= 0
  {
  }

  lemma ProductMonotone(a: int, b: int, c: int, d: int)
    requires 0 < a <= b && 0 < c <= d
    ensures a * c <= b * d
    ensures a * c == b * d ==> a == b && c == d
  {
    assert a * c <= b * c;
    assert b * c <= b * d;
    if a < b {
      assert a * c < b * c;
    }
    if c < d {
      assert b * c < b * d;
    }
  }

  /** The intersection is positive and no larger than the union. */
  lemma IntersectionBounds(x: Box, c: Box)
    requires Positive(x) && Positive(c)
    ensures 0 < Intersection(x, c) <= Union(x, c)
  {
    ProductMonotone(Min(x.w, c.w), x.w, Min(x.h, c.h), x.h);
    ProductMonotone(Min(x.w, c.w), c.w, Min(x.h, c.h), c.h);
    ProductPositive(Min(x.w, c.w), Min(x.h, c.h));
  }

  /** The centroid is wider and no taller: the branch's denominator is the union. */
  lemma WiderBranch(w: int, h: int, cw: int, ch: int)
    requires 0 < w <= cw && 0 < ch <= h
    ensures w * h + cw * ch - Min(w, cw) * Min(h, ch) == w * h + ch * (cw - w)
  {
    assert ch * (cw - w) == ch * cw - ch * w;
  }

  /** Every branch of the case split is the same closed form: intersection over union. */
  lemma IouClosedForm(x: Box, c: Box)
    requires Positive(x) && Positive(c)
    ensures 0 < Intersection(x, c) <= Union(x, c)
    ensures Iou(x, c) == Intersection(x, c) as real / Union(x, c) as real
  {
    IntersectionBounds(x, c);
    var w, h, cw, ch := x.w, x.h, c.w, c.h;
    if cw >= w && ch >= h {
      assert Intersection(x, c) == w * h && Union(x, c) == cw * ch;
    } else if cw >= w && ch <= h {
      WiderBranch(w, h, cw, ch);
      assert Intersection(x, c) == w * ch && Union(x, c) == w * h + ch * (cw - w);
    } else if cw <= w && ch >= h {
      WiderBranch(h, w, ch, cw);
      assert Intersection(x, c) == cw * h && Union(x, c) == w * h + cw * (ch - h);
    } else {
      assert Intersection(x, c) == cw * ch && Union(x, c) == w * h;
    }
  }

  lemma RatioInUnit(i: real, u: real)
    requires 0.0 < i <= u
    ensures 0.0 < i / u <= 1.0
    ensures i / u == 1.0 ==> i == u
  {
    assert i / u * u == i;
  }

  /** The score is a ratio in (0, 1]. */
  lemma IouRange(x: Box, c: Box)
    requires Positive(x) && Positive(c)
    ensures 0.0 < Iou(x, c) <= 1.0
  {
    IouClosedForm(x, c);
    RatioInUnit(Intersection(x, c) as real, Union(x, c) as real);
  }

  /** Swapping box and centroid selects the mirrored branch and gives the same score. */
  lemma IouSymmetric(x: Box, c: Box)
    requires Positive(x) && Positive(c)
    ensures Iou(x, c) == Iou(c, x)
  {
    IouClosedForm(x, c);
    IouClosedForm(c, x);
    assert Intersection(x, c) == Intersection(c, x);
    assert Union(x, c) == Union(c, x);
  }

  /** Intersection equals union only for identical shapes. */
  lemma FullOverlap(x: Box, c: Box)
    requires Positive(x) && Positive(c)
    requires Intersection(x, c) == Union(x, c)
    ensures x == c
  {
    ProductMonotone(Min(x.w, c.w), x.w, Min(x.h, c.h), x.h);
    ProductMonotone(Min(x.w, c.w), c.w, Min(x.h, c.h), c.h);
    assert Intersection(x, c) == x.w * x.h && Intersection(x, c) == c.w * c.h;
  }

  /** The score is exactly 1 when, and only when, the centroid is the box itself. */
  lemma IouOneIffEqual(x: Box, c: Box)
    requires Positive(x) && Positive(c)
    ensures Iou(x, c) == 1.0 <==> x == c
  {
    IouClosedForm(x, c);
    var i, u := Intersection(x, c), Union(x, c);
    RatioInUnit(i as real, u as real);
    if x == c {
      assert i == u;
    } else if i == u {
      FullOverlap(x, c);
    }
  }

  /**
   * `_iou`: the overlap of `x` with every centroid, one score per centroid and in
   * the order of the centroids, accumulated by appending as the source does.
   */
  method Ious(x: Box, centroids: seq<Box>) returns (scores: seq<real>)
    requires Positive(x) && AllPositive(centroids)
    ensures |scores| == |centroids|
    ensures forall j :: 0 <= j < |centroids| ==> scores[j] == Iou(x, centroids[j])
    ensures forall j :: 0 <= j < |centroids| ==> 0.0 < scores[j] <= 1.0
  {
    scores := [];
    for j := 0 to |centroids|
      invariant |scores| == j
      invariant forall k :: 0 <= k < j ==> scores[k] == Iou(x, centroids[k])
      invariant forall k :: 0 <= k < j ==> 0.0 < scores[k] <= 1.0
    {
      var score := Iou(x, centroids[j]);
      IouRange(x, centroids[j]);
      scores := scores + [score];
    }
  }
}
