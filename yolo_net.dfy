/**
 * The detection post-processing of yolo_net.py: turning one raw network box into a
 * labelled pixel rectangle (`YoloNet._process_box`) and the filtering loop of
 * `YoloNet.detect`. The network run that produces the raw boxes is not modelled:
 * the boxes are an input.
 */
module Yolo {
  import opened Wrappers

  /** A raw box from `findboxes`: centre and size relative to the image, and class probabilities. */
  datatype RawBox = RawBox(x: real, y: real, w: real, h: real, probs: seq<real>)

  /** The tuple `(left, right, top, bot, class_name, max_indx, max_prob)`. */
  datatype Detection = Detection(left: int, right: int, top: int, bot: int,
                                 className: string, classIndex: nat, confidence: real)

  /** The class part `[class_indx, class_name, confidence]` of a kept box. */
  datatype ClassInfo = ClassInfo(index: nat, name: string, confidence: real)

  /** The rectangle part `[left, right, top, bot]` of a kept box. */
  datatype Rect = Rect(left: int, right: int, top: int, bot: int)

  /** One entry `[[class_indx, class_name, confidence], [left, right, top, bot]]` of `clean_boxes`. */
  datatype CleanBox = CleanBox(info: ClassInfo, rect: Rect)

  /** `k` is the lowest index at which `probs` takes its maximum. */
  predicate IsFirstMax(probs: seq<real>, k: nat) {
    && k < |probs|
    && (forall j :: 0 <= j < |probs| ==> probs[j] <= probs[k])
    && (forall j :: 0 <= j < k ==> probs[j] < probs[k])
  }

  /** `np.argmax`: the first index of the largest probability. */
  function ArgMax(probs: seq<real>): (k: nat)
    requires |probs| > 0
    ensures IsFirstMax(probs, k)
  {
    if |probs| == 1 then 0
    else
      var k := ArgMax(probs[..|probs| - 1]);
      if probs[|probs| - 1] > probs[k] then |probs| - 1 else k
  }

  /** Python's `int(r)` on a float: truncation toward zero. */
  function Trunc(r: real): (n: int)
    ensures r >= 0.0 ==> 0 <= n && n as real <= r < n as real + 1.0
    ensures r < 0.0 ==> n <= 0 && n as real - 1.0 < r <= n as real
  {
    if r >= 0.0 then r.Floor else -((-r).Floor)
  }

  /** The pixel corners of a box before clamping: `int((x -/+ w/2) * w)` and `int((y -/+ h/2) * h)`. */
  function PixelRect(b: RawBox, h: int, w: int): Rect {
    Rect(Trunc((b.x - b.w / 2.0) * w as real), Trunc((b.x + b.w / 2.0) * w as real),
         Trunc((b.y - b.h / 2.0) * h as real), Trunc((b.y + b.h / 2.0) * h as real))
  }

  function Reshape(d: Detection): CleanBox {
    CleanBox(ClassInfo(d.classIndex, d.className, d.confidence), Rect(d.left, d.right, d.top, d.bot))
  }

  class YoloNet {
    /** `meta['labels']`: the class names, indexed like the probabilities. */
    const labels: seq<string>
    /** `meta['thresh']`: the confidence a box must exceed to be kept. */
    const threshold: real

    /** The metadata part of `__init__`; the network itself is not modelled. */
    constructor (labels: seq<string>, threshold: real)
      ensures this.labels == labels && this.threshold == threshold
    {
      this.labels := labels;
      this.threshold := threshold;
    }

    /** `self.labels[max_indx]` exists: the lookup happens before the threshold test. */
    predicate Labelled(b: RawBox) {
      |b.probs| > 0 && ArgMax(b.probs) < |labels|
    }

    /**
     * `_process_box`: the most probable class, and whether its probability exceeds
     * `threshold`; for a kept box the pixel corners, truncated toward zero and then
     * clamped to the image only on the side where they can leave it.
     */
    function ProcessBox(b: RawBox, h: int, w: int, threshold: real): (r: Option<Detection>)
      requires Labelled(b)
      ensures r.None? <==> b.probs[ArgMax(b.probs)] <= threshold
      ensures r.Some? ==>
                && IsFirstMax(b.probs, r.value.classIndex)
                && r.value.classIndex < |labels|
                && r.value.className == labels[r.value.classIndex]
                && r.value.confidence == b.probs[r.value.classIndex]
                && r.value.confidence > threshold
      ensures r.Some? ==>
                && r.value.left >= 0 && r.value.top >= 0
                && r.value.right <= w - 1 && r.value.bot <= h - 1
    {
      var index := ArgMax(b.probs);
      var prob := b.probs[index];
      var name := labels[index];
      if prob > threshold then
        var p := PixelRect(b, h, w);
        Some(Detection(if p.left < 0 then 0 else p.left,
                       if p.right > w - 1 then w - 1 else p.right,
                       if p.top < 0 then 0 else p.top,
                       if p.bot > h - 1 then h - 1 else p.bot,
                       name, index, prob))
      else
        None
    }

    /**
     * The corners of a kept box are the truncated pixel coordinates, replaced by the
     * image edge only where they cross it: left and top are never raised above their
     * unclamped value, right and bottom never lowered below it, and a corner inside
     * the image is kept as computed.
     */
    lemma ProcessBoxCorners(b: RawBox, h: int, w: int, threshold: real)
      requires Labelled(b)
      ensures var r, p := ProcessBox(b, h, w, threshold), PixelRect(b, h, w);
              r.Some? ==>
                && (p.left >= 0 ==> r.value.left == p.left) && (p.left < 0 ==> r.value.left == 0)
                && (p.right <= w - 1 ==> r.value.right == p.right) && (p.right > w - 1 ==> r.value.right == w - 1)
                && (p.top >= 0 ==> r.value.top == p.top) && (p.top < 0 ==> r.value.top == 0)
                && (p.bot <= h - 1 ==> r.value.bot == p.bot) && (p.bot > h - 1 ==> r.value.bot == h - 1)
    {
    }

    /** `clean_boxes` for a list of raw boxes: the kept ones, reshaped, in input order. */
    function Kept(boxes: seq<RawBox>, h: int, w: int): seq<CleanBox>
      requires forall i :: 0 <= i < |boxes| ==> Labelled(boxes[i])
    {
      if |boxes| == 0 then []
      else
        var rest := Kept(boxes[..|boxes| - 1], h, w);
        match ProcessBox(boxes[|boxes| - 1], h, w, threshold)
        case None => rest
        case Some(d) => rest + [Reshape(d)]
    }

    /** The filtering loop of `detect`: boxes `_process_box` rejects are skipped, the others appended. */
    method Detect(boxes: seq<RawBox>, h: int, w: int) returns (clean: seq<CleanBox>)
      requires forall i :: 0 <= i < |boxes| ==> Labelled(boxes[i])
      ensures clean == Kept(boxes, h, w)
    {
      clean := [];
      for i := 0 to |boxes|
        invariant clean == Kept(boxes[..i], h, w)
      {
        assert boxes[..i + 1][..i] == boxes[..i];
        var tmpBox := ProcessBox(boxes[i], h, w, threshold);
        if tmpBox.None? {
          continue;
        }
        var d := tmpBox.value;
        clean := clean + [CleanBox(ClassInfo(d.classIndex, d.className, d.confidence),
                                   Rect(d.left, d.right, d.top, d.bot))];
      }
      assert boxes[..|boxes|] == boxes;
    }

    /** Filtering respects input order: the kept boxes of a concatenation are the concatenation of the kept boxes. */
    lemma {:induction false} KeptConcat(a: seq<RawBox>, b: seq<RawBox>, h: int, w: int)
      requires forall i :: 0 <= i < |a| ==> Labelled(a[i])
      requires forall i :: 0 <= i < |b| ==> Labelled(b[i])
      ensures forall i :: 0 <= i < |a + b| ==> Labelled((a + b)[i])
      ensures Kept(a + b, h, w) == Kept(a, h, w) + Kept(b, h, w)
      decreases |b|
    {
      assert forall i :: 0 <= i < |a + b| ==> (a + b)[i] == if i < |a| then a[i] else b[i - |a|];
      if |b| == 0 {
        assert a + b == a;
      } else {
        var m := |b| - 1;
        assert (a + b)[..|a + b| - 1] == a + b[..m];
        KeptConcat(a, b[..m], h, w);
      }
    }

    /** A box is kept exactly when `_process_box` accepts it; what is kept is its reshaped result. */
    lemma {:induction false} KeptMembers(boxes: seq<RawBox>, h: int, w: int)
      requires forall i :: 0 <= i < |boxes| ==> Labelled(boxes[i])
      ensures |Kept(boxes, h, w)| <= |boxes|
      ensures forall c :: c in Kept(boxes, h, w) <==>
                exists i :: 0 <= i < |boxes| && ProcessBox(boxes[i], h, w, threshold).Some? &&
                  c == Reshape(ProcessBox(boxes[i], h, w, threshold).value)
    {
      if |boxes| > 0 {
        var m := |boxes| - 1;
        var prefix := boxes[..m];
        KeptMembers(prefix, h, w);
        assert forall i :: 0 <= i < m ==> prefix[i] == boxes[i];
      }
    }

    /** A box inside the image (coordinates within [0, 1]) gets corners that need no clamping on the left and top. */
    lemma UnclampedExample()
      requires labels == ["apple"] && threshold == 0.5
      ensures ProcessBox(RawBox(0.5, 0.5, 0.2, 0.4, [0.9]), 100, 200, threshold)
              == Some(Detection(80, 120, 30, 70, "apple", 0, 0.9))
      ensures ProcessBox(RawBox(2.0, 0.5, 0.5, 0.4, [0.9]), 100, 10, threshold)
              == Some(Detection(17, 9, 30, 70, "apple", 0, 0.9))
      ensures ProcessBox(RawBox(0.5, 0.5, 0.2, 0.4, [0.5]), 100, 200, threshold).None?
    {
      assert ArgMax([0.9]) == 0;
      assert ArgMax([0.5]) == 0;
      assert Trunc((0.5 - 0.2 / 2.0) * 200 as real) == 80;
      assert Trunc((0.5 + 0.2 / 2.0) * 200 as real) == 120;
      assert Trunc((0.5 - 0.4 / 2.0) * 100 as real) == 30;
      assert Trunc((0.5 + 0.4 / 2.0) * 100 as real) == 70;
      assert Trunc((2.0 - 0.5 / 2.0) * 10 as real) == 17;
      assert Trunc((2.0 + 0.5 / 2.0) * 10 as real) == 22;
    }
  }
}
