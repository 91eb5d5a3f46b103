/**
 * The anchor pipeline of anchors.py around the clustering engine: building the box
 * corpus from parsed annotations (`calculate`), drawing the initial centroids from a
 * list of corpus indices (`_cluster_bounding_boxes`), scaling anchors to a feature
 * map (`normalize`), and the orchestration in `calculate`.
 */
module AnchorPipeline {
  import opened Wrappers
  import opened AnchorMetric
  import opened AnchorCluster
  import opened AnchorFile

  /** One bounding box as the annotation parser gives it: `[xmin, ymin, xmax, ymax]`. */
  datatype Corners = Corners(xmin: int, ymin: int, xmax: int, ymax: int)

  /**
   * The parse result of one annotation file: the list `[image_filename, boxes]`, or
   * a list with fewer than two elements (`Short`), which `calculate` skips.
   */
  datatype Annotation = Annotation(image: string, boxes: seq<Corners>) | Short

  function AbsInt(a: int): nat {
    if a < 0 then -a else a
  }

  /** `[abs(xx - xn), abs(yx - yn)]`. */
  function Shape(c: Corners): Box {
    Box(AbsInt(c.xmax - c.xmin), AbsInt(c.ymax - c.ymin))
  }

  function FileBoxes(a: Annotation): seq<Box> {
    match a
    case Short => []
    case Annotation(_, bs) => seq(|bs|, m requires 0 <= m < |bs| => Shape(bs[m]))
  }

  /** The corpus: the shapes of all boxes of all annotation files, file by file, in order. */
  function Corpus(annotations: seq<Annotation>): seq<Box> {
    if |annotations| == 0 then []
    else Corpus(annotations[..|annotations| - 1]) + FileBoxes(annotations[|annotations| - 1])
  }

  /** The corpus loop of `calculate`: one appended row per box, files with a short parse result skipped. */
  method BuildCorpus(annotations: seq<Annotation>) returns (boxes: seq<Box>)
    ensures boxes == Corpus(annotations)
  {
    boxes := [];
    for f := 0 to |annotations|
      invariant boxes == Corpus(annotations[..f])
    {
      assert annotations[..f + 1][..f] == annotations[..f];
      var info := annotations[f];
      if info.Short? {
        continue;
      }
      ghost var before := boxes;
      for k := 0 to |info.boxes|
        invariant boxes == before + FileBoxes(info)[..k]
      {
        var bb := info.boxes[k];
        assert FileBoxes(info)[..k + 1] == FileBoxes(info)[..k] + [Shape(bb)];
        boxes := boxes + [Box(AbsInt(bb.xmax - bb.xmin), AbsInt(bb.ymax - bb.ymin))];
      }
      assert FileBoxes(info)[..|info.boxes|] == FileBoxes(info);
    }
    assert annotations[..|annotations|] == annotations;
  }

  /** Files contribute their boxes in file order: the corpus of two file lists is the concatenation. */
  lemma {:induction false} CorpusConcat(a: seq<Annotation>, b: seq<Annotation>)
    ensures Corpus(a + b) == Corpus(a) + Corpus(b)
    decreases |b|
  {
    if |b| > 0 {
      var m := |b| - 1;
      assert (a + b)[..|a + b| - 1] == a + b[..m];
      CorpusConcat(a, b[..m]);
    } else {
      assert a + b == a;
    }
  }

  /** `b` is the shape of box `m` of complete annotation file `f`. */
  predicate ShapeOf(annotations: seq<Annotation>, f: int, m: int, b: Box) {
    0 <= f < |annotations| && annotations[f].Annotation? &&
    0 <= m < |annotations[f].boxes| && b == Shape(annotations[f].boxes[m])
  }

  /** `b` is the shape of some box of some complete annotation file. */
  ghost predicate FromSomeFile(annotations: seq<Annotation>, b: Box) {
    exists f, m :: ShapeOf(annotations, f, m, b)
  }

  /**
   * Every corpus entry is the absolute-difference shape of some box of some complete
   * annotation file, hence non-negative; and every such box appears in the corpus.
   */
  lemma {:induction false} CorpusEntries(annotations: seq<Annotation>)
    ensures forall i :: 0 <= i < |Corpus(annotations)| ==>
              Corpus(annotations)[i].w >= 0 && Corpus(annotations)[i].h >= 0
    ensures forall i :: 0 <= i < |Corpus(annotations)| ==> FromSomeFile(annotations, Corpus(annotations)[i])
    ensures forall f, m :: 0 <= f < |annotations| && annotations[f].Annotation? && 0 <= m < |annotations[f].boxes| ==>
              Shape(annotations[f].boxes[m]) in Corpus(annotations)
  {
    if |annotations| > 0 {
      var n := |annotations| - 1;
      var prefix := annotations[..n];
      CorpusEntries(prefix);
      var c := Corpus(annotations);
      var p := Corpus(prefix);
      var last := annotations[n];
      assert c == p + FileBoxes(last);
      forall i | 0 <= i < |c|
        ensures FromSomeFile(annotations, c[i])
      {
        if i < |p| {
          assert c[i] == p[i];
          assert FromSomeFile(prefix, p[i]);
          var f, m :| ShapeOf(prefix, f, m, p[i]);
          assert annotations[f] == prefix[f];
          assert ShapeOf(annotations, f, m, c[i]);
        } else {
          assert c[i] == FileBoxes(last)[i - |p|];
          assert ShapeOf(annotations, n, i - |p|, c[i]);
        }
      }
      assert forall i :: 0 <= i < |c| ==> c[i].w >= 0 && c[i].h >= 0 by {
        assert forall i :: 0 <= i < |FileBoxes(last)| ==> FileBoxes(last)[i].w >= 0 && FileBoxes(last)[i].h >= 0;
      }
      forall f, m | 0 <= f < |annotations| && annotations[f].Annotation? && 0 <= m < |annotations[f].boxes|
        ensures Shape(annotations[f].boxes[m]) in c
      {
        if f < n {
          assert annotations[f] == prefix[f];
        } else {
          assert FileBoxes(last)[m] == Shape(annotations[f].boxes[m]);
        }
      }
    } else {
      assert Corpus(annotations) == [];
    }
  }

  /** Each index is a draw of `random.randrange(N)`. */
  predicate ValidIndices(indices: seq<int>, n: nat) {
    forall i :: 0 <= i < |indices| ==> 0 <= indices[i] < n
  }

  /** `bounding_boxes[indices]`: one row per index, a copy of the corpus row it names. */
  function InitialCentroids(corpus: seq<Box>, indices: seq<int>): (r: seq<Box>)
    requires ValidIndices(indices, |corpus|)
    ensures |r| == |indices|
    ensures forall i :: 0 <= i < |indices| ==> r[i] == corpus[indices[i]]
    ensures AllPositive(corpus) ==> AllPositive(r)
  {
    seq(|indices|, i requires 0 <= i < |indices| => corpus[indices[i]])
  }

  /** A `(height, width)` pair as given to `normalize`: `image_size` or `map_size`. */
  datatype Size = Size(height: real, width: real)

  /**
   * `normalize`: the flat list w0, h0, w1, h1, ... with widths scaled by
   * `map_size[1] / image_size[1]` and heights by `map_size[0] / image_size[0]`.
   * A zero in `image_size` raises `ZeroDivisionError` before any anchor is read: `None`.
   */
  method Normalize(anchors: seq<Box>, imageSize: Size, mapSize: Size) returns (r: Option<seq<real>>)
    ensures r.None? <==> imageSize.height == 0.0 || imageSize.width == 0.0
    ensures r.Some? ==> |r.value| == 2 * |anchors|
    ensures r.Some? ==> forall i :: 0 <= i < |anchors| ==>
              r.value[2 * i] == mapSize.width / imageSize.width * anchors[i].w as real &&
              r.value[2 * i + 1] == mapSize.height / imageSize.height * anchors[i].h as real
  {
    if imageSize.height == 0.0 || imageSize.width == 0.0 {
      return None;
    }
    var rh, rw := mapSize.height / imageSize.height, mapSize.width / imageSize.width;
    var normalized: seq<real> := [];
    for i := 0 to |anchors|
      invariant |normalized| == 2 * i
      invariant forall k :: 0 <= k < i ==>
                  normalized[2 * k] == rw * anchors[k].w as real && normalized[2 * k + 1] == rh * anchors[k].h as real
    {
      var w, h := rw * anchors[i].w as real, rh * anchors[i].h as real;
      normalized := normalized + [w];
      normalized := normalized + [h];
    }
    return Some(normalized);
  }

  /** Default convergence threshold and iteration budget of `_cluster`. */
  const DefaultEps: real := 0.05
  const DefaultIterations: int := 100

  /**
   * `calculate` with `num_anchors == |indices|`: an empty file list returns `None`;
   * otherwise the corpus is built, the centroids are drawn and clustered with the
   * default `eps` and `iterations`, and, when an output file is given, written to it.
   * The corpus must be non-empty and positive (the overlap and the update are
   * modelled for positive boxes only) and each index must be a valid draw.
   */
  method Calculate(annotations: seq<Annotation>, indices: seq<int>, out: TextFile?) returns (r: Option<seq<Box>>)
    requires |annotations| > 0 ==>
               |Corpus(annotations)| > 0 && AllPositive(Corpus(annotations)) &&
               |indices| > 0 && ValidIndices(indices, |Corpus(annotations)|)
    modifies out
    ensures |annotations| == 0 ==> r.None?
    ensures |annotations| > 0 ==>
              r == Some(Run(Corpus(annotations), InitialCentroids(Corpus(annotations), indices),
                            DefaultEps, DefaultIterations).centroids)
    ensures out != null && r.Some? ==> out.content == Serialize(r.value)
    ensures out != null && r.None? ==> out.content == old(out.content)
  {
    if |annotations| <= 0 {
      return None;
    }
    var boxes := BuildCorpus(annotations);
    var init := InitialCentroids(boxes, indices);
    var centroids := new Box[|init|](i requires 0 <= i < |init| => init[i]);
    assert centroids[..] == init;
    Cluster(boxes, centroids, DefaultEps, DefaultIterations);
    r := Some(centroids[..]);
    if out != null {
      WriteAnchors(out, centroids[..]);
    }
  }
}
