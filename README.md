# YOLO anchor and dataset tooling in Dafny

This project models the computational core of a small YOLO toolkit:

- anchors.py — anchor computation by k-means over bounding-box shapes (width, height):
  - the overlap score `_iou`, which assumes both boxes share a corner;
  - the clustering loop `_cluster`, which uses 1 − IoU as its distance, assigns each box to its first nearest centroid, averages the members with the int32 store, and stops on an L1 convergence test or after the iteration budget;
  - corpus construction in `calculate` and the index-based initialisation in `_cluster_bounding_boxes`;
  - `normalize`;
  - the text that `_write_to_file` leaves in the anchors file.
- split_tt.py — the 80/20 train/test split and building image paths.
- utils.py — `get_filename`. Also `randomize`, which takes its permutation as an input.
- yolo_net.py — post-processing of detections:
  - `_process_box` keeps a box whose best class exceeds the threshold, and truncates and clamps its corners;
  - the filtering loop of `detect`.

Modules: `AnchorMetric`, `AnchorCluster`, `AnchorFile`, `AnchorPipeline`, `PosixPath`, `Utils`, `SplitTT`, `Yolo`, plus `Wrappers` for `Option`.

Code that loops or updates state is written as methods over arrays, sequences and a `TextFile` class. Each method is proved equal to a specification function, and the lemmas state their properties about those functions.

- `AnchorCluster.Round` is the body of the `_cluster` loop. Its only caller is `AnchorCluster.Cluster`.
- `AnchorCluster.RunFrom` / `AnchorCluster.Run` are the specification of the whole loop.
- The comment at anchors.py:112 calls each new centroid the "geometric mean" of its points. The code takes the truncated arithmetic mean of the members (anchors.py:113-120), and a centroid that attracts no box keeps its value (anchors.py:118-119). The model follows the code.
- For `eps ≤ 1e5` the first round never stops on convergence. `difference` starts at `1e5` (anchors.py:84) and is recomputed only once `previous_distances` is non-empty (anchors.py:98-99). For `eps > 1e5` the loop exits in round 1.

## Model

| member | source | states |
|---|---|---|
| AnchorMetric.Iou | anchors.py:138-148 | the four-way case split of `_iou` for one box and one centroid, each branch dividing as the source does; its value is stated by `IouClosedForm` |
| AnchorMetric.IouClosedForm | anchors.py:141-148 | each of the four branches equals min(w,cw)·min(h,ch) divided by the union area; 0 < intersection ≤ union |
| AnchorMetric.IouRange | anchors.py:141-148 | every score lies in (0, 1] |
| AnchorMetric.IouSymmetric | anchors.py:141-148 | swapping the box and the centroid gives the same score |
| AnchorMetric.IouOneIffEqual | anchors.py:141-148 | the score is 1 exactly when the box and the centroid have the same shape |
| AnchorMetric.Ious | anchors.py:126-150 | one score per centroid, in centroid order; each equals `Iou` and lies in (0, 1] |
| AnchorCluster.DistanceRow | anchors.py:94 | 1 − IoU of one box against every centroid, in centroid order |
| AnchorCluster.Distances | anchors.py:92-95 | the distance matrix: one `DistanceRow` per box, in corpus order |
| AnchorCluster.RowL1 | anchors.py:99 | the sum of absolute differences of two distance rows |
| AnchorCluster.L1 | anchors.py:98-99 | `np.sum(np.abs(distances - previous_distances))`: the `RowL1` of every row, summed |
| AnchorCluster.ArgMin | anchors.py:110 | the first index of the smallest distance in a row (numpy's tie rule) |
| AnchorCluster.Assign | anchors.py:110 | one assignment per box, each the first nearest centroid of its row |
| AnchorCluster.Count | anchors.py:118 | `np.sum(closest_centroids == j)`: the number of boxes assigned to centroid `j` |
| AnchorCluster.MemberSum | anchors.py:113-115 | `centroid_sums[j]`: the coordinate-wise sum of the boxes assigned to centroid `j`, accumulated in corpus order |
| AnchorCluster.Updated | anchors.py:113-120 | one centroid per input centroid |
| AnchorCluster.UpdatedCentroid | anchors.py:113-120 | an unused centroid is unchanged; a used one is the floor of its members' mean (`r·n ≤ sum < (r+1)·n` per side) and stays within any bounds its members share |
| AnchorCluster.UpdatedPositive | anchors.py:113-120 | with a positive corpus, the updated centroids stay positive |
| AnchorCluster.Step | anchors.py:90-120 | one assign-and-average round keeps the number of centroids and their positivity |
| AnchorCluster.RowL1Self | anchors.py:99 | the L1 difference of a distance row with itself is 0 |
| AnchorCluster.L1Self | anchors.py:99 | the L1 difference of a distance matrix with itself is 0 |
| AnchorCluster.MemberSumBounds | anchors.py:114-115 | a cluster's sum lies between its member count times the smallest and largest member side |
| AnchorCluster.CountBound | anchors.py:118 | a cluster has at most as many members as there are boxes |
| AnchorCluster.CountZero | anchors.py:118 | when no box is assigned to a centroid, its member count is 0 |
| AnchorCluster.UnusedCentroidKept | anchors.py:117-120 | a centroid that no box is assigned to keeps its value |
| AnchorCluster.MovedCentroidHasMember | anchors.py:117-120 | a centroid whose value changes has at least one box assigned to it |
| AnchorCluster.RunFrom | anchors.py:87-123 | the loop ends with as many positive centroids as it started with, after at least one and at most `max(iteration+1, iterations+1)` rounds, either converged (`difference < eps`) or over the budget (`rounds > iterations`) |
| AnchorCluster.Run | anchors.py:83-123 | the loop from its initial state: `iteration = 0`, `difference = 1e5` and no previous distances |
| AnchorCluster.RunBounds | anchors.py:84-104 | a run takes between 1 and `max(1, iterations+1)` rounds and ends converged or over budget |
| AnchorCluster.FirstRoundUpdates | anchors.py:84-104 | with `eps ≤ 1e5` and a budget of at least one, the first round never stops the loop |
| AnchorCluster.LargeEpsExitsAtOnce | anchors.py:84-106 | with `eps > 1e5` the run stops in round 1 and returns the initial centroids, because the initial difference already counts as converged |
| AnchorCluster.FixedPointConverges | anchors.py:98-106 | if a round leaves the centroids unchanged, the run stops in round 2 with difference 0 and returns them |
| AnchorCluster.UniformCorpusIsFixed | anchors.py:110-120 | when every box has the same shape as every centroid, a round changes nothing |
| AnchorCluster.UniformCorpusConverges | anchors.py:68-123 | such a run returns its initial centroids after two rounds |
| AnchorCluster.ComputeDistances | anchors.py:92-95 | the distance matrix, one row of 1 − IoU per box |
| AnchorCluster.CentroidSums | anchors.py:113-115 | each cluster's accumulated sum of member widths and heights |
| AnchorCluster.MoveCentroids | anchors.py:117-120 | the centroid array is updated in place to `Updated` of its old value |
| AnchorCluster.Round | anchors.py:88-122 | one loop pass from a state on the run: it exits exactly when `difference < eps` or the counter passes `iterations`, and then the centroids are the run's result; otherwise the moved centroids and the new distances are again a state on the same run |
| AnchorCluster.Cluster | anchors.py:68-123 | the centroid array ends equal to `Run` of its initial contents |
| AnchorFile.TextFile.Truncate | anchors.py:15 | `f.truncate()` on a file opened at position 0: the content becomes empty |
| AnchorFile.TextFile.Write | anchors.py:17 | `f.write(s)`: `s` is appended to the content |
| AnchorFile.IntToString | anchors.py:17 | `'{}'.format` of an integer: a `-` for a negative value, then the decimal digits |
| AnchorFile.Entry | anchors.py:17 | `"{0},{1} ".format(w, h)` for one centroid |
| AnchorFile.NatToString | anchors.py:17 | the decimal text of a number is non-empty and made of digits |
| AnchorFile.Serialize | anchors.py:16-17 | the file text is `w,h ` per centroid, in order |
| AnchorFile.SerializeSnoc | anchors.py:16-17 | appending a centroid appends its entry |
| AnchorFile.WriteAnchors | anchors.py:13-17 | after truncating and writing, the file holds exactly `Serialize(centroids)` |
| AnchorFile.SplitOnNoSep | anchors.py:17 | splitting text with no separator gives the text itself |
| AnchorFile.SplitOnFirst | anchors.py:17 | splitting at the first separator gives the text before it, then the pieces of the rest |
| AnchorFile.ParseNatToString | anchors.py:17 | reading back the digits of a number gives the number |
| AnchorFile.IntRoundTrip | anchors.py:17 | reading back the text of any integer gives the integer |
| AnchorFile.EntryRoundTrip | anchors.py:17 | one `w,h` entry reads back as the centroid |
| AnchorFile.SplitSerialized | anchors.py:16-17 | splitting the file text on spaces gives one piece per centroid and a final empty piece |
| AnchorFile.SerializeRoundTrip | anchors.py:13-17 | the anchors file reads back as exactly the centroids written |
| AnchorPipeline.Shape | anchors.py:56-57 | `[abs(xx-xn), abs(yx-yn)]` for one box |
| AnchorPipeline.Corpus | anchors.py:50-57 | the shapes of all boxes of all files with a complete parse, in file order and box order; short parses contribute nothing |
| AnchorPipeline.BuildCorpus | anchors.py:50-57 | the corpus loop gives `Corpus`: for each file with boxes, in order, `(|xmax−xmin|, |ymax−ymin|)` per box; short parses are skipped |
| AnchorPipeline.CorpusConcat | anchors.py:51-57 | the corpus of concatenated file lists is the concatenation of the corpora |
| AnchorPipeline.CorpusEntries | anchors.py:50-57 | every corpus entry is non-negative and is the shape of some box of some parsed file, and every such box's shape occurs in the corpus |
| AnchorPipeline.InitialCentroids | anchors.py:34-35 | one centroid per drawn index, a copy of that corpus row; positivity carries over |
| AnchorPipeline.Normalize | anchors.py:152-160 | `None` exactly when an image dimension is 0 (division by zero); otherwise the flat list `rw·w0, rh·h0, …` with `rw = map_w/image_w` and `rh = map_h/image_h` |
| AnchorPipeline.Calculate | anchors.py:42-66 | no files gives `None`; otherwise `Run` over the corpus from the drawn centroids with eps 0.05 and 100 iterations; a given output file then holds their serialisation |
| PosixPath.Join | split_tt.py:92 | `os.path.join(folder, filename)`: an absolute `filename` replaces the folder, otherwise one `/` goes between unless the folder already ends with one |
| PosixPath.SplitExt | utils.py:18 | `os.path.splitext`: the last dot after the last `/` starts the extension, unless only dots precede it in the last component |
| PosixPath.RFind | utils.py:16-18 | the last position of a character, or −1 when it is absent |
| PosixPath.Basename | utils.py:16 | the text after the last `/`: a suffix of the path with no `/` |
| PosixPath.SplitExtConcat | utils.py:18 | the root and the extension of `splitext` concatenate to the input |
| Utils.GetFilename | utils.py:15-18 | `splitext(basename(path))[0]` |
| Utils.GetFilenameIsStem | utils.py:15-18 | the result contains no `/` and is a prefix of the path's base name |
| Utils.GetFilenameStripsLastExtension | utils.py:15-18 | when the base name has a stem before its last `.`, the result is the text before that dot |
| Utils.GetFilenameUnchanged | utils.py:15-18 | the base name comes back unchanged exactly when it has no extension to strip (no dot, or dots only at the start) |
| Utils.GetFilenameNestedExample | utils.py:15-18 | `data/a.tar.gz` gives `a.tar`: the directory goes and only the last extension is stripped |
| Utils.GetFilenameDotfileExample | utils.py:15-18 | `images/.jpg` gives `.jpg`: a leading dot does not start an extension |
| Utils.GetFilenamePlainExample | utils.py:15-18 | `apple` gives `apple` |
| Utils.PermutationInRange | utils.py:21-23 | every index of a shuffled `range(n)` is below n, and each occurs once |
| Utils.Pick | utils.py:25 | `[data[i] for i in index]`, element by element |
| Utils.PickMultiset | utils.py:21-25 | picking with a permutation of all indices preserves the multiset of elements |
| Utils.Randomize | utils.py:20-26 | the same length as the input; the i-th element is `data[shuffle[i]]` |
| Utils.RandomizeIsPermutation | utils.py:20-26 | the result is a permutation of the input |
| Utils.RandomizeSameOrder | utils.py:20-26 | a fixed seed gives the same order: randomizing paired lists equals pairing the randomized lists |
| SplitTT.Split | split_tt.py:7-12 | the train part followed by the test part is the input, and the train part is the first `floor(0.8·n)` items |
| SplitTT.SplitSizes | split_tt.py:7-12 | the sizes of both parts: the train part has `floor(4n/5)` items and the test part the rest |
| SplitTT.PrependImagePathShape | split_tt.py:86-94 | the result ends with the name and the extension; with no folder it is exactly that; with a folder and a relative name, the folder comes first with exactly one `/` between |
| SplitTT.PrependImagePathIdentity | split_tt.py:86-94 | with no folder and no extension the name is returned unchanged |
| SplitTT.PrependImagePath | split_tt.py:86-94 | the extension is appended when non-empty, then the folder is joined in front when non-empty |
| SplitTT.PrependImagesPath | split_tt.py:96-100 | one path per name, in order, each `PrependImagePath` of that name |
| Yolo.ArgMax | yolo_net.py:69 | the first index of the largest probability (numpy's tie rule) |
| Yolo.Trunc | yolo_net.py:73-76 | `int()` on a float: truncation toward zero |
| Yolo.PixelRect | yolo_net.py:73-76 | the four pixel corners before clamping: `int((x ∓ w/2)·width)` and `int((y ∓ h/2)·height)` |
| Yolo.YoloNet.constructor | yolo_net.py:17-18 | the labels and the threshold come from the metadata |
| Yolo.YoloNet.ProcessBox | yolo_net.py:68-83 | `None` exactly when the best probability is not above the threshold; otherwise the first best class, its label and its probability, with left, top ≥ 0, right ≤ w−1 and bottom ≤ h−1 |
| Yolo.YoloNet.ProcessBoxCorners | yolo_net.py:73-80 | each corner is its truncated pixel coordinate, replaced by the image edge only when it crosses that side |
| Yolo.YoloNet.UnclampedExample | yolo_net.py:73-80 | a box inside the image keeps its corners; a box right of the image is clamped on the right only, so left > right; a best probability equal to the threshold is rejected |
| Yolo.YoloNet.Kept | yolo_net.py:31-39 | `clean_boxes` as a function of the raw boxes: the accepted boxes, reshaped, in input order |
| Yolo.YoloNet.Detect | yolo_net.py:33-39 | the kept boxes, reshaped to `[[index, name, confidence], [left, right, top, bot]]`, in input order |
| Yolo.YoloNet.KeptConcat | yolo_net.py:33-39 | filtering concatenated box lists concatenates the results, so input order is kept |
| Yolo.YoloNet.KeptMembers | yolo_net.py:33-39 | there are no more results than boxes, and a result appears exactly when some box is accepted by `_process_box` and reshapes to it |

## Left out

- Randomness: `random.randrange` in `_cluster_bounding_boxes` and `random.seed(12345)` / `random.shuffle` in `randomize` are not modelled. Their results (the drawn indices, and the shuffled permutation as a function of the length) are inputs.
- File system and I/O are not modelled:
  - `glob.glob`;
  - `parsers.parse_from_pascal_voc_format`, whose results are the `Annotation` inputs;
  - the exclusive create in `_save_to_file` and the absolute-path step;
  - directory listing, copying and removal in split_tt.py and utils.py (`split_all`, `_save`, `_remove_without_image`, `_fetch_images_from_annotations`, `_split_data`, `rmfile`, `rmdir`, `make_dir`, and the download helpers).
- Printing is not modelled.
- `draw_anchors` and `draw_detections` are not modelled. They build images with numpy and draw with cv2, `draw_anchors` through `common.draw_bounding_box`.
- The network is not modelled: the TensorFlow run, `_resize_input`, `findboxes`, JSON metadata loading and `create_net` are outside the model. The raw boxes are the input of `Detect`.
- imagenet_utils.py, parsers.py and common.py are not part of this model.
- Floating point is modelled with exact reals: IoU scores, distances and `normalize` perform no IEEE rounding. The convergence test therefore compares exact sums.
- AnchorCluster.Updated: the sums are accumulated in a float array and then stored in int32. The model uses exact integer sums and floor division. That is the same value while the sums stay below 2^53 and the means within int32.
- AnchorPipeline.BuildCorpus: the int32 conversion of `np.array(..., dtype=np.int32)` is not modelled; coordinates are unbounded integers.
- SplitTT.Split: `int(n*.8)` is modelled as `floor(4n/5)`. The float product rounds, and the two differ for some n from about 2^51 on (n = 2251799813635251 is one).
- AnchorMetric.Iou requires positive sides on the box and the centroid. The source also handles a zero-sided box against a positive centroid: every denominator at anchors.py:142-148 is then positive, the score is 0, each of the box's distances is 1, and `argmin` assigns it to centroid 0. A zero denominator needs a zero side on both the box and the centroid. It then yields nan or inf with a numpy warning, not an exception. Because zero-sided boxes are excluded, `Cluster` and `Calculate` do not cover corpora that contain them.
- AnchorMetric.Iou: in the source, `w`, `h`, `cw` and `ch` are numpy int32 values. Products such as `w*h` wrap around past 2^31 − 1, that is, for sides above about 46340. The model uses unbounded integers.
- AnchorCluster.Cluster requires a non-empty corpus and at least one centroid. The source's behaviour on those inputs is not modelled:
  - with an empty corpus it returns the centroids unchanged when round 1 exits (`iterations < 1` or `eps > 1e5`), and otherwise fails in `np.argmin`;
  - with no centroids, every distance row is empty, and `np.argmin` fails unless round 1 exits.
- AnchorPipeline.Calculate requires that a non-empty file list yields a non-empty, positive corpus, and at least one valid index:
  - With an empty corpus, the source already fails when drawing the indices. `random.randrange(0)` raises ValueError (anchors.py:34).
  - Zero-sided boxes are excluded, as for `Iou`.
- PosixPath.Join models `os.path.join` for two components only; that is what the source uses.
- Yolo.YoloNet.ProcessBox requires a non-empty probability list whose best class index is a valid label index. The source crashes on both. `np.argmax` of an empty list raises ValueError, and `self.labels[max_indx]` raises IndexError. The model does not represent these crashes.
