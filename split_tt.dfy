/**
 * split_tt.py: the train/test split of a reordered file list (`split`) and the
 * building of image paths from file names (`_prepend_image_path`,
 * `_prepend_images_path`).
 */
module SplitTT {
  import opened PosixPath

  /**
   * `split`: the first `int(n * .8)` elements are the training part, the rest the
   * test part. The training size is the largest k with 5k <= 4n.
   */
  function Split<T>(data: seq<T>): (r: (seq<T>, seq<T>))
    ensures r.0 + r.1 == data
    ensures 5 * |r.0| <= 4 * |data| < 5 * (|r.0| + 1)
  {
    var n := |data|;
    var trainEnd := 4 * n / 5;
    (data[0..trainEnd], data[trainEnd..n])
  }

  /** The test part gets what the training part leaves, at least a fifth of the data, rounded down. */
  lemma SplitSizes<T>(data: seq<T>)
    ensures |Split(data).1| == |data| - |Split(data).0|
    ensures 5 * |Split(data).1| >= |data|
  {
  }

  /** `_prepend_image_path`: append the extension when it is non-empty, then join the folder when it is non-empty. */
  function PrependImagePath(filename: string, folder: string, extension: string): string {
    var named := if extension != "" then filename + extension else filename;
    if folder != "" then Join(folder, named) else named
  }

  /**
   * The result always ends with the file name and extension; without a folder it is
   * exactly that; with a folder and a relative name the folder comes first, followed
   * by one separator unless the folder already ends with one.
   */
  lemma PrependImagePathShape(filename: string, folder: string, extension: string)
    ensures var r, named := PrependImagePath(filename, folder, extension), filename + extension;
            && |named| <= |r| && r[|r| - |named|..] == named
            && (folder == "" ==> r == named)
            && (folder != "" && !(|named| > 0 && named[0] == Sep) ==>
                  r == folder + (if folder[|folder| - 1] == Sep then "" else [Sep]) + named)
  {
    if extension == "" {
      assert filename + extension == filename;
    }
  }

  /** With neither folder nor extension the file name comes back unchanged. */
  lemma PrependImagePathIdentity(filename: string)
    ensures PrependImagePath(filename, "", "") == filename
  {
  }

  /** `_prepend_images_path`: one path per file name, in order. */
  method PrependImagesPath(filenames: seq<string>, folder: string, extension: string) returns (result: seq<string>)
    ensures |result| == |filenames|
    ensures forall i :: 0 <= i < |filenames| ==> result[i] == PrependImagePath(filenames[i], folder, extension)
  {
    result := [];
    for i := 0 to |filenames|
      invariant |result| == i
      invariant forall k :: 0 <= k < i ==> result[k] == PrependImagePath(filenames[k], folder, extension)
    {
      result := result + [PrependImagePath(filenames[i], folder, extension)];
    }
  }
}
