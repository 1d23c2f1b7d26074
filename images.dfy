/** The image-list editors of the product and category forms. Both hold a
    list of image URLs bounded by `maxImages` and hand every new list to
    their `onImagesChange` callback: the uploader adds the URLs of uploaded
    files, the URL input adds one typed URL, and both remove an entry by
    its index with the same expression. A callback that is not called
    leaves the list as it was, which is what the functions below return
    then. */
module ImageList {
  import opened Common
  import opened Js

  /** `Promise.all` over the uploads: every URL, in order, when all of them
      resolved, and nothing when any one of them was rejected. */
  function AllResolved(results: seq<Option<Url>>): (r: Option<seq<Url>>)
    ensures r.Some? <==> forall i :: 0 <= i < |results| ==> results[i].Some?
    ensures r.Some? ==> |r.value| == |results|
                        && forall i :: 0 <= i < |results| ==> results[i] == Some(r.value[i])
  {
    if results == [] then Some([])
    else
      match AllResolved(results[1..])
      case None => None
      case Some(rest) =>
        if results[0].None? then None
        else
          assert forall i :: 1 <= i < |results| ==> results[i] == results[1..][i - 1];
          Some([results[0].value] + rest)
  }

  /** `handleFileSelect`: only the first `maxImages - images.length`
      selected files are uploaded (`slice` reads a negative count from the
      end); when every upload succeeds the list becomes the old one followed
      by the URLs in file order, and when one fails the list is left alone.
      `upload` gives the URL the server answered for a file, or nothing. */
  function HandleFileSelect<F>(images: seq<Url>, maxImages: int, files: seq<F>, upload: F -> Option<Url>)
    : (r: seq<Url>)
  {
    var toUpload := SliceTo(files, maxImages - |images|);
    match AllResolved(Map(toUpload, upload))
    case None => images
    case Some(urls) => images + urls
  }

  /** How many files `handleFileSelect` uploads: the free slots, at most
      the number of files; with an over-full list the count is negative and
      `slice` then leaves off that many files from the end instead. */
  function UploadCount(images: seq<Url>, maxImages: int, nFiles: nat): nat {
    var room := maxImages - |images|;
    if room >= 0 then (if room <= nFiles then room else nFiles)
    else if nFiles + room >= 0 then nFiles + room
    else 0
  }

  /** What selecting files does: when the first `k` files all upload, the
      list grows by their URLs in file order; when one of them fails, it
      stays. */
  lemma FileSelectEffect<F>(images: seq<Url>, maxImages: int, files: seq<F>, upload: F -> Option<Url>)
    ensures var k := UploadCount(images, maxImages, |files|);
      var r := HandleFileSelect(images, maxImages, files, upload);
      && ((forall i :: 0 <= i < k ==> upload(files[i]).Some?) ==>
            |r| == |images| + k && r[..|images|] == images
            && forall i :: 0 <= i < k ==> Some(r[|images| + i]) == upload(files[i]))
      && ((exists i :: 0 <= i < k && upload(files[i]).None?) ==> r == images)
  {
    var k := UploadCount(images, maxImages, |files|);
    var toUpload := SliceTo(files, maxImages - |images|);
    assert |toUpload| == k && forall i :: 0 <= i < k ==> toUpload[i] == files[i];
  }

  /** With the picker shown (`images.length < maxImages`), or with the list
      exactly full, selecting files never takes the list past `maxImages`. */
  lemma FileSelectBounded<F>(images: seq<Url>, maxImages: int, files: seq<F>, upload: F -> Option<Url>)
    requires |images| <= maxImages
    ensures |HandleFileSelect(images, maxImages, files, upload)| <= maxImages
  {
    var toUpload := SliceTo(files, maxImages - |images|);
    assert |toUpload| <= maxImages - |images|;
  }

  /** `handleImageChange`: the trimmed input is appended when it is not
      empty and the list has a free slot, so the list grows exactly when
      the input has a non-space character and a slot is free, and otherwise
      stays as it was; within the bound the list stays within it. */
  function HandleImageChange(images: seq<Url>, maxImages: int, value: string): (r: seq<Url>)
    ensures |r| == |images| + 1 <==>
      |images| < maxImages && exists i :: 0 <= i < |value| && !IsSpace(value[i])
    ensures |r| == |images| + 1 ==> r == images + [Trim(value)]
    ensures |r| != |images| + 1 ==> r == images
    ensures |images| <= maxImages ==> |r| <= maxImages
  {
    var url := Trim(value);
    if url != [] && |images| < maxImages then images + [url] else images
  }

  /** `removeImage(index)` in both editors: the entry at `index` is dropped
      and the others keep their order; an index outside the list changes
      nothing. */
  function RemoveImage(images: seq<Url>, index: int): (r: seq<Url>)
    ensures 0 <= index < |images| ==>
      && |r| == |images| - 1
      && (forall i :: 0 <= i < index ==> r[i] == images[i])
      && (forall i :: index <= i < |r| ==> r[i] == images[i + 1])
    ensures !(0 <= index < |images|) ==> r == images
  {
    WithoutIndex(images, index)
  }
}
