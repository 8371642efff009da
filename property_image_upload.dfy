/** The staged image list of the property image picker: dropped files are
    staged up to a cap, can be removed by id, are marked uploaded when the
    upload service reports completion, and the not-yet-uploaded ones are
    handed to the upload service. Random ids and object-URL previews are
    inputs; the `onImagesChange` and `startUpload` calls are recorded. */
module PropertyImageUpload {
  import opened Wrappers
  import opened Browser

  /** One staged image. `url` is set once the upload service returns it. */
  datatype StagedImage = StagedImage(id: string, file: File, preview: string, uploaded: bool, url: Option<string>)

  /** One entry of the upload service's completion result. */
  datatype UploadedFile = UploadedFile(name: string, url: string)

  /** The cap used when the `maxImages` property is not given. */
  const DefaultMaxImages: nat := 10

  // ---------------------------------------------------------------------
  // The list operations as functions
  // ---------------------------------------------------------------------

  /** The end index that `list.slice(0, end)` uses on a list of `len`
      items; a negative `end` counts back from the end of the list. */
  function SliceEnd(len: nat, end: int): (k: nat)
    ensures k <= len
  {
    if end < 0 then (if len + end < 0 then 0 else len + end)
    else if end < len then end else len
  }

  /** The staged form of freshly dropped files, in drop order. */
  function Stage(files: seq<File>, ids: seq<string>, previews: seq<string>): (r: seq<StagedImage>)
    requires |ids| == |files| && |previews| == |files|
    ensures |r| == |files|
    ensures forall i :: 0 <= i < |r| ==> r[i] == StagedImage(ids[i], files[i], previews[i], false, None)
  {
    seq(|files|, i requires 0 <= i < |files| => StagedImage(ids[i], files[i], previews[i], false, None))
  }

  /** The list after a drop: the files beyond the remaining room are cut
      off (`slice(0, maxImages - length)`), the rest appended. */
  function Dropped(prev: seq<StagedImage>, files: seq<File>, ids: seq<string>, previews: seq<string>, maxImages: int): seq<StagedImage>
    requires |ids| == |files| && |previews| == |files|
  {
    var k := SliceEnd(|files|, maxImages - |prev|);
    prev + Stage(files[..k], ids[..k], previews[..k])
  }

  /** `images.filter(img => img.id !== id)` */
  function WithoutId(images: seq<StagedImage>, id: string): (r: seq<StagedImage>)
    ensures |r| <= |images|
  {
    if images == [] then []
    else (if images[0].id == id then [] else [images[0]]) + WithoutId(images[1..], id)
  }

  /** `res.find(r => r.name === name)`: the first entry with that name. */
  function FindByName(res: seq<UploadedFile>, name: string): Option<UploadedFile> {
    if res == [] then None
    else if res[0].name == name then Some(res[0])
    else FindByName(res[1..], name)
  }

  /** The completion update of one image: marked uploaded with the url of
      the first result carrying its file name, or left as it is. */
  function Completed(img: StagedImage, res: Option<seq<UploadedFile>>): StagedImage {
    var found := if res.Some? then FindByName(res.value, img.file.name) else None;
    if found.Some? then img.(uploaded := true, url := Some(found.value.url)) else img
  }

  /** `images.map(img => ...)` with the completion update. */
  function MarkUploaded(images: seq<StagedImage>, res: Option<seq<UploadedFile>>): (r: seq<StagedImage>)
    ensures |r| == |images|
  {
    seq(|images|, i requires 0 <= i < |images| => Completed(images[i], res))
  }

  /** `images.filter(img => !img.uploaded).map(img => img.file)` */
  function PendingFiles(images: seq<StagedImage>): seq<File> {
    if images == [] then []
    else (if images[0].uploaded then [] else [images[0].file]) + PendingFiles(images[1..])
  }

  // ---------------------------------------------------------------------
  // Properties of the list operations
  // ---------------------------------------------------------------------

  /** A drop never takes the list past the cap when it was within it, and
      fills it as far as the dropped files allow. */
  lemma DropRespectsCap(prev: seq<StagedImage>, files: seq<File>, ids: seq<string>, previews: seq<string>, maxImages: nat)
    requires |ids| == |files| && |previews| == |files|
    requires |prev| <= maxImages
    ensures |Dropped(prev, files, ids, previews, maxImages)| <= maxImages
    ensures |Dropped(prev, files, ids, previews, maxImages)|
            == if |prev| + |files| <= maxImages then |prev| + |files| else maxImages
  {
  }

  /** A drop on a list filled exactly to the cap (the state in which the
      drop zone is disabled, given the cap holds) adds nothing. A list over
      the cap would not be safe: `slice` with a negative end counts back
      from the end of the dropped files. */
  lemma DropWhenFull(prev: seq<StagedImage>, files: seq<File>, ids: seq<string>, previews: seq<string>, maxImages: int)
    requires |ids| == |files| && |previews| == |files|
    requires |prev| == maxImages
    ensures Dropped(prev, files, ids, previews, maxImages) == prev
  {
    assert Stage(files[..0], ids[..0], previews[..0]) == [];
  }

  /** A drop keeps the existing images as an unchanged prefix and appends
      the new ones in drop order, each not uploaded and without a url. */
  lemma DropAppends(prev: seq<StagedImage>, files: seq<File>, ids: seq<string>, previews: seq<string>, maxImages: int)
    requires |ids| == |files| && |previews| == |files|
    ensures var r := Dropped(prev, files, ids, previews, maxImages);
            |prev| <= |r| <= |prev| + |files|
            && r[..|prev|] == prev
            && forall i :: |prev| <= i < |r| ==>
                 r[i] == StagedImage(ids[i - |prev|], files[i - |prev|], previews[i - |prev|], false, None)
  {
  }

  /** Removal drops every image with the id and no other. */
  lemma {:induction false} WithoutIdMembers(images: seq<StagedImage>, id: string)
    ensures forall x :: x in WithoutId(images, id) <==> x in images && x.id != id
  {
    if images != [] {
      WithoutIdMembers(images[1..], id);
      assert images == [images[0]] + images[1..];
    }
  }

  /** Removal works piecewise, so the kept images keep their order. */
  lemma {:induction false} WithoutIdAppend(a: seq<StagedImage>, b: seq<StagedImage>, id: string)
    ensures WithoutId(a + b, id) == WithoutId(a, id) + WithoutId(b, id)
  {
    if a == [] {
      assert a + b == b;
    } else {
      var head := if a[0].id == id then [] else [a[0]];
      assert (a + b)[0] == a[0];
      assert (a + b)[1..] == a[1..] + b;
      WithoutIdAppend(a[1..], b, id);
      calc {
        WithoutId(a + b, id);
        head + WithoutId(a[1..] + b, id);
        head + (WithoutId(a[1..], id) + WithoutId(b, id));
        (head + WithoutId(a[1..], id)) + WithoutId(b, id);
      }
    }
  }

  /** Removing an id that no image carries leaves the list as it is. */
  lemma {:induction false} WithoutAbsentId(images: seq<StagedImage>, id: string)
    requires forall i :: 0 <= i < |images| ==> images[i].id != id
    ensures WithoutId(images, id) == images
  {
    if images != [] {
      WithoutAbsentId(images[1..], id);
    }
  }

  /** `find` gives the first entry whose name matches. */
  lemma {:induction false} FindByNameIsFirst(res: seq<UploadedFile>, name: string, k: nat)
    requires k < |res| && res[k].name == name
    requires forall j :: 0 <= j < k ==> res[j].name != name
    ensures FindByName(res, name) == Some(res[k])
  {
    if k > 0 {
      FindByNameIsFirst(res[1..], name, k - 1);
    }
  }

  /** `find` comes back empty exactly when no entry has the name. */
  lemma {:induction false} FindByNameNone(res: seq<UploadedFile>, name: string)
    ensures FindByName(res, name).None? <==> forall j :: 0 <= j < |res| ==> res[j].name != name
    ensures FindByName(res, name).Some? ==> FindByName(res, name).value in res
                                            && FindByName(res, name).value.name == name
  {
    if res != [] {
      FindByNameNone(res[1..], name);
      if res[0].name != name {
        assert forall j :: 1 <= j < |res| ==> res[j] == res[1..][j - 1];
      }
    }
  }

  /** Completion keeps the length, the order, every id, file and preview;
      a matched image becomes uploaded with the url of its first match,
      and an unmatched image is left unchanged. */
  lemma CompletionUpdates(images: seq<StagedImage>, res: Option<seq<UploadedFile>>, i: nat)
    requires i < |images|
    ensures var r := MarkUploaded(images, res);
            |r| == |images|
            && r[i].id == images[i].id && r[i].file == images[i].file && r[i].preview == images[i].preview
            && (res.Some? && FindByName(res.value, images[i].file.name).Some? ==>
                  r[i].uploaded && r[i].url == Some(FindByName(res.value, images[i].file.name).value.url))
            && (res.None? || FindByName(res.value, images[i].file.name).None? ==> r[i] == images[i])
  {
  }

  /** The files sent for upload are taken piecewise, so their order is list order. */
  lemma {:induction false} PendingFilesAppend(a: seq<StagedImage>, b: seq<StagedImage>)
    ensures PendingFiles(a + b) == PendingFiles(a) + PendingFiles(b)
  {
    if a == [] {
      assert a + b == b;
    } else {
      assert (a + b)[1..] == a[1..] + b;
      PendingFilesAppend(a[1..], b);
    }
  }

  /** A file is sent exactly when some not-uploaded image holds it, and
      nothing is sent exactly when every image is uploaded. */
  lemma {:induction false} PendingFilesMembers(images: seq<StagedImage>)
    ensures forall f :: f in PendingFiles(images) <==> exists i :: 0 <= i < |images| && !images[i].uploaded && images[i].file == f
    ensures PendingFiles(images) == [] <==> forall i :: 0 <= i < |images| ==> images[i].uploaded
  {
    if images != [] {
      PendingFilesMembers(images[1..]);
      assert forall i :: 1 <= i < |images| ==> images[i] == images[1..][i - 1];
      forall f | exists i :: 0 <= i < |images| && !images[i].uploaded && images[i].file == f
        ensures f in PendingFiles(images)
      {
        var i :| 0 <= i < |images| && !images[i].uploaded && images[i].file == f;
        if i > 0 {
          assert !images[1..][i - 1].uploaded && images[1..][i - 1].file == f;
        }
      }
    }
  }

  /** Freshly dropped files are all pending, after those already pending. */
  lemma {:induction false} DroppedFilesArePending(prev: seq<StagedImage>, files: seq<File>, ids: seq<string>, previews: seq<string>, maxImages: int)
    requires |ids| == |files| && |previews| == |files|
    ensures PendingFiles(Dropped(prev, files, ids, previews, maxImages))
            == PendingFiles(prev) + files[..SliceEnd(|files|, maxImages - |prev|)]
  {
    var k := SliceEnd(|files|, maxImages - |prev|);
    PendingFilesAppend(prev, Stage(files[..k], ids[..k], previews[..k]));
    StagedFilesPending(files[..k], ids[..k], previews[..k]);
  }

  lemma {:induction false} StagedFilesPending(files: seq<File>, ids: seq<string>, previews: seq<string>)
    requires |ids| == |files| && |previews| == |files|
    ensures PendingFiles(Stage(files, ids, previews)) == files
  {
    if files != [] {
      StagedFilesPending(files[1..], ids[1..], previews[1..]);
      assert Stage(files, ids, previews)[1..] == Stage(files[1..], ids[1..], previews[1..]);
      assert files == [files[0]] + files[1..];
    }
  }

  /** The list the upload-trigger listener sees. The listener is registered
      once, on the first render, so it keeps that render's `uploadImages`,
      whose `stagedImages` is the initial empty list. */
  const FirstRenderImages: seq<StagedImage> := []

  /** The files a triggered upload sends when the listener sees `seen`;
      none when nothing is pending. */
  function TriggeredUpload(seen: seq<StagedImage>): Option<seq<File>> {
    if PendingFiles(seen) == [] then None else Some(PendingFiles(seen))
  }

  /** The page dispatches the trigger only when some image is pending, but
      the listener as written sees the first render's empty list, so it
      never uploads, and its callback is never answered. Reading the current
      list, it would upload exactly the pending files. */
  lemma StaleTriggerNeverUploads(current: seq<StagedImage>)
    requires PendingFiles(current) != []
    ensures TriggeredUpload(FirstRenderImages).None?
    ensures TriggeredUpload(current) == Some(PendingFiles(current))
  {
  }

  // ---------------------------------------------------------------------
  // The component state
  // ---------------------------------------------------------------------

  /** The picker's state: the staged list, the uploading flag, the parent's
      `window.uploadCallback`, and the calls it has made to `onImagesChange`,
      `startUpload` and that callback. */
  class ImagePicker {
    const maxImages: nat
    var stagedImages: seq<StagedImage>
    var isUploading: bool
    /** Whether `window.uploadCallback` holds a callback. */
    var uploadCallback: bool
    /** Every list passed to `onImagesChange`, oldest first. */
    var notified: seq<seq<StagedImage>>
    /** Every file list passed to `startUpload`, oldest first. */
    var uploadRequests: seq<seq<File>>
    /** Every answer given to `window.uploadCallback`: the urls, or `None`
        (`null`) after an error. */
    var callbackAnswers: seq<Option<seq<string>>>

    /** The cap holds. */
    ghost predicate Valid()
      reads this
    {
      |stagedImages| <= maxImages
    }

    constructor (maxImages: nat := DefaultMaxImages)
      ensures Valid()
      ensures this.maxImages == maxImages
      ensures stagedImages == [] && !isUploading && notified == [] && uploadRequests == []
      ensures !uploadCallback && callbackAnswers == []
    {
      this.maxImages := maxImages;
      stagedImages := [];
      isUploading := false;
      uploadCallback := false;
      notified := [];
      uploadRequests := [];
      callbackAnswers := [];
    }

    /** The drop zone's `disabled` flag. */
    predicate Disabled()
      reads this
    {
      |stagedImages| >= maxImages
    }

    /** `onDrop`: stage the accepted files, up to the cap. The drop zone
        does not call it while `Disabled()`; what the method would do then
        (nothing changes but the notification) describes the callback
        itself, not the zone. */
    method OnDrop(acceptedFiles: seq<File>, ids: seq<string>, previews: seq<string>)
      requires Valid()
      requires |ids| == |acceptedFiles| && |previews| == |acceptedFiles|
      modifies this
      ensures Valid()
      ensures stagedImages == Dropped(old(stagedImages), acceptedFiles, ids, previews, maxImages)
      ensures old(Disabled()) ==> stagedImages == old(stagedImages)
      ensures notified == old(notified) + [stagedImages]
      ensures isUploading == old(isUploading) && uploadRequests == old(uploadRequests)
      ensures uploadCallback == old(uploadCallback) && callbackAnswers == old(callbackAnswers)
    {
      var k := SliceEnd(|acceptedFiles|, maxImages - |stagedImages|);
      var newImages := Stage(acceptedFiles[..k], ids[..k], previews[..k]);
      DropRespectsCap(stagedImages, acceptedFiles, ids, previews, maxImages);
      if Disabled() {
        DropWhenFull(stagedImages, acceptedFiles, ids, previews, maxImages);
      }
      var updated := stagedImages + newImages;
      stagedImages := updated;
      notified := notified + [updated];
    }

    /** `removeImage(id)` */
    method RemoveImage(id: string)
      requires Valid()
      modifies this
      ensures Valid()
      ensures stagedImages == WithoutId(old(stagedImages), id)
      ensures notified == old(notified) + [stagedImages]
      ensures isUploading == old(isUploading) && uploadRequests == old(uploadRequests)
      ensures uploadCallback == old(uploadCallback) && callbackAnswers == old(callbackAnswers)
    {
      var updated := WithoutId(stagedImages, id);
      stagedImages := updated;
      notified := notified + [updated];
    }

    /** `onClientUploadComplete(res)`: stop uploading, mark the matched
        images, and hand the uploaded urls (`res?.map(r => r.url) || []`)
        to a waiting `window.uploadCallback`, which is then cleared. */
    method OnClientUploadComplete(res: Option<seq<UploadedFile>>) returns (uploadedUrls: seq<string>)
      requires Valid()
      modifies this
      ensures Valid()
      ensures !isUploading
      ensures stagedImages == MarkUploaded(old(stagedImages), res)
      ensures notified == old(notified) + [stagedImages]
      ensures uploadRequests == old(uploadRequests)
      ensures res.None? ==> uploadedUrls == []
      ensures res.Some? ==> |uploadedUrls| == |res.value|
                            && forall i :: 0 <= i < |res.value| ==> uploadedUrls[i] == res.value[i].url
      ensures !uploadCallback
      ensures callbackAnswers == old(callbackAnswers) + (if old(uploadCallback) then [Some(uploadedUrls)] else [])
    {
      isUploading := false;
      var updated := MarkUploaded(stagedImages, res);
      stagedImages := updated;
      notified := notified + [updated];
      if res.Some? {
        var all := res.value;
        uploadedUrls := seq(|all|, i requires 0 <= i < |all| => all[i].url);
      } else {
        uploadedUrls := [];
      }
      if uploadCallback {
        callbackAnswers := callbackAnswers + [Some(uploadedUrls)];
        uploadCallback := false;
      }
    }

    /** `onUploadError`: stop uploading and answer a waiting
        `window.uploadCallback` with `null`, then clear it. */
    method OnUploadError()
      modifies this
      ensures !isUploading && !uploadCallback
      ensures stagedImages == old(stagedImages) && notified == old(notified) && uploadRequests == old(uploadRequests)
      ensures callbackAnswers == old(callbackAnswers) + (if old(uploadCallback) then [None] else [])
    {
      isUploading := false;
      if uploadCallback {
        callbackAnswers := callbackAnswers + [None];
        uploadCallback := false;
      }
    }

    /** `uploadImages` run on the list `seen`: send its not-yet-uploaded
        files, or do nothing when there are none. `startUploadThrows` says
        whether `startUpload` rejected, which clears the uploading flag
        again. */
    method UploadImagesOf(seen: seq<StagedImage>, startUploadThrows: bool) returns (started: bool)
      modifies this
      ensures started <==> TriggeredUpload(seen).Some?
      ensures uploadRequests == if started then old(uploadRequests) + [TriggeredUpload(seen).value]
                                else old(uploadRequests)
      ensures isUploading == if started then !startUploadThrows else old(isUploading)
      ensures stagedImages == old(stagedImages) && notified == old(notified)
      ensures uploadCallback == old(uploadCallback) && callbackAnswers == old(callbackAnswers)
    {
      var filesToUpload := PendingFiles(seen);
      if |filesToUpload| == 0 {
        started := false;
        return;
      }
      isUploading := true;
      uploadRequests := uploadRequests + [filesToUpload];
      if startUploadThrows {
        isUploading := false;
      }
      started := true;
    }

    /** `uploadImages` on the current list: an upload starts exactly when
        some staged image is pending, with exactly the pending files. */
    method UploadImages(startUploadThrows: bool) returns (started: bool)
      modifies this
      ensures started <==> PendingFiles(old(stagedImages)) != []
      ensures uploadRequests == if started then old(uploadRequests) + [PendingFiles(old(stagedImages))]
                                else old(uploadRequests)
      ensures isUploading == if started then !startUploadThrows else old(isUploading)
      ensures stagedImages == old(stagedImages) && notified == old(notified)
      ensures uploadCallback == old(uploadCallback) && callbackAnswers == old(callbackAnswers)
    {
      started := UploadImagesOf(stagedImages, startUploadThrows);
    }

    /** The `uploadStagedImages` listener as written: it stores the event's
        callback and runs the first render's `uploadImages`, which sees no
        images. No upload starts, so the callback is left waiting. */
    method OnUploadTriggerAsWritten(startUploadThrows: bool) returns (started: bool)
      modifies this
      ensures !started
      ensures uploadCallback
      ensures uploadRequests == old(uploadRequests) && isUploading == old(isUploading)
      ensures stagedImages == old(stagedImages) && notified == old(notified)
      ensures callbackAnswers == old(callbackAnswers)
    {
      uploadCallback := true;
      started := UploadImagesOf(FirstRenderImages, startUploadThrows);
    }

    /** The listener reading the current list: it stores the callback and
        starts an upload of exactly the pending files, if there are any. */
    method OnUploadTrigger(startUploadThrows: bool) returns (started: bool)
      modifies this
      ensures uploadCallback
      ensures started <==> PendingFiles(old(stagedImages)) != []
      ensures uploadRequests == if started then old(uploadRequests) + [PendingFiles(old(stagedImages))]
                                else old(uploadRequests)
      ensures isUploading == if started then !startUploadThrows else old(isUploading)
      ensures stagedImages == old(stagedImages) && notified == old(notified)
      ensures callbackAnswers == old(callbackAnswers)
    {
      uploadCallback := true;
      started := UploadImages(startUploadThrows);
    }
  }
}
