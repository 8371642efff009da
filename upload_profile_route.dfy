/** The `POST /api/upload/profile` route handler: the checks on the uploaded
    form entry, the name the image is saved under and the url returned. The
    clock reading and whether reading and writing the file succeed are
    inputs; the directory and file operations themselves are not modelled. */
module UploadProfileRoute {
  import opened Wrappers
  import opened JsText
  import opened Browser

  /** What `data.get('file')` gives: nothing, a text field, or a file. */
  datatype FormEntry = NoEntry | TextEntry(text: string) | FileEntry(file: File)

  /** What `request.formData()` came to. */
  datatype FormResult = Parsed(entry: FormEntry) | Unparsable

  /** The JSON body of the response. */
  datatype Body = ErrorBody(error: string) | UrlBody(url: string)

  datatype Response = Response(status: nat, body: Body)

  const MaxSize: nat := 5 * 1024 * 1024

  /** `file.name.split('.').pop()` */
  function Extension(name: string): string {
    LastPiece(name, '.')
  }

  /** `profile-${timestamp}.${extension}` */
  function SavedFilename(timestamp: nat, name: string): string {
    "profile-" + IntToDecimal(timestamp) + "." + Extension(name)
  }

  /** `/uploads/profiles/${filename}` */
  function PublicUrl(filename: string): string {
    "/uploads/profiles/" + filename
  }

  /** The handler. `timestamp` is `Date.now()`; `storageFails` says whether
      reading the upload or creating the directory or writing the file
      throws. Every exception ends in the 500 response. */
  function Post(form: FormResult, timestamp: nat, storageFails: bool): Response {
    match form
    case Unparsable => Response(500, ErrorBody("Upload failed"))
    case Parsed(entry) =>
      match entry
      case NoEntry => Response(400, ErrorBody("No file uploaded"))
      case TextEntry(text) =>
        // a text entry has no `type`, so reading `type.startsWith` throws
        if text == "" then Response(400, ErrorBody("No file uploaded"))
        else Response(500, ErrorBody("Upload failed"))
      case FileEntry(file) =>
        if !StartsWith(file.mimeType, "image/") then Response(400, ErrorBody("File must be an image"))
        else if file.size > MaxSize then Response(400, ErrorBody("File size must be less than 5MB"))
        else if storageFails then Response(500, ErrorBody("Upload failed"))
        else Response(200, UrlBody(PublicUrl(SavedFilename(timestamp, file.name))))
  }

  /** The checks run in order (presence, type, size, storage) and the first
      that fails decides the response. */
  lemma PostCheckOrder(form: FormResult, timestamp: nat, storageFails: bool)
    ensures form == Parsed(NoEntry) ==> Post(form, timestamp, storageFails) == Response(400, ErrorBody("No file uploaded"))
    ensures form.Parsed? && form.entry.FileEntry? && !StartsWith(form.entry.file.mimeType, "image/")
            ==> Post(form, timestamp, storageFails) == Response(400, ErrorBody("File must be an image"))
    ensures form.Parsed? && form.entry.FileEntry? && StartsWith(form.entry.file.mimeType, "image/")
            && form.entry.file.size > MaxSize
            ==> Post(form, timestamp, storageFails) == Response(400, ErrorBody("File size must be less than 5MB"))
    ensures form.Parsed? && form.entry.FileEntry? && StartsWith(form.entry.file.mimeType, "image/")
            && form.entry.file.size <= MaxSize && storageFails
            ==> Post(form, timestamp, storageFails) == Response(500, ErrorBody("Upload failed"))
    ensures form.Unparsable? ==> Post(form, timestamp, storageFails) == Response(500, ErrorBody("Upload failed"))
  {
  }

  /** A url is returned exactly for an image file of at most 5 MiB that is
      stored; every other outcome is a 400 or a 500 error. */
  lemma PostSucceedsIff(form: FormResult, timestamp: nat, storageFails: bool)
    ensures Post(form, timestamp, storageFails).body.UrlBody?
        <==> form.Parsed? && form.entry.FileEntry? && StartsWith(form.entry.file.mimeType, "image/")
             && form.entry.file.size <= MaxSize && !storageFails
    ensures Post(form, timestamp, storageFails).body.UrlBody? <==> Post(form, timestamp, storageFails).status == 200
    ensures Post(form, timestamp, storageFails).status in {200, 400, 500}
  {
  }

  /** The size limit is inclusive: a file of exactly 5 MiB passes the check
      and one byte more fails it. */
  lemma SizeBoundary(name: string, mimeType: string, timestamp: nat)
    requires StartsWith(mimeType, "image/")
    ensures Post(Parsed(FileEntry(File(name, mimeType, MaxSize))), timestamp, false).status == 200
    ensures Post(Parsed(FileEntry(File(name, mimeType, MaxSize + 1))), timestamp, false)
         == Response(400, ErrorBody("File size must be less than 5MB"))
  {
  }

  /** The extension is the text after the last `.`, or the whole name when
      it has none. */
  lemma ExtensionIsAfterLastDot(name: string)
    ensures '.' !in Extension(name)
    ensures '.' !in name ==> Extension(name) == name
    ensures '.' in name ==> exists k :: 0 <= k < |name| && name[k] == '.' && Extension(name) == name[k + 1..]
  {
    LastPieceIsTail(name, '.');
    if '.' in name {
      var k := |name| - |Extension(name)| - 1;
      assert name[k] == '.' && Extension(name) == name[k + 1..];
    }
  }

  /** The last piece of text ending in a separator and a separator-free tail
      is that tail. */
  lemma {:induction false} LastPieceAfterSeparator(a: string, b: string, sep: char)
    requires sep !in b
    ensures LastPiece(a + [sep] + b, sep) == b
  {
    var s := a + [sep] + b;
    if a == [] {
      assert s == [sep] + b && s[1..] == b;
      SplitJoin([b], sep);
      assert Join([b], sep) == b;
    } else {
      assert s[1..] == a[1..] + [sep] + b;
      LastPieceAfterSeparator(a[1..], b, sep);
      var rest := Split(s[1..], sep);
      SplitCountsSeparators(s[1..], sep);
      assert s[1..][|a| - 1] == sep;
      assert |rest| >= 2;
    }
  }

  /** The saved file keeps the uploaded file's extension, and the url names
      the saved file under the public profiles directory: the url's own
      extension is the upload's. */
  lemma SavedNameKeepsExtension(timestamp: nat, name: string)
    ensures Extension(SavedFilename(timestamp, name)) == Extension(name)
    ensures Extension(PublicUrl(SavedFilename(timestamp, name))) == Extension(name)
    ensures StartsWith(PublicUrl(SavedFilename(timestamp, name)), "/uploads/profiles/profile-")
  {
    ExtensionIsAfterLastDot(name);
    var stem := "profile-" + IntToDecimal(timestamp);
    assert SavedFilename(timestamp, name) == stem + ['.'] + Extension(name);
    LastPieceAfterSeparator(stem, Extension(name), '.');
    assert PublicUrl(SavedFilename(timestamp, name)) == ("/uploads/profiles/" + stem) + ['.'] + Extension(name);
    LastPieceAfterSeparator("/uploads/profiles/" + stem, Extension(name), '.');
    var url := PublicUrl(SavedFilename(timestamp, name));
    assert url[..|"/uploads/profiles/profile-"|] == "/uploads/profiles/profile-";
  }

  /** Reads the timestamp back from a saved name: the text between
      `profile-` and the last `.`. */
  function TimestampOf(filename: string): Option<int> {
    var ext := LastPiece(filename, '.');
    if StartsWith(filename, "profile-") && |filename| >= 8 + |ext| + 1 then
      ParseInt(filename[8..|filename| - |ext| - 1])
    else None
  }

  /** The saved name records the timestamp it was made with. */
  lemma SavedNameRecordsTime(timestamp: nat, name: string)
    ensures TimestampOf(SavedFilename(timestamp, name)) == Some(timestamp)
  {
    var e := Extension(name);
    ExtensionIsAfterLastDot(name);
    var d := IntToDecimal(timestamp);
    var stem := "profile-" + d;
    var f := SavedFilename(timestamp, name);
    assert f == stem + ['.'] + e;
    LastPieceAfterSeparator(stem, e, '.');
    assert f[..8] == "profile-";
    assert f[8..|f| - |e| - 1] == d;
    IntDecimalRoundTrip(timestamp);
  }

  /** Uploads at different times are saved under different names. */
  lemma SavedNamesDifferByTime(t1: nat, t2: nat, name: string)
    requires t1 != t2
    ensures SavedFilename(t1, name) != SavedFilename(t2, name)
  {
    SavedNameRecordsTime(t1, name);
    SavedNameRecordsTime(t2, name);
  }
}
