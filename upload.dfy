/** POST /upload/:type: a multipart request carrying one image under the
    field `image`. The multer middleware rejects an unexpected field, a
    type outside the allow-list, a directory it cannot write to and a file
    over 5 MiB; a request with no file is rejected by the handler. An
    accepted file is stored as `<timestamp>-<random>.<ext>` under
    `uploads/<type>/` and answered with its URL. The clock, the random
    number and the existence of the directory are parameters. */
module Upload {
  import opened Common
  import opened Js

  /** One file part of the multipart body, as multer describes it. */
  datatype FilePart = FilePart(field: string, originalName: string, mimeType: string, size: nat)

  /** Why an upload is answered 400. */
  datatype Rejection = UnexpectedField | InvalidType | StorageFailed | TooLarge | NoFile

  /** The answer: 200 with `{url}`, or 400 with `{error}`, the text of the
      rejection when it has one. */
  datatype UploadReply = Uploaded(url: Url) | BadRequest(reason: Rejection, error: Option<string>)

  /** The outcome of reading the parts: the one accepted file, if any, or
      the error that aborted the request. */
  datatype Received = Accepted(file: Option<FilePart>) | Rejected(reason: Rejection)

  /** `limits.fileSize`: 5 MiB. */
  const MaxFileSize: nat := 5 * 1024 * 1024

  /** `allowedTypes` of `fileFilter`. */
  const AllowedTypes: set<string> := {"image/jpeg", "image/png", "image/webp"}

  /** The `error` text of a 400 answer; a storage failure reports the
      file system's own message, which is not part of this model. */
  function Message(r: Rejection): Option<string> {
    match r
    case UnexpectedField => Some("Unexpected field")
    case InvalidType => Some("Invalid file type. Only JPEG, PNG and WebP are allowed.")
    case StorageFailed => None
    case TooLarge => Some("File too large")
    case NoFile => Some("No file uploaded")
  }

  /** A file part that passes every check of `Receive`: the field, the
      type, the directory and the size. */
  predicate Acceptable(p: FilePart, dirExists: bool) {
    p.field == "image" && p.mimeType in AllowedTypes && dirExists && p.size <= MaxFileSize
  }

  /** `upload.single('image')` reading the file parts in order: a part under
      another field, or a second `image` part, is unexpected; then the
      `fileFilter` allow-list; then the disk storage, which fails when
      `uploads/<type>` does not exist; then the size limit, which a file
      reaching exactly 5 MiB does not exceed. The first error aborts. Read
      from the start (`got` empty), a request yields a file exactly when it
      has a single part that passes every check, and that part is the file;
      it yields none exactly when it has no part; a second part after an
      acceptable first one is unexpected. */
  function Receive(parts: seq<FilePart>, dirExists: bool, got: Option<FilePart>): (r: Received)
    ensures r.Accepted? <==>
      parts == [] || (got.None? && |parts| == 1 && Acceptable(parts[0], dirExists))
    ensures r.Accepted? ==> r.file == if parts == [] then got else Some(parts[0])
    ensures r.Rejected? && got.None? && parts != [] && Acceptable(parts[0], dirExists) ==>
      r.reason == UnexpectedField
    decreases |parts|
  {
    if parts == [] then Accepted(got)
    else
      var p := parts[0];
      if p.field != "image" || got.Some? then Rejected(UnexpectedField)
      else if p.mimeType !in AllowedTypes then Rejected(InvalidType)
      else if !dirExists then Rejected(StorageFailed)
      else if p.size > MaxFileSize then Rejected(TooLarge)
      else Receive(parts[1..], dirExists, Some(p))
  }

  /** The `filename` callback: `Date.now()`, a dash, the rounded random
      number, a dot and the text after the last '.' of the original name. */
  function StoredFilename(timestamp: nat, random: nat, originalName: string): string {
    DecimalString(timestamp) + "-" + DecimalString(random) + "." + AfterLast(originalName, '.')
  }

  /** The URL of a stored file: `<protocol>://<host>/uploads/<type>/<filename>`.
      Its last path segment is the file name whenever that has no '/'. */
  function FileUrl(protocol: string, host: string, kind: string, filename: string): (url: Url)
    ensures '/' !in filename ==> AfterLast(url, '/') == filename
  {
    var dir := protocol + "://" + host + "/uploads/" + kind;
    if '/' !in filename then AfterLastJoined(dir, '/', filename); dir + "/" + filename
    else dir + "/" + filename
  }

  /** The upload endpoint: a rejection, or no file, is a 400; an accepted
      file is answered with the URL of its stored name. A single image part
      of a type outside the allow-list is refused with the allow-list's
      text. */
  function UploadHandler(protocol: string, host: string, kind: string, dirExists: bool,
                         parts: seq<FilePart>, timestamp: nat, random: nat): (r: UploadReply)
    ensures r.Uploaded? <==> |parts| == 1 && Acceptable(parts[0], dirExists)
    ensures r.Uploaded? ==>
      r.url == FileUrl(protocol, host, kind, StoredFilename(timestamp, random, parts[0].originalName))
    ensures parts == [] ==> r == BadRequest(NoFile, Some("No file uploaded"))
    ensures r.BadRequest? ==> r.error == Message(r.reason)
    ensures parts != [] && parts[0].field == "image" && parts[0].mimeType !in AllowedTypes ==>
      r == BadRequest(InvalidType, Some("Invalid file type. Only JPEG, PNG and WebP are allowed."))
  {
    match Receive(parts, dirExists, None)
    case Rejected(reason) => BadRequest(reason, Message(reason))
    case Accepted(None) => BadRequest(NoFile, Message(NoFile))
    case Accepted(Some(f)) =>
      Uploaded(FileUrl(protocol, host, kind, StoredFilename(timestamp, random, f.originalName)))
  }

  /** The three parts of a stored file name. */
  datatype StoredName = StoredName(timestamp: nat, random: nat, ext: string)

  /** The position of the first `c` in `s`, or `|s|` when there is none. */
  function IndexOf(s: string, c: char): (i: nat)
    ensures i <= |s|
    ensures forall k :: 0 <= k < i ==> s[k] != c
    ensures i < |s| ==> s[i] == c
  {
    if s == [] then 0
    else if s[0] == c then 0
    else 1 + IndexOf(s[1..], c)
  }

  /** Reads a stored file name back: the digits before the first '-', the
      digits between it and the next '.', and the rest. */
  function ParseStoredName(f: string): Option<StoredName> {
    var d := IndexOf(f, '-');
    if d == |f| then None
    else
      var rest := f[d + 1..];
      var e := IndexOf(rest, '.');
      if e == |rest| then None
      else
        var ts := f[..d];
        var rn := rest[..e];
        if ts == [] || rn == [] || !AllDigits(ts) || !AllDigits(rn) then None
        else Some(StoredName(DecimalValue(ts), DecimalValue(rn), rest[e + 1..]))
  }

  /** A separator that occurs nowhere in `p` is first found right after it. */
  lemma IndexAfter(p: string, c: char, r: string)
    requires forall k :: 0 <= k < |p| ==> p[k] != c
    ensures IndexOf(p + [c] + r, c) == |p|
  {
    var s := p + [c] + r;
    assert s[|p|] == c;
    assert forall k :: 0 <= k < |p| ==> s[k] == p[k];
  }

  /** A name of the stored shape is read back into its three parts. */
  lemma ParseJoined(ts: string, rn: string, ext: string)
    requires ts != [] && rn != [] && AllDigits(ts) && AllDigits(rn)
    ensures ParseStoredName(ts + "-" + rn + "." + ext)
         == Some(StoredName(DecimalValue(ts), DecimalValue(rn), ext))
  {
    var tail := rn + ['.'] + ext;
    var f := ts + ['-'] + tail;
    assert ts + "-" + rn + "." + ext == f;
    IndexAfter(ts, '-', tail);
    assert f[|ts| + 1..] == tail;
    assert f[..|ts|] == ts;
    IndexAfter(rn, '.', ext);
    assert tail[..|rn|] == rn;
    assert tail[|rn| + 1..] == ext;
  }

  /** The stored name determines the timestamp, the random number and the
      extension it was built from. */
  lemma StoredFilenameRoundTrip(timestamp: nat, random: nat, originalName: string)
    ensures ParseStoredName(StoredFilename(timestamp, random, originalName))
         == Some(StoredName(timestamp, random, AfterLast(originalName, '.')))
  {
    ParseJoined(DecimalString(timestamp), DecimalString(random), AfterLast(originalName, '.'));
    DecimalRoundTrip(timestamp);
    DecimalRoundTrip(random);
  }

  /** The stored name keeps the original extension. */
  lemma StoredFilenameKeepsExtension(timestamp: nat, random: nat, originalName: string)
    ensures AfterLast(StoredFilename(timestamp, random, originalName), '.') == AfterLast(originalName, '.')
  {
    var ext := AfterLast(originalName, '.');
    assert StoredFilename(timestamp, random, originalName)
        == (DecimalString(timestamp) + "-" + DecimalString(random)) + ['.'] + ext;
    AfterLastJoined(DecimalString(timestamp) + "-" + DecimalString(random), '.', ext);
  }

  /** A stored name has no '/' unless the original name had one. */
  lemma StoredFilenameNoSlash(timestamp: nat, random: nat, originalName: string)
    requires '/' !in originalName
    ensures '/' !in StoredFilename(timestamp, random, originalName)
  {
    var ts := DecimalString(timestamp);
    var rn := DecimalString(random);
    var ext := AfterLast(originalName, '.');
    assert '/' !in ts by { assert forall k :: 0 <= k < |ts| ==> ts[k] != '/'; }
    assert '/' !in rn by { assert forall k :: 0 <= k < |rn| ==> rn[k] != '/'; }
    assert '/' !in ext by { assert forall c :: c in ext ==> c in originalName; }
    assert StoredFilename(timestamp, random, originalName) == ts + "-" + rn + "." + ext;
  }

  /** The URL answered for an accepted upload ends in the stored file name,
      from which the timestamp, the random number and the extension can be
      read back (the original name, as multer reports it, has no '/'). */
  lemma UploadedUrlNamesFile(protocol: string, host: string, kind: string, dirExists: bool,
                             parts: seq<FilePart>, timestamp: nat, random: nat)
    requires forall p :: p in parts ==> '/' !in p.originalName
    ensures var r := UploadHandler(protocol, host, kind, dirExists, parts, timestamp, random);
      r.Uploaded? ==>
        ParseStoredName(AfterLast(r.url, '/'))
        == Some(StoredName(timestamp, random, AfterLast(parts[0].originalName, '.')))
  {
    if |parts| == 1 {
      var name := parts[0].originalName;
      assert parts[0] in parts;
      StoredFilenameNoSlash(timestamp, random, name);
      StoredFilenameRoundTrip(timestamp, random, name);
    }
  }
}
