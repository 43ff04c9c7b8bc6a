/**
 * The browser-side uploader of public/admin/js/file-upload.js: a file is
 * checked against the size bound and the type list, then sent with the
 * stored token as a bearer token; a batch uploads its files one after the
 * other and records one entry per file; the drop zone refuses several files
 * when it takes only one.
 */
module FileUpload {

  import opened Js
  import opened Auth

  /** A browser `File`: its name, size in bytes and MIME type. */
  datatype BrowserFile = BrowserFile(name: string, size: nat, mimeType: string)

  /** The form the uploader sends: the file, the folder when one is given, and the Authorization header. */
  datatype Request = Request(endpoint: string, authorization: string, file: BrowserFile, folder: Option<string>)

  /** What the server does with a request: it answers with a status and a JSON body, or the network fails. */
  datatype Reply = Loaded(status: int, body: Doc) | NetworkError

  /** How `uploadFile` settles. */
  datatype Outcome = Resolved(response: Doc) | Rejected(message: string)

  /** Why `validateFile` throws. */
  datatype Invalid = TooLarge | TypeNotAllowed(mimeType: string)

  /** `500 * 1024 * 1024` */
  const DefaultMaxSize := 500 * 1024 * 1024

  const DefaultAllowedTypes: seq<string> := [
    "image/jpeg", "image/jpg", "image/png", "image/gif", "image/webp",
    "audio/mpeg", "audio/mp3", "audio/wav", "audio/m4a", "audio/x-m4a", "audio/mp4", "audio/ogg",
    "video/mp4", "video/mov", "video/avi", "video/webm"]

  const AuthRequired := "Authentication required. Please log in."

  /** The message of a validation error (the size bound is given in words by a formatter not modelled here). */
  function InvalidMessage(e: Invalid): string {
    match e
    case TooLarge => "File size exceeds maximum allowed size"
    case TypeNotAllowed(t) => "File type " + t + " is not allowed"
  }

  /** One entry of `uploadFiles`: `{ file: name, success, result }` or `{ file: name, success: false, error }`. */
  datatype Entry = Entry(file: string, success: bool, result: Option<Doc>, error: Option<string>)

  function EntryOf(f: BrowserFile, o: Outcome): (e: Entry)
    ensures e.file == f.name && (e.success <==> o.Resolved?)
  {
    match o
    case Resolved(d) => Entry(f.name, true, Some(d), None)
    case Rejected(m) => Entry(f.name, false, None, Some(m))
  }

  class FileUploader {
    const endpoint: string
    const maxSize: int
    const allowedTypes: seq<string>
    /** Whether an `onProgress` callback is installed. */
    var onProgress: bool

    /** `new FileUploader(options)`: the defaults, overridden by the options given. */
    constructor(endpointOption: Option<string>, maxSizeOption: Option<int>, allowedTypesOption: Option<seq<string>>)
      ensures endpoint == if endpointOption.Some? then endpointOption.value else "/api/upload"
      ensures maxSize == if maxSizeOption.Some? then maxSizeOption.value else DefaultMaxSize
      ensures allowedTypes == if allowedTypesOption.Some? then allowedTypesOption.value else DefaultAllowedTypes
      ensures !onProgress
    {
      endpoint := if endpointOption.Some? then endpointOption.value else "/api/upload";
      maxSize := if maxSizeOption.Some? then maxSizeOption.value else DefaultMaxSize;
      allowedTypes := if allowedTypesOption.Some? then allowedTypesOption.value else DefaultAllowedTypes;
      onProgress := false;
    }

    /** `validateFile(file)`: the size bound first, then the type list; an empty list allows any type. */
    function ValidateFile(f: BrowserFile): (r: Option<Invalid>)
      reads this
      ensures r.None? <==> f.size <= maxSize && (|allowedTypes| == 0 || f.mimeType in allowedTypes)
      ensures f.size > maxSize ==> r == Some(TooLarge)
      ensures f.size <= maxSize && r.Some? ==> r == Some(TypeNotAllowed(f.mimeType))
    {
      if f.size > maxSize then Some(TooLarge)
      else if |allowedTypes| > 0 && f.mimeType !in allowedTypes then Some(TypeNotAllowed(f.mimeType))
      else None
    }

    /** The request `uploadFile` sends, if it gets that far: none for an invalid file or a missing token. */
    function RequestFor(f: BrowserFile, folder: Option<string>, token: Option<string>): (q: Option<Request>)
      reads this
      ensures q.Some? <==> ValidateFile(f).None? && Present(token)
      ensures q.Some? ==> q.value == Request(endpoint, "Bearer " + token.value, f, if Present(folder) then folder else None)
    {
      if ValidateFile(f).Some? then None
      else if !Present(token) then None
      else Some(Request(endpoint, "Bearer " + token.value, f, if Present(folder) then folder else None))
    }

    /**
     * `uploadFile(file, folder)`. `token` is the stored `auth_token`; `reply`
     * is what the server does with the request, if one is sent.
     */
    function UploadFile(f: BrowserFile, folder: Option<string>, token: Option<string>, reply: Reply): (o: Outcome)
      reads this
      ensures ValidateFile(f).Some? ==> o == Rejected(InvalidMessage(ValidateFile(f).value))
      ensures ValidateFile(f).None? && !Present(token) ==> o == Rejected(AuthRequired)
      ensures o.Resolved? <==> RequestFor(f, folder, token).Some? && reply.Loaded? && reply.status == 200
      ensures o.Resolved? ==> o.response == reply.body
    {
      match ValidateFile(f)
      case Some(e) => Rejected(InvalidMessage(e))
      case None =>
        if !Present(token) then Rejected(AuthRequired)
        else
          match reply
          case NetworkError => Rejected("Network error during upload")
          case Loaded(status, body) =>
            if status == 200 then Resolved(body)
            else
              var err := Field(body, "error");
              Rejected(if Truthy(err) && err.Str? then err.s else "Upload failed")
    }

    /** `uploadFiles(files, folder)`: one entry per file, in order; `replies(i)` answers the `i`-th file's request. */
    method UploadFiles(files: seq<BrowserFile>, folder: Option<string>, token: Option<string>, replies: nat -> Reply)
      returns (results: seq<Entry>)
      ensures |results| == |files|
      ensures forall i :: 0 <= i < |files| ==>
        results[i] == EntryOf(files[i], UploadFile(files[i], folder, token, replies(i)))
    {
      results := [];
      var i := 0;
      while i < |files|
        invariant 0 <= i <= |files| && |results| == i
        invariant forall j :: 0 <= j < i ==>
          results[j] == EntryOf(files[j], UploadFile(files[j], folder, token, replies(j)))
      {
        var outcome := UploadFile(files[i], folder, token, replies(i));
        results := results + [EntryOf(files[i], outcome)];
        i := i + 1;
      }
    }
  }

  /** An invalid file is rejected for what is wrong with it, token or not, and nothing is sent. */
  lemma ValidationFirst(u: FileUploader, f: BrowserFile, folder: Option<string>, t1: Option<string>, t2: Option<string>, r1: Reply, r2: Reply)
    requires u.ValidateFile(f).Some?
    ensures u.UploadFile(f, folder, t1, r1) == u.UploadFile(f, folder, t2, r2)
    ensures u.RequestFor(f, folder, t1).None?
  {
  }

  /** Without a token no request is sent: the server's behaviour cannot matter. */
  lemma NoTokenNoRequest(u: FileUploader, f: BrowserFile, folder: Option<string>, token: Option<string>, r1: Reply, r2: Reply)
    requires !Present(token)
    ensures u.RequestFor(f, folder, token).None?
    ensures u.UploadFile(f, folder, token, r1) == u.UploadFile(f, folder, token, r2)
  {
  }

  /** A file exactly at the size bound passes the size check. */
  lemma SizeBoundInclusive(u: FileUploader, f: BrowserFile)
    requires f.size == u.maxSize && (|u.allowedTypes| == 0 || f.mimeType in u.allowedTypes)
    ensures u.ValidateFile(f).None?
  {
  }

  /** The header the uploader sends passes the server's bearer check and carries the stored token. */
  lemma SentHeaderIsBearer(u: FileUploader, f: BrowserFile, folder: Option<string>, token: Option<string>)
    requires u.RequestFor(f, folder, token).Some? && ' ' !in token.value
    ensures var h := u.RequestFor(f, folder, token).value.authorization;
      IsBearer(Some(h)) && Token(h) == token.value
  {
    var h := "Bearer " + token.value;
    assert h[..7] == BearerPrefix;
    TokenAfterPrefix(token.value, "");
  }

  /** What the drop zone does with a selection. */
  datatype Handled =
    /** `alert('Please select only one file')`: nothing is uploaded. */
    | Refused
    | Single(outcome: Outcome)
    | Batch(results: seq<Entry>)

  /**
   * `handleFiles(files)` of the drop zone. One file goes through
   * `uploadFile` with a progress callback installed; any other number,
   * unless `maxFiles === 1` refuses it, goes through `uploadFiles`.
   */
  method HandleFiles(
    u: FileUploader, files: seq<BrowserFile>, maxFiles: int, folder: Option<string>,
    token: Option<string>, replies: nat -> Reply) returns (h: Handled)
    modifies u
    ensures maxFiles == 1 && |files| > 1 ==> h == Refused && u.onProgress == old(u.onProgress)
    ensures |files| == 1 ==> h == Single(u.UploadFile(files[0], folder, token, replies(0))) && u.onProgress
    ensures |files| != 1 && !(maxFiles == 1 && |files| > 1) ==>
      h.Batch? && |h.results| == |files| && u.onProgress == old(u.onProgress) &&
      forall i :: 0 <= i < |files| ==> h.results[i] == EntryOf(files[i], u.UploadFile(files[i], folder, token, replies(i)))
  {
    if maxFiles == 1 && |files| > 1 {
      return Refused;
    }
    if |files| == 1 {
      u.onProgress := true;
      return Single(u.UploadFile(files[0], folder, token, replies(0)));
    }
    var results := u.UploadFiles(files, folder, token, replies);
    h := Batch(results);
  }
}
