/**
 * The storage upload routes of server/routes/upload.js: the multer file
 * filter, the bucket choice, the generated object name, the single and
 * multiple upload handlers and the argument check of DELETE. The storage
 * service is a function parameter: it reports whether the object was
 * written, and the public URL of an object is another parameter.
 */
module Upload {

  import opened Js
  import opened Strings

  // ---------------------------------------------------------------------
  // Node's path.basename and path.extname (POSIX)

  function StripTrailingSlashes(p: string): (r: string)
    ensures r <= p
    ensures |r| > 0 ==> r[|r| - 1] != '/'
    ensures forall i :: |r| <= i < |p| ==> p[i] == '/'
  {
    if |p| > 0 && p[|p| - 1] == '/' then StripTrailingSlashes(p[..|p| - 1]) else p
  }

  /** `path.basename(p)`: the last segment, trailing slashes ignored. */
  function BaseName(p: string): (b: string)
    ensures '/' !in b
    ensures EndsWith(StripTrailingSlashes(p), b)
  {
    var q := StripTrailingSlashes(p);
    match LastIndexOf(q, '/')
    case None => q
    case Some(i) => q[i + 1..]
  }

  /**
   * The extension of a last segment as `path.extname` reports it: from the
   * last dot on, unless there is no dot, the only dot is the first
   * character (`.bashrc`), or the segment is `..`.
   */
  function ExtOf(b: string): (e: string)
    ensures e == "" || (e[0] == '.' && '.' !in e[1..] && 0 < |e| < |b| && EndsWith(b, e))
    ensures '/' !in b ==> '/' !in e
  {
    match LastIndexOf(b, '.')
    case None => ""
    case Some(d) =>
      if d == 0 || b == ".." then ""
      else
        assert forall j :: 0 <= j < |b[d..]| - 1 ==> b[d..][1..][j] == b[d + 1 + j];
        b[d..]
  }

  /** `path.extname(p)` */
  function ExtName(p: string): (e: string)
    ensures e == "" || (e[0] == '.' && '.' !in e[1..] && '/' !in e && EndsWith(BaseName(p), e))
  {
    ExtOf(BaseName(p))
  }

  /** `path.basename(p, path.extname(p))`: the last segment without its extension. */
  function Stem(p: string): (s: string)
    ensures s + ExtName(p) == BaseName(p)
  {
    var b := BaseName(p);
    var e := ExtOf(b);
    assert e == "" || EndsWith(b, e);
    assert b[..|b| - |e|] + e == b;
    b[..|b| - |e|]
  }

  // ---------------------------------------------------------------------
  // Bucket choice

  const ImageExts: seq<string> := [".jpg", ".jpeg", ".png", ".gif", ".webp"]
  const AudioExts: seq<string> := [".mp3", ".wav", ".m4a", ".ogg"]
  const VideoExts: seq<string> := [".mp4", ".mov", ".avi", ".webm"]

  const Buckets: set<string> := {"images", "sermons-audio", "sermons-video"}

  /** A MIME type with one of the three prefixes that decide the bucket. */
  predicate MediaMime(m: string) {
    StartsWith(m, "image/") || StartsWith(m, "audio/") || StartsWith(m, "video/")
  }

  lemma MimePrefixesDisjoint(m: string)
    ensures !(StartsWith(m, "image/") && StartsWith(m, "audio/"))
    ensures !(StartsWith(m, "image/") && StartsWith(m, "video/"))
    ensures !(StartsWith(m, "audio/") && StartsWith(m, "video/"))
  {
    if StartsWith(m, "image/") { assert m[0] == 'i'; }
    if StartsWith(m, "audio/") { assert m[0] == 'a'; }
  }

  /** The extension fallback of getBucketForFile, on the lower-cased extension. */
  function ExtensionBucket(ext: string): (bucket: string)
    ensures bucket == "sermons-audio" <==> ext in AudioExts
    ensures bucket == "sermons-video" <==> ext in VideoExts
    ensures bucket == "images" <==> ext !in AudioExts && ext !in VideoExts
  {
    if ext in ImageExts then "images"
    else if ext in AudioExts then "sermons-audio"
    else if ext in VideoExts then "sermons-video"
    else "images"
  }

  /** `getBucketForFile(mimetype, originalname)` */
  function GetBucketForFile(mimetype: string, originalName: string): (bucket: string)
    ensures bucket in Buckets
    ensures StartsWith(mimetype, "image/") ==> bucket == "images"
    ensures StartsWith(mimetype, "audio/") ==> bucket == "sermons-audio"
    ensures StartsWith(mimetype, "video/") ==> bucket == "sermons-video"
    ensures !MediaMime(mimetype) ==>
      var ext := LowerString(ExtName(originalName));
      (bucket == "sermons-audio" <==> ext in AudioExts) &&
      (bucket == "sermons-video" <==> ext in VideoExts) &&
      (bucket == "images" <==> ext !in AudioExts && ext !in VideoExts)
  {
    MimePrefixesDisjoint(mimetype);
    if StartsWith(mimetype, "image/") then "images"
    else if StartsWith(mimetype, "audio/") then "sermons-audio"
    else if StartsWith(mimetype, "video/") then "sermons-video"
    else ExtensionBucket(LowerString(ExtName(originalName)))
  }

  // ---------------------------------------------------------------------
  // Object names

  /** `name.replace(/[^a-z0-9]/gi, '_').toLowerCase()` */
  function CleanName(name: string): (r: string)
    ensures |r| == |name|
    ensures forall i :: 0 <= i < |r| ==> r[i] == if IsAlnum(name[i]) then Lower(name[i]) else '_'
    ensures forall i :: 0 <= i < |r| ==> IsLower(r[i]) || IsDigit(r[i]) || r[i] == '_'
  {
    LowerString(ReplaceNonAlnum(name))
  }

  /** The characters of `Math.random().toString(36).substring(2, 15)`. */
  predicate RandomSuffix(rnd: string) {
    forall i :: 0 <= i < |rnd| ==> IsLower(rnd[i]) || IsDigit(rnd[i])
  }

  /**
   * `generateFileName(originalname, prefix)` with the clock reading `now`
   * and the random suffix `rnd`.
   */
  function GenerateFileName(originalName: string, prefix: string, now: nat, rnd: string): (r: string)
    ensures StartsWith(r, prefix) && EndsWith(r, ExtName(originalName))
    ensures |r| > |prefix| + |ExtName(originalName)|
  {
    var core := NameCore(originalName, now, rnd);
    assert |core| >= 2;
    ConcatEnds(prefix, core, ExtName(originalName));
    prefix + NameBody(originalName, now, rnd)
  }

  /** A generated name after its prefix: `${cleanName}_${timestamp}_${random}${ext}`. */
  function NameBody(originalName: string, now: nat, rnd: string): string {
    NameCore(originalName, now, rnd) + ExtName(originalName)
  }

  lemma ConcatEnds(prefix: string, core: string, e: string)
    ensures StartsWith(prefix + (core + e), prefix) && EndsWith(prefix + (core + e), e)
  {
    assert (prefix + (core + e))[|prefix| + |core|..] == e;
  }

  /** The part of a generated name between its prefix and its extension. */
  function NameCore(originalName: string, now: nat, rnd: string): string {
    CleanName(Stem(originalName)) + "_" + NatToDecimal(now) + "_" + rnd
  }

  /** A prefix under which the generated name is the last path segment. */
  predicate FolderPrefix(prefix: string) {
    prefix == "" || prefix[|prefix| - 1] == '/'
  }

  lemma CleanNameIsPlain(name: string)
    ensures '.' !in CleanName(name) && '/' !in CleanName(name)
  {
  }

  lemma DecimalIsPlain(n: nat)
    ensures '.' !in NatToDecimal(n) && '/' !in NatToDecimal(n)
  {
  }

  lemma RandomIsPlain(rnd: string)
    requires RandomSuffix(rnd)
    ensures '.' !in rnd && '/' !in rnd
  {
  }

  lemma CoreHasNoSeparators(originalName: string, now: nat, rnd: string)
    requires RandomSuffix(rnd)
    ensures var core := NameCore(originalName, now, rnd);
      |core| >= 2 && core[0] != '.' && '.' !in core && '/' !in core
  {
    CleanNameIsPlain(Stem(originalName));
    DecimalIsPlain(now);
    RandomIsPlain(rnd);
    var core := NameCore(originalName, now, rnd);
    assert core[0] in core;
  }

  /** The last segment of `prefix + rest` is `rest` when `prefix` ends a folder. */
  lemma BaseNameAfterFolder(prefix: string, rest: string)
    requires FolderPrefix(prefix)
    requires |rest| > 0 && '/' !in rest
    ensures BaseName(prefix + rest) == rest
  {
    var p := prefix + rest;
    assert p[|p| - 1] == rest[|rest| - 1];
    assert StripTrailingSlashes(p) == p;
    if prefix == "" {
      assert p == rest;
    } else {
      var k := |prefix| - 1;
      assert p[k] == '/';
      assert forall j :: |prefix| <= j < |p| ==> p[j] == rest[j - |prefix|];
      assert p[k + 1..] == rest;
    }
  }

  /** The extension of `head + ext` is `ext` when `head` holds no dot. */
  lemma ExtOfAfterPlainHead(head: string, ext: string)
    requires |head| > 0 && '.' !in head && head[0] != '.'
    requires ext == "" || (ext[0] == '.' && '.' !in ext[1..])
    ensures ExtOf(head + ext) == ext
  {
    var b := head + ext;
    if ext == "" {
      assert b == head;
    } else {
      assert b[|head|] == '.';
      assert forall j :: |head| < j < |b| ==> b[j] == ext[1..][j - |head| - 1];
      assert b[0] == head[0];
      assert b[|head|..] == ext;
    }
  }

  /** A generated name keeps the extension of the original name. */
  lemma GeneratedNameKeepsExtension(originalName: string, prefix: string, now: nat, rnd: string)
    requires FolderPrefix(prefix) && RandomSuffix(rnd)
    ensures ExtName(GenerateFileName(originalName, prefix, now, rnd)) == ExtName(originalName)
  {
    var core, ext := NameCore(originalName, now, rnd), ExtName(originalName);
    CoreHasNoSeparators(originalName, now, rnd);
    assert '/' !in BaseName(originalName);
    assert '/' !in ext;
    BaseNameAfterFolder(prefix, core + ext);
    ExtOfAfterPlainHead(core, ext);
  }

  // ---------------------------------------------------------------------
  // The multer file filter

  /** The alternatives of `/jpeg|jpg|png|gif|webp|mp3|mpeg|wav|m4a|ogg|mp4|mov|avi|webm/`. */
  const TypeTokens: seq<string> :=
    ["jpeg", "jpg", "png", "gif", "webp", "mp3", "mpeg", "wav", "m4a", "ogg", "mp4", "mov", "avi", "webm"]

  /** The unanchored regex tests true on `s`. */
  predicate MentionsMediaType(s: string)
    ensures MentionsMediaType(s) ==> |s| >= 3
  {
    exists t | t in TypeTokens :: Contains(s, t)
  }

  const InvalidTypeMessage := "Invalid file type. Only images, audio, and video files are allowed."

  datatype Verdict = Accept | Reject(message: string)

  /** The `fileFilter`: the lower-cased extension or the lower-cased MIME type names a media type. */
  function FileFilter(originalName: string, mimetype: string): (v: Verdict)
    ensures v.Reject? ==> v.message == InvalidTypeMessage
  {
    if MentionsMediaType(LowerString(mimetype)) || MentionsMediaType(LowerString(ExtName(originalName)))
    then Accept
    else Reject(InvalidTypeMessage)
  }

  /** A token that occurs at position 1 of `e` is mentioned by `e`. */
  lemma MentionedAt(e: string, t: string)
    requires t in TypeTokens && |e| == |t| + 1 && e[1..] == t
    ensures MentionsMediaType(e)
  {
    assert OccursAt(e, t, 1);
  }

  /** The extensions of the three bucket lists each name a media type. */
  lemma BucketExtensionsMentionTypes(e: string)
    requires e in ImageExts + AudioExts + VideoExts
    ensures MentionsMediaType(e)
  {
    assert e in ImageExts || e in AudioExts || e in VideoExts;
    if e in ImageExts {
      if e == ".jpg" { MentionedAt(e, "jpg"); }
      else if e == ".jpeg" { MentionedAt(e, "jpeg"); }
      else if e == ".png" { MentionedAt(e, "png"); }
      else if e == ".gif" { MentionedAt(e, "gif"); }
      else { MentionedAt(e, "webp"); }
    } else if e in AudioExts {
      if e == ".mp3" { MentionedAt(e, "mp3"); }
      else if e == ".wav" { MentionedAt(e, "wav"); }
      else if e == ".m4a" { MentionedAt(e, "m4a"); }
      else { MentionedAt(e, "ogg"); }
    } else {
      if e == ".mp4" { MentionedAt(e, "mp4"); }
      else if e == ".mov" { MentionedAt(e, "mov"); }
      else if e == ".avi" { MentionedAt(e, "avi"); }
      else { MentionedAt(e, "webm"); }
    }
  }

  /** Every extension that picks a bucket passes the filter, whatever the MIME type says. */
  lemma BucketExtensionsAccepted(originalName: string, mimetype: string)
    requires LowerString(ExtName(originalName)) in ImageExts + AudioExts + VideoExts
    ensures FileFilter(originalName, mimetype) == Accept
  {
    BucketExtensionsMentionTypes(LowerString(ExtName(originalName)));
  }

  /** A string free of `c` contains no string that holds `c`. */
  lemma AbsentCharBlocks(s: string, t: string, k: nat)
    requires k < |t| && t[k] !in s
    ensures !Contains(s, t)
  {
  }

  /** Every token holds one of these letters among its first three characters. */
  const TokenLetters := "gjmovw"

  /** A string without any of the letters `g j m o v w` names no media type. */
  lemma NoTokenLetters(s: string)
    requires forall i :: 0 <= i < |s| ==> s[i] !in TokenLetters
    ensures !MentionsMediaType(s)
  {
    forall t | t in TypeTokens
      ensures !Contains(s, t)
    {
      var k := if t[0] in TokenLetters then 0 else if t[1] in TokenLetters then 1 else 2;
      AbsentCharBlocks(s, t, k);
    }
  }

  /** A string without upper-case letters is its own lower case. */
  lemma LowerOfLowerCase(s: string)
    requires forall i :: 0 <= i < |s| ==> !IsUpper(s[i])
    ensures LowerString(s) == s
  {
  }

  /** The extension of `stem.tail` when neither part holds a dot or a slash. */
  lemma DottedExtName(stem: string, tail: string)
    requires |stem| > 0 && '.' !in stem && '/' !in stem
    requires '.' !in tail && '/' !in tail
    ensures ExtName(stem + ("." + tail)) == "." + tail
  {
    var ext := "." + tail;
    assert stem[0] in stem;
    assert ext[1..] == tail;
    BaseNameAfterFolder("", stem + ext);
    assert "" + (stem + ext) == stem + ext;
    ExtOfAfterPlainHead(stem, ext);
  }

  /** The same, lower-cased, when `tail` has no upper-case letter. */
  lemma DottedExtension(stem: string, tail: string)
    requires |stem| > 0 && '.' !in stem && '/' !in stem
    requires '.' !in tail && '/' !in tail
    requires forall i :: 0 <= i < |tail| ==> !IsUpper(tail[i])
    ensures LowerString(ExtName(stem + "." + tail)) == "." + tail
  {
    DottedExtName(stem, tail);
    assert stem + "." + tail == stem + ("." + tail);
    LowerOfDotted(tail);
  }

  lemma LowerOfDotted(tail: string)
    requires forall i :: 0 <= i < |tail| ==> !IsUpper(tail[i])
    ensures LowerString("." + tail) == "." + tail
  {
    var ext := "." + tail;
    assert forall i :: 1 <= i < |ext| ==> ext[i] == tail[i - 1];
    LowerOfLowerCase(ext);
  }

  lemma OccursBetween(a: string, t: string, b: string)
    ensures OccursAt(a + t + b, t, |a|)
  {
    assert (a + t + b)[|a|..|a| + |t|] == t;
  }

  /**
   * The test is on substrings: an extension that merely contains a token is
   * accepted whatever the MIME type, as `.webmanifest` is for `webm`.
   */
  lemma SubstringMatchAccepts(stem: string, token: string, rest: string, mimetype: string)
    requires token in TypeTokens
    requires |stem| > 0 && '.' !in stem && '/' !in stem
    requires '.' !in rest && '/' !in rest && forall i :: 0 <= i < |rest| ==> !IsUpper(rest[i])
    ensures FileFilter(stem + "." + token + rest, mimetype) == Accept
  {
    TokenIsPlain(token);
    TokenInExtension(stem, token, rest);
    var e := "." + token + rest;
    assert Contains(e, token);
    assert MentionsMediaType(e);
  }

  lemma TokenIsPlain(token: string)
    requires token in TypeTokens
    ensures '.' !in token && '/' !in token && forall i :: 0 <= i < |token| ==> !IsUpper(token[i])
  {
  }

  /** The lower-cased extension of `stem.token rest` begins with `token`. */
  lemma TokenInExtension(stem: string, token: string, rest: string)
    requires |stem| > 0 && '.' !in stem && '/' !in stem
    requires '.' !in token && '/' !in token && forall i :: 0 <= i < |token| ==> !IsUpper(token[i])
    requires '.' !in rest && '/' !in rest && forall i :: 0 <= i < |rest| ==> !IsUpper(rest[i])
    ensures LowerString(ExtName(stem + "." + token + rest)) == "." + token + rest
    ensures OccursAt("." + token + rest, token, 1)
  {
    var tr := token + rest;
    assert stem + "." + token + rest == stem + "." + tr;
    assert "." + token + rest == "." + tr;
    OccursBetween(".", token, rest);
    assert forall j :: 0 <= j < |tr| ==> tr[j] == if j < |token| then token[j] else rest[j - |token|];
    DottedExtension(stem, tr);
  }

  /** A file whose extension and MIME type avoid the letters `g j m o v w` is rejected. */
  lemma NoTokenLettersRejected(originalName: string, mimetype: string)
    requires forall i :: 0 <= i < |ExtName(originalName)| ==> Lower(ExtName(originalName)[i]) !in TokenLetters
    requires forall i :: 0 <= i < |mimetype| ==> Lower(mimetype[i]) !in TokenLetters
    ensures FileFilter(originalName, mimetype).Reject?
  {
    NoTokenLetters(LowerString(ExtName(originalName)));
    NoTokenLetters(LowerString(mimetype));
  }

  // ---------------------------------------------------------------------
  // Handlers

  /** What multer parsed of one uploaded file. */
  datatype File = File(originalName: string, mimetype: string, size: nat)

  /** The storage service's answer to `upload(path, buffer)`. */
  datatype Stored = Written | StorageError(message: string) | StorageThrew(message: string)

  const NotConfigured := "Supabase not configured. Please check your environment variables."

  /** Where `POST /` puts a file: the given bucket or the chosen one, and the folder as a path prefix. */
  function SingleTarget(file: File, folder: Option<string>, bucket: Option<string>, now: nat, rnd: string): (t: (string, string))
    ensures Present(bucket) ==> t.0 == bucket.value
    ensures !Present(bucket) ==> t.0 == GetBucketForFile(file.mimetype, file.originalName)
    ensures Present(folder) ==> t.1 == folder.value + "/" + GenerateFileName(file.originalName, "", now, rnd)
    ensures !Present(folder) ==> t.1 == GenerateFileName(file.originalName, "", now, rnd)
  {
    var b := if Present(bucket) then bucket.value else GetBucketForFile(file.mimetype, file.originalName);
    var name := GenerateFileName(file.originalName, "", now, rnd);
    (b, if Present(folder) then folder.value + "/" + name else name)
  }

  /** `POST /`: one file into storage. */
  function UploadSingle(
    configured: bool, file: Option<File>, folder: Option<string>, bucket: Option<string>,
    now: nat, rnd: string,
    storage: (string, string) -> Stored, publicUrl: (string, string) -> string): (r: Response)
    ensures !configured ==> r == ErrorResponse(500, NotConfigured)
    ensures configured && file.None? ==> r == ErrorResponse(400, "No file provided")
    ensures r.status == 200 <==>
      configured && file.Some? &&
      var t := SingleTarget(file.value, folder, bucket, now, rnd); storage(t.0, t.1).Written?
    ensures r.status == 200 ==>
      var t := SingleTarget(file.value, folder, bucket, now, rnd);
      r.body == map["success" := Bool(true), "url" := Str(publicUrl(t.0, t.1)), "path" := Str(t.1),
                    "bucket" := Str(t.0), "size" := Num(file.value.size), "mimetype" := Str(file.value.mimetype)]
  {
    if !configured then ErrorResponse(500, NotConfigured)
    else if file.None? then ErrorResponse(400, "No file provided")
    else
      var f := file.value;
      var t := SingleTarget(f, folder, bucket, now, rnd);
      match storage(t.0, t.1)
      case StorageError(m) =>
        Response(500, map["error" := Str("Failed to upload file to Supabase"), "details" := Str(m)])
      case StorageThrew(m) =>
        Response(500, map["error" := Str("Failed to upload file"), "message" := Str(m)])
      case Written =>
        Response(200, map["success" := Bool(true), "url" := Str(publicUrl(t.0, t.1)), "path" := Str(t.1),
                          "bucket" := Str(t.0), "size" := Num(f.size), "mimetype" := Str(f.mimetype)])
  }

  /** The object path of a single upload keeps the original extension, folder or not. */
  lemma SinglePathKeepsExtension(file: File, folder: Option<string>, bucket: Option<string>, now: nat, rnd: string)
    requires RandomSuffix(rnd)
    ensures ExtName(SingleTarget(file, folder, bucket, now, rnd).1) == ExtName(file.originalName)
  {
    if Present(folder) {
      PrefixedName(file.originalName, folder.value + "/", now, rnd);
      GeneratedNameKeepsExtension(file.originalName, folder.value + "/", now, rnd);
    } else {
      GeneratedNameKeepsExtension(file.originalName, "", now, rnd);
    }
  }

  /** Putting a prefix before a name generated without one gives the name generated with it. */
  lemma PrefixedName(originalName: string, prefix: string, now: nat, rnd: string)
    ensures prefix + GenerateFileName(originalName, "", now, rnd) == GenerateFileName(originalName, prefix, now, rnd)
  {
    var body := NameBody(originalName, now, rnd);
    assert "" + body == body;
  }

  /** One file's entry in the results of `POST /multiple`. */
  datatype FileResult =
    | Uploaded(originalName: string, url: string, path: string, bucket: string, size: nat, mimetype: string)
    | NotUploaded(originalName: string, error: string)

  /** The bucket and path of each file of `POST /multiple`. */
  function MultipleTarget(file: File, folder: Option<string>, now: nat, rnd: string): (t: (string, string))
    ensures Present(folder) ==> t.0 == folder.value
    ensures !Present(folder) ==> t.0 == GetBucketForFile(file.mimetype, file.originalName)
  {
    var b := if Present(folder) then folder.value else GetBucketForFile(file.mimetype, file.originalName);
    (b, GenerateFileName(file.originalName, if Present(folder) then folder.value + "/" else "", now, rnd))
  }

  /**
   * In `POST /multiple` the folder is both the bucket and the path prefix,
   * and the path keeps the extension of the original name.
   */
  lemma MultipleTargetRule(file: File, folder: Option<string>, now: nat, rnd: string)
    requires RandomSuffix(rnd)
    ensures var t := MultipleTarget(file, folder, now, rnd);
      (Present(folder) ==> t.0 == folder.value && StartsWith(t.1, folder.value + "/")) &&
      (!Present(folder) ==> t.0 == GetBucketForFile(file.mimetype, file.originalName)) &&
      ExtName(t.1) == ExtName(file.originalName)
  {
    var prefix := if Present(folder) then folder.value + "/" else "";
    GeneratedNameKeepsExtension(file.originalName, prefix, now, rnd);
  }

  /** The result recorded for one file of `POST /multiple`. */
  function FileOutcome(
    file: File, folder: Option<string>, now: nat, rnd: string,
    storage: (string, string) -> Stored, publicUrl: (string, string) -> string): (r: FileResult)
    ensures r.originalName == file.originalName
    ensures r.Uploaded? <==> var t := MultipleTarget(file, folder, now, rnd); storage(t.0, t.1).Written?
  {
    var t := MultipleTarget(file, folder, now, rnd);
    match storage(t.0, t.1)
    case Written => Uploaded(file.originalName, publicUrl(t.0, t.1), t.1, t.0, file.size, file.mimetype)
    case StorageError(m) => NotUploaded(file.originalName, m)
    case StorageThrew(m) => NotUploaded(file.originalName, m)
  }

  /**
   * A file's entry names the file; it is a success exactly when storage
   * wrote the object, and then it reports where.
   */
  lemma FileOutcomeRule(
    file: File, folder: Option<string>, now: nat, rnd: string,
    storage: (string, string) -> Stored, publicUrl: (string, string) -> string)
    ensures var r := FileOutcome(file, folder, now, rnd, storage, publicUrl);
      var t := MultipleTarget(file, folder, now, rnd);
      r.originalName == file.originalName &&
      (r.Uploaded? <==> storage(t.0, t.1).Written?) &&
      (r.Uploaded? ==> r.url == publicUrl(t.0, t.1) && r.path == t.1 && r.bucket == t.0 &&
                       r.size == file.size && r.mimetype == file.mimetype) &&
      (r.NotUploaded? ==> r.error == storage(t.0, t.1).message)
  {
  }

  /** The body of the loop of `POST /multiple`: one file into storage, a failure recorded. */
  method UploadOne(
    file: File, folder: Option<string>, now: nat, rnd: string,
    storage: (string, string) -> Stored, publicUrl: (string, string) -> string) returns (entry: FileResult)
    ensures entry == FileOutcome(file, folder, now, rnd, storage, publicUrl)
  {
    var t := MultipleTarget(file, folder, now, rnd);
    var answer := storage(t.0, t.1);
    if !answer.Written? {
      return NotUploaded(file.originalName, answer.message);
    }
    entry := Uploaded(file.originalName, publicUrl(t.0, t.1), t.1, t.0, file.size, file.mimetype);
  }

  /** Appending the entry of the next file keeps the results in file order. */
  lemma RecordOutcome(
    files: seq<File>, folder: Option<string>, clock: nat -> nat, random: nat -> string,
    storage: (string, string) -> Stored, publicUrl: (string, string) -> string,
    results: seq<FileResult>, entry: FileResult)
    requires |results| < |files|
    requires forall j :: 0 <= j < |results| ==>
      results[j] == FileOutcome(files[j], folder, clock(j), random(j), storage, publicUrl)
    requires entry == FileOutcome(files[|results|], folder, clock(|results|), random(|results|), storage, publicUrl)
    ensures forall j :: 0 <= j <= |results| ==>
      (results + [entry])[j] == FileOutcome(files[j], folder, clock(j), random(j), storage, publicUrl)
  {
  }

  /**
   * `POST /multiple`. The clock and the random suffix are read once per
   * file: `clock(i)` and `random(i)` for the file at position `i`.
   */
  method UploadMultiple(
    configured: bool, files: seq<File>, folder: Option<string>,
    clock: nat -> nat, random: nat -> string,
    storage: (string, string) -> Stored, publicUrl: (string, string) -> string)
    returns (status: int, error: Option<string>, results: seq<FileResult>)
    ensures !configured ==> status == 500 && error == Some(NotConfigured) && results == []
    ensures configured && |files| == 0 ==> status == 400 && error == Some("No files provided") && results == []
    ensures configured && |files| > 0 ==> status == 200 && error.None?
    ensures status == 200 ==> |results| == |files|
    ensures status == 200 ==> forall i :: 0 <= i < |files| ==>
      results[i] == FileOutcome(files[i], folder, clock(i), random(i), storage, publicUrl)
  {
    if !configured {
      return 500, Some(NotConfigured), [];
    }
    if |files| == 0 {
      return 400, Some("No files provided"), [];
    }
    results := [];
    var i := 0;
    while i < |files|
      invariant 0 <= i <= |files|
      invariant |results| == i
      invariant forall j :: 0 <= j < i ==>
        results[j] == FileOutcome(files[j], folder, clock(j), random(j), storage, publicUrl)
    {
      var entry := UploadOne(files[i], folder, clock(i), random(i), storage, publicUrl);
      RecordOutcome(files, folder, clock, random, storage, publicUrl, results, entry);
      results := results + [entry];
      i := i + 1;
    }
    status, error := 200, None;
  }

  /** A rejected file does not stop the batch: the files after it are still attempted. */
  lemma FailureDoesNotStopBatch(
    files: seq<File>, folder: Option<string>, clock: nat -> nat, random: nat -> string,
    storage: (string, string) -> Stored, publicUrl: (string, string) -> string, i: nat, j: nat)
    requires i < j < |files|
    requires FileOutcome(files[i], folder, clock(i), random(i), storage, publicUrl).NotUploaded?
    requires var t := MultipleTarget(files[j], folder, clock(j), random(j)); storage(t.0, t.1).Written?
    ensures FileOutcome(files[j], folder, clock(j), random(j), storage, publicUrl).Uploaded?
  {
  }

  /** `DELETE /`: both the bucket and the path must be given. */
  function DeleteFile(
    configured: bool, bucket: Option<string>, path: Option<string>,
    remove: (string, string) -> Stored): (r: Response)
    ensures !configured ==> r == ErrorResponse(500, "Supabase not configured")
    ensures configured && !(Present(bucket) && Present(path)) ==> r == ErrorResponse(400, "Bucket and path are required")
    ensures r.status == 200 <==> configured && Present(bucket) && Present(path) && remove(bucket.value, path.value).Written?
  {
    if !configured then ErrorResponse(500, "Supabase not configured")
    else if !Present(bucket) || !Present(path) then ErrorResponse(400, "Bucket and path are required")
    else
      match remove(bucket.value, path.value)
      case Written => Response(200, map["success" := Bool(true), "message" := Str("File deleted successfully")])
      case StorageError(m) => Response(500, map["error" := Str("Failed to delete file"), "details" := Str(m)])
      case StorageThrew(m) => Response(500, map["error" := Str("Failed to delete file"), "message" := Str(m)])
  }

  /** Without both arguments the storage service is never asked. */
  lemma DeleteCheckedBeforeStorage(
    bucket: Option<string>, path: Option<string>, remove1: (string, string) -> Stored, remove2: (string, string) -> Stored)
    requires !(Present(bucket) && Present(path))
    ensures DeleteFile(true, bucket, path, remove1) == DeleteFile(true, bucket, path, remove2)
  {
  }

  /**
   * Without an explicit bucket, the single route ignores the folder when it
   * chooses the bucket, while the multiple route uses the folder as the
   * bucket: the two agree exactly when there is no folder or the folder is
   * the bucket the file would get anyway.
   */
  lemma SingleAndMultipleBucketsDiffer(f: File, folder: Option<string>, now: nat, rnd: string)
    ensures SingleTarget(f, folder, None, now, rnd).0 == GetBucketForFile(f.mimetype, f.originalName)
    ensures SingleTarget(f, folder, None, now, rnd).0 == MultipleTarget(f, folder, now, rnd).0 <==>
      !Present(folder) || folder.value == GetBucketForFile(f.mimetype, f.originalName)
  {
  }
}
