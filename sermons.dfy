/**
 * The sermon routes of server/routes/sermons.js: the download route picks
 * the audio or video file of a sermon, counts the download and either
 * redirects to the file or serves it; created sermons start at zero
 * downloads; updates, deletes and download records of a missing sermon are
 * 404.
 */
module Sermons {

  import opened Js
  import opened Strings
  import opened Pagination
  import opened Collection

  const SermonNotFound := ErrorResponse(404, "Sermon not found")
  const FileUnavailable := ErrorResponse(404, "File not available for this sermon")

  /** The file a download asks for: its URL and the name it is served under. */
  datatype Selection =
    | Selected(url: Value, name: string)
    | Unavailable
    /** `sermon.title.replace` on a title that is not a string throws. */
    | TitleBroken

  /** The name a download is saved under: the title with `[^a-z0-9]` (case-insensitive) as `_`, then the suffix. */
  function DownloadName(title: string, suffix: string): (n: string)
    ensures |n| == |title| + |suffix| && EndsWith(n, suffix)
    ensures forall i :: 0 <= i < |title| ==> (IsAlnum(title[i]) ==> n[i] == title[i]) && (!IsAlnum(title[i]) ==> n[i] == '_')
  {
    var n := ReplaceNonAlnum(title) + suffix;
    assert n[|title|..] == suffix;
    n
  }

  /** The branch on `req.params.type` and the sermon's URLs. */
  function SelectFile(sermon: Doc, fileType: string): (s: Selection)
    ensures s.Selected? <==>
      Field(sermon, "title").Str? &&
      ((fileType == "audio" && Truthy(Field(sermon, "audioUrl"))) ||
       (fileType == "video" && Truthy(Field(sermon, "videoUrl"))))
    ensures s.Selected? && fileType == "audio" ==>
      s == Selected(Field(sermon, "audioUrl"), DownloadName(Field(sermon, "title").s, "_audio.mp3"))
    ensures s.Selected? && fileType == "video" ==>
      s == Selected(Field(sermon, "videoUrl"), DownloadName(Field(sermon, "title").s, "_video.mp4"))
    ensures s.Unavailable? <==>
      !(fileType == "audio" && Truthy(Field(sermon, "audioUrl"))) &&
      !(fileType == "video" && Truthy(Field(sermon, "videoUrl")))
  {
    if fileType == "audio" && Truthy(Field(sermon, "audioUrl")) then
      if Field(sermon, "title").Str? then Selected(Field(sermon, "audioUrl"), DownloadName(Field(sermon, "title").s, "_audio.mp3"))
      else TitleBroken
    else if fileType == "video" && Truthy(Field(sermon, "videoUrl")) then
      if Field(sermon, "title").Str? then Selected(Field(sermon, "videoUrl"), DownloadName(Field(sermon, "title").s, "_video.mp4"))
      else TitleBroken
    else Unavailable
  }

  /** How the download is answered. */
  datatype Reply =
    | Redirect(url: string)
    /** `res.download(path.join(publicDir, fileUrl), fileName)` */
    | SendLocal(fileUrl: string, fileName: string)
    | Answer(response: Response)

  predicate IsRemote(url: string)
    ensures IsRemote(url) ==> |url| >= 7 && url[..4] == "http"
  {
    StartsWith(url, "http://") || StartsWith(url, "https://")
  }

  /** After counting: redirect to a remote URL, serve anything else from the public directory. */
  function Deliver(s: Selection): (r: Reply)
    requires s.Selected?
    ensures s.url.Str? && IsRemote(s.url.s) ==> r == Redirect(s.url.s)
    ensures s.url.Str? && !IsRemote(s.url.s) ==> r == SendLocal(s.url.s, s.name)
    ensures !s.url.Str? ==> r.Answer? && r.response.status == 500
  {
    if !s.url.Str? then Answer(ErrorResponse(500, "fileUrl.startsWith is not a function"))
    else if IsRemote(s.url.s) then Redirect(s.url.s)
    else SendLocal(s.url.s, s.name)
  }

  /** The sermon after one counted download: `downloads` one higher, nothing else changed. */
  lemma CountedOnce(sermon: Doc)
    requires Field(sermon, "downloads").Num?
    ensures Inc(sermon, "downloads").Some?
    ensures var d := Inc(sermon, "downloads").value;
      Field(d, "downloads") == Num(Field(sermon, "downloads").n + 1) &&
      d.Keys == sermon.Keys && forall k :: k in sermon && k != "downloads" ==> d[k] == sermon[k]
  {
  }

  /**
   * `GET /:id/download/:type` (behind verifyUser). The download is counted
   * after a file is selected and before it is delivered.
   */
  method Download(store: Store, id: string, fileType: string) returns (r: Reply)
    requires store.Valid()
    modifies store
    ensures store.Valid() && store.ids == old(store.ids)
    ensures id !in old(store.docs) ==> r == Answer(SermonNotFound) && store.docs == old(store.docs)
    ensures id in old(store.docs) ==>
      var s := SelectFile(old(store.docs)[id], fileType);
      (s.Unavailable? ==> r == Answer(FileUnavailable) && store.docs == old(store.docs)) &&
      (s.TitleBroken? ==> r.Answer? && r.response.status == 500 && store.docs == old(store.docs)) &&
      (s.Selected? && Inc(old(store.docs)[id], "downloads").None? ==>
        r.Answer? && r.response.status == 500 && store.docs == old(store.docs)) &&
      (s.Selected? && Inc(old(store.docs)[id], "downloads").Some? ==>
        r == Deliver(s) && store.docs == old(store.docs)[id := Inc(old(store.docs)[id], "downloads").value])
  {
    if id !in store.docs {
      return Answer(SermonNotFound);
    }
    var s := SelectFile(store.docs[id], fileType);
    match s
    case Unavailable =>
      return Answer(FileUnavailable);
    case TitleBroken =>
      return Answer(ErrorResponse(500, "sermon.title.replace is not a function"));
    case Selected(_, _) =>
      var matched, failed := store.IncOne(id, "downloads");
      if failed {
        return Answer(ErrorResponse(500, "Cannot apply $inc to a value of non-numeric type"));
      }
      r := Deliver(s);
  }

  /** `POST /:id/download`: count a download made through a direct link. */
  method RecordDownload(store: Store, id: string) returns (r: Response)
    requires store.Valid()
    modifies store
    ensures store.Valid() && store.ids == old(store.ids)
    ensures id !in old(store.docs) ==> r == SermonNotFound && store.docs == old(store.docs)
    ensures id in old(store.docs) && Inc(old(store.docs)[id], "downloads").Some? ==>
      r.status == 200 && store.docs == old(store.docs)[id := Inc(old(store.docs)[id], "downloads").value]
    ensures id in old(store.docs) && Inc(old(store.docs)[id], "downloads").None? ==>
      r.status == 500 && store.docs == old(store.docs)
  {
    var matched, failed := store.IncOne(id, "downloads");
    if failed {
      return ErrorResponse(500, "Cannot apply $inc to a value of non-numeric type");
    }
    if !matched {
      return SermonNotFound;
    }
    r := Response(200, map["message" := Str("Download count updated")]);
  }

  /** The document `POST /` inserts: the body with `downloads: 0` and `createdAt`. */
  function NewSermon(body: Doc, now: int): (d: Doc)
    ensures Field(d, "downloads") == Num(0) && Field(d, "createdAt") == Date(now)
    ensures d.Keys == body.Keys + {"downloads", "createdAt"}
    ensures forall k :: k in body && k != "downloads" && k != "createdAt" ==> d[k] == body[k]
  {
    body["downloads" := Num(0)]["createdAt" := Date(now)]
  }

  /** `n` counted downloads of one sermon. */
  function CountedTimes(d: Doc, n: nat): Doc {
    if n == 0 then d
    else
      var prev := CountedTimes(d, n - 1);
      match Inc(prev, "downloads")
      case Some(next) => next
      case None => prev
  }

  /** A sermon that was created and then downloaded `n` times shows `downloads == n`. */
  lemma {:induction false} DownloadsCountDownloads(body: Doc, now: int, n: nat)
    ensures Field(CountedTimes(NewSermon(body, now), n), "downloads") == Num(n)
    ensures CountedTimes(NewSermon(body, now), n).Keys == NewSermon(body, now).Keys
  {
    if n > 0 {
      DownloadsCountDownloads(body, now, n - 1);
    }
  }

  /** `POST /` (behind verifyAdmin). `valid` is the verdict of the request validators. */
  method Create(store: Store, id: string, body: Doc, valid: bool, now: int) returns (r: Response)
    requires store.Valid()
    modifies store
    ensures store.Valid()
    ensures !valid ==> r.status == 400 && store.docs == old(store.docs) && store.ids == old(store.ids)
    ensures valid && id !in old(store.docs) ==>
      r.status == 201 && store.docs == old(store.docs)[id := NewSermon(body, now)] && store.ids == old(store.ids) + [id]
    ensures valid && id in old(store.docs) ==> r.status == 500 && store.docs == old(store.docs) && store.ids == old(store.ids)
  {
    if !valid {
      return Response(400, map["error" := Str("Validation failed")]);
    }
    var inserted := store.InsertOne(id, NewSermon(body, now));
    if inserted {
      r := Response(201, map["acknowledged" := Bool(true), "insertedId" := Str(id)]);
    } else {
      r := ErrorResponse(500, "E11000 duplicate key error");
    }
  }

  /** `GET /:id` */
  function Get(docs: map<string, Doc>, id: string): (r: Response)
    ensures r.status == 200 <==> id in docs
    ensures r.status == 200 ==> r.body == WithId(id, docs[id])
    ensures r.status != 200 ==> r == SermonNotFound
  {
    if id in docs then Response(200, WithId(id, docs[id])) else SermonNotFound
  }

  /** `sort({ date: -1 })` */
  function LatestFirst(d: Doc): seq<int> {
    Descending(DateKey(Field(d, "date")))
  }

  /** `GET /`: every sermon, latest first, one page of it. */
  method List(store: Store, pageArg: Option<int>, limitArg: Option<int>) returns (p: Params, r: Paginated<Doc>)
    requires store.Valid()
    ensures 1 <= p.page && 1 <= p.limit <= 100 && 0 <= p.skip && p.skip == (p.page - 1) * p.limit
    ensures r == ListPage(SortBy(store.Rows(), LatestFirst), p)
    ensures r.pagination.total == |store.ids|
  {
    var sorted := SortBy(store.Rows(), LatestFirst);
    p := ParsePagination(pageArg, limitArg, Defaults);
    assert Sane(Defaults);
    r := ListPage(sorted, p);
  }

  /** `PUT /:id` (behind verifyAdmin): `$set` of the body and `updatedAt`; 404 when nothing matched. */
  method Update(store: Store, id: string, body: Doc, now: int) returns (r: Response)
    requires store.Valid()
    modifies store
    ensures store.Valid() && store.ids == old(store.ids)
    ensures r.status == 404 <==> id !in old(store.docs)
    ensures r.status == 404 ==> r == SermonNotFound && store.docs == old(store.docs)
    ensures r.status != 404 ==>
      r.status == 200 &&
      store.docs == old(store.docs)[id := SetFields(old(store.docs)[id], body["updatedAt" := Date(now)])]
  {
    var matched := store.UpdateOne(id, body["updatedAt" := Date(now)]);
    if !matched {
      return SermonNotFound;
    }
    r := Response(200, map["matchedCount" := Num(1)]);
  }

  /** `DELETE /:id` (behind verifyAdmin): 404 when nothing was deleted. */
  method Delete(store: Store, id: string) returns (r: Response)
    requires store.Valid()
    modifies store
    ensures store.Valid()
    ensures r.status == 404 <==> id !in old(store.docs)
    ensures r.status == 404 ==> r == SermonNotFound
    ensures store.docs == old(store.docs) - {id}
    ensures r.status == 404 ==> store.ids == old(store.ids)
    ensures r.status != 404 ==> exists i :: 0 <= i < |old(store.ids)| && old(store.ids)[i] == id &&
                                          store.ids == old(store.ids)[..i] + old(store.ids)[i + 1..]
  {
    var deleted := store.DeleteOne(id);
    if !deleted {
      return SermonNotFound;
    }
    r := Response(200, map["message" := Str("Sermon deleted successfully")]);
  }
}
