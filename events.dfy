/**
 * The event routes of server/routes/events.js: the `upcoming` filter and
 * the date order of the list, the coercion of `date` to a date on create and
 * update, the `seed` exception of `GET /:id`, and the 404 answers.
 */
module Events {

  import opened Js
  import opened Pagination
  import opened Collection

  const EventNotFound := ErrorResponse(404, "Event not found")

  /**
   * `{ date: { $gte: today } }` with `today` the start of the current day:
   * only date values compare with a date, and only those at or after it match.
   */
  function UpcomingQuery(todayStart: int): (q: Doc -> bool)
    ensures forall d :: q(d) ==> Field(d, "date").Date?
    ensures q(map["date" := Date(todayStart)])
    ensures !q(map["date" := Date(todayStart - 1)])
    ensures forall d :: !Field(d, "date").Date? ==> !q(d)
  {
    (d: Doc) => Field(d, "date").Date? && Field(d, "date").ms >= todayStart
  }

  /** `upcoming === 'true'` selects the upcoming query; any other value, or none, lists everything. */
  function ListQuery(upcoming: Option<string>, todayStart: int): (q: Doc -> bool)
    ensures upcoming != Some("true") ==> forall d :: q(d)
    ensures upcoming == Some("true") ==> forall d :: q(d) <==> Field(d, "date").Date? && Field(d, "date").ms >= todayStart
  {
    if upcoming == Some("true") then UpcomingQuery(todayStart) else (d: Doc) => true
  }

  /** `sort({ date: 1 })` */
  function Soonest(d: Doc): seq<int> {
    DateKey(Field(d, "date"))
  }

  /** `GET /`. `todayStart` is the clock's start of the current day. */
  method List(store: Store, upcoming: Option<string>, todayStart: int, pageArg: Option<int>, limitArg: Option<int>)
    returns (p: Params, r: Paginated<Doc>)
    requires store.Valid()
    ensures 1 <= p.page && 1 <= p.limit <= 100 && 0 <= p.skip && p.skip == (p.page - 1) * p.limit
    ensures r == ListPage(FindSorted(store.Rows(), ListQuery(upcoming, todayStart), Soonest), p)
  {
    var listed := FindSorted(store.Rows(), ListQuery(upcoming, todayStart), Soonest);
    p := ParsePagination(pageArg, limitArg, Defaults);
    assert Sane(Defaults);
    r := ListPage(listed, p);
  }

  /** With `upcoming=true`, every listed event is dated today or later. */
  lemma UpcomingOnly(rows: seq<Doc>, todayStart: int, p: Params)
    requires p.skip >= 0 && p.limit >= 1
    ensures var r := ListPage(FindSorted(rows, ListQuery(Some("true"), todayStart), Soonest), p);
      forall i :: 0 <= i < |r.data| ==> Field(r.data[i], "date").Date? && Field(r.data[i], "date").ms >= todayStart
  {
  }

  /** Without `upcoming=true` every event is counted. */
  lemma OtherwiseAll(rows: seq<Doc>, upcoming: Option<string>, todayStart: int, p: Params)
    requires upcoming != Some("true") && p.skip >= 0 && p.limit >= 1
    ensures ListPage(FindSorted(rows, ListQuery(upcoming, todayStart), Soonest), p).pagination.total == |rows|
  {
    FilterAll(rows, ListQuery(upcoming, todayStart));
  }

  /** Each page lists events in ascending date order. */
  lemma ListSoonestFirst(rows: seq<Doc>, upcoming: Option<string>, todayStart: int, p: Params)
    requires p.skip >= 0 && p.limit >= 1
    ensures SortedBy(ListPage(FindSorted(rows, ListQuery(upcoming, todayStart), Soonest), p).data, Soonest)
  {
    PageSorted(rows, ListQuery(upcoming, todayStart), Soonest, p);
  }

  /**
   * The date rule of create and update, on the object they build: a date
   * that `new Date(...)` (here `parse`) accepts is stored as a date, one it
   * rejects is removed, and an object without a date is left alone.
   */
  function CoerceDate(d: Doc, parse: Value -> Option<int>): (r: Doc)
    ensures r.Keys <= d.Keys
    ensures forall k :: k in d && k != "date" ==> k in r && r[k] == d[k]
    ensures "date" in r <==> "date" in d && parse(d["date"]).Some?
    ensures "date" in r ==> r["date"] == Date(parse(d["date"]).value)
  {
    if "date" !in d then d
    else
      match parse(d["date"])
      case Some(ms) => d["date" := Date(ms)]
      case None => d - {"date"}
  }

  /** Whatever the request sends, a stored `date` written by create is a date value. */
  lemma CreatedDateIsDate(body: Doc, now: int, parse: Value -> Option<int>)
    ensures var d := CoerceDate(body["createdAt" := Date(now)], parse);
      Field(d, "date").Undefined? || Field(d, "date").Date?
  {
  }

  /** `POST /` (behind verifyAdmin): the body with `createdAt`, its date coerced. */
  method Create(store: Store, id: string, body: Doc, valid: bool, parse: Value -> Option<int>, now: int)
    returns (r: Response)
    requires store.Valid()
    modifies store
    ensures store.Valid()
    ensures !valid ==> r.status == 400 && store.docs == old(store.docs) && store.ids == old(store.ids)
    ensures valid && id !in old(store.docs) ==>
      r.status == 201 &&
      store.docs == old(store.docs)[id := CoerceDate(body["createdAt" := Date(now)], parse)] &&
      store.ids == old(store.ids) + [id]
    ensures valid && id in old(store.docs) ==> r.status == 500 && store.docs == old(store.docs) && store.ids == old(store.ids)
  {
    if !valid {
      return Response(400, map["error" := Str("Validation failed")]);
    }
    var newEvent := body["createdAt" := Date(now)];
    if "date" in newEvent {
      var eventDate := parse(newEvent["date"]);
      if eventDate.Some? {
        newEvent := newEvent["date" := Date(eventDate.value)];
      } else {
        newEvent := newEvent - {"date"};
      }
    }
    var inserted := store.InsertOne(id, newEvent);
    if inserted {
      r := Response(201, map["acknowledged" := Bool(true), "insertedId" := Str(id)]);
    } else {
      r := ErrorResponse(500, "E11000 duplicate key error");
    }
  }

  /** `PUT /:id` (behind verifyAdmin): `$set` of the body and `updatedAt`, its date coerced; 404 when nothing matched. */
  method Update(store: Store, id: string, body: Doc, parse: Value -> Option<int>, now: int) returns (r: Response)
    requires store.Valid()
    modifies store
    ensures store.Valid() && store.ids == old(store.ids)
    ensures r.status == 404 <==> id !in old(store.docs)
    ensures r.status == 404 ==> r == EventNotFound && store.docs == old(store.docs)
    ensures r.status != 404 ==>
      r.status == 200 &&
      store.docs == old(store.docs)[id := SetFields(old(store.docs)[id], CoerceDate(body["updatedAt" := Date(now)], parse))]
  {
    var updateData := body["updatedAt" := Date(now)];
    if "date" in updateData {
      var eventDate := parse(updateData["date"]);
      if eventDate.Some? {
        updateData := updateData["date" := Date(eventDate.value)];
      } else {
        updateData := updateData - {"date"};
      }
    }
    var matched := store.UpdateOne(id, updateData);
    if !matched {
      return EventNotFound;
    }
    r := Response(200, map["matchedCount" := Num(1)]);
  }

  /** An update whose date does not parse removes it from the update only: the stored date stays. */
  lemma UnparseableDateKeepsStored(stored: Doc, body: Doc, parse: Value -> Option<int>, now: int)
    requires "date" in body && parse(body["date"]).None?
    ensures var u := SetFields(stored, CoerceDate(body["updatedAt" := Date(now)], parse));
      Field(u, "date") == Field(stored, "date")
  {
  }

  /** `DELETE /:id` (behind verifyAdmin): 404 when nothing was deleted. */
  method Delete(store: Store, id: string) returns (r: Response)
    requires store.Valid()
    modifies store
    ensures store.Valid()
    ensures r.status == 404 <==> id !in old(store.docs)
    ensures r.status == 404 ==> r == EventNotFound
    ensures store.docs == old(store.docs) - {id}
    ensures r.status == 404 ==> store.ids == old(store.ids)
    ensures r.status != 404 ==> exists i :: 0 <= i < |old(store.ids)| && old(store.ids)[i] == id &&
                                          store.ids == old(store.ids)[..i] + old(store.ids)[i + 1..]
  {
    var deleted := store.DeleteOne(id);
    if !deleted {
      return EventNotFound;
    }
    r := Response(200, map["message" := Str("Event deleted successfully")]);
  }

  /** What `GET /:id` does: hand over to the next route, or answer. */
  datatype Routed = NextRoute | Answered(response: Response)

  /**
   * `GET /:id`. The id `seed` skips to the next route before any check;
   * `validId` is `ObjectId.isValid`.
   */
  function Get(docs: map<string, Doc>, id: string, validId: string -> bool): (r: Routed)
    ensures id == "seed" <==> r == NextRoute
    ensures id != "seed" && id == "" ==> r == Answered(ErrorResponse(400, "ID parameter is required"))
    ensures id != "seed" && id != "" && !validId(id) ==> r == Answered(ErrorResponse(400, "Invalid ID format"))
    ensures id != "seed" && id != "" && validId(id) ==>
      r == if id in docs then Answered(Response(200, WithId(id, docs[id]))) else Answered(EventNotFound)
  {
    if id == "seed" then NextRoute
    else if id == "" then Answered(ErrorResponse(400, "ID parameter is required"))
    else if !validId(id) then Answered(ErrorResponse(400, "Invalid ID format"))
    else if id in docs then Answered(Response(200, WithId(id, docs[id])))
    else Answered(EventNotFound)
  }

  /** `seed` is never validated nor looked up, whatever the store holds. */
  lemma SeedSkipsValidation(docs1: map<string, Doc>, docs2: map<string, Doc>, v1: string -> bool, v2: string -> bool)
    ensures Get(docs1, "seed", v1) == Get(docs2, "seed", v2) == NextRoute
  {
  }
}
