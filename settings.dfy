/**
 * The site settings routes of server/routes/settings.js: one settings
 * document, created with defaults by the first read, and merged into by
 * writes that create it when it is missing.
 */
module Settings {

  import opened Js
  import opened Collection

  /** The settings a first read stores: no banners, no announcements, no stream, no links. */
  const SettingsDefaults: Doc := map[
    "banners" := Arr([]),
    "announcements" := Arr([]),
    "liveStreamUrl" := Str(""),
    "socialLinks" := Obj(map[])]

  /**
   * `GET /`: `findOne({})` gives the first document in natural order; when
   * there is none the defaults are inserted under the fresh `_id` `newId`
   * and sent.
   */
  method Get(store: Store, newId: string) returns (r: Response)
    requires store.Valid()
    modifies store
    ensures store.Valid()
    ensures r.status == 200
    ensures old(store.ids) == [] ==>
      store.ids == [newId] && store.docs == map[newId := SettingsDefaults] &&
      r.body == WithId(newId, SettingsDefaults)
    ensures old(store.ids) != [] ==>
      store.ids == old(store.ids) && store.docs == old(store.docs) &&
      r.body == WithId(store.ids[0], store.docs[store.ids[0]])
    ensures store.ids != [] && r.body == WithId(store.ids[0], store.docs[store.ids[0]])
  {
    if store.ids != [] {
      var first := store.ids[0];
      return Response(200, WithId(first, store.docs[first]));
    }
    var inserted := store.InsertOne(newId, SettingsDefaults);
    r := Response(200, WithId(newId, SettingsDefaults));
  }

  /** A second read answers as the first did and stores nothing new. */
  method GetTwice(store: Store, id1: string, id2: string) returns (r1: Response, r2: Response)
    requires store.Valid()
    modifies store
    ensures r1 == r2
    ensures |store.ids| == if old(store.ids) == [] then 1 else |old(store.ids)|
  {
    r1 := Get(store, id1);
    r2 := Get(store, id2);
  }

  /**
   * `PUT /` (behind verifyAdmin): `updateOne({}, { $set: body + updatedAt }, { upsert: true })`
   * merges into the first document, or inserts the merged fields under `newId` when there is none.
   */
  method Put(store: Store, body: Doc, now: int, newId: string) returns (r: Response)
    requires store.Valid()
    modifies store
    ensures store.Valid()
    ensures r.status == 200
    ensures old(store.ids) == [] ==>
      store.ids == [newId] && store.docs == map[newId := body["updatedAt" := Date(now)]]
    ensures old(store.ids) != [] ==>
      store.ids == old(store.ids) &&
      store.docs == old(store.docs)[store.ids[0] := SetFields(old(store.docs)[store.ids[0]], body["updatedAt" := Date(now)])]
  {
    var fields := body["updatedAt" := Date(now)];
    if store.ids == [] {
      assert store.docs == map[];
      assert SetFields(map[], fields) == fields;
      var inserted := store.InsertOne(newId, SetFields(map[], fields));
      return Response(200, map["matchedCount" := Num(0), "upsertedCount" := Num(1), "upsertedId" := Str(newId)]);
    }
    var matched := store.UpdateOne(store.ids[0], fields);
    r := Response(200, map["matchedCount" := Num(1), "upsertedCount" := Num(0)]);
  }

  /** What a write leaves in the settings: the written fields, `updatedAt`, and every other field as it was. */
  lemma PutMerges(stored: Doc, body: Doc, now: int)
    ensures var s := SetFields(stored, body["updatedAt" := Date(now)]);
      Field(s, "updatedAt") == Date(now) &&
      (forall k :: k in body && k != "updatedAt" ==> s[k] == body[k]) &&
      (forall k :: k in stored && k !in body && k != "updatedAt" ==> s[k] == stored[k])
  {
  }

  /** A write and then a read show the written fields, whether or not the document existed. */
  method PutThenGet(store: Store, body: Doc, now: int, newId: string, readId: string) returns (r: Response)
    requires store.Valid()
    modifies store
    ensures Field(r.body, "updatedAt") == Date(now)
    ensures forall k :: k in body && k != "updatedAt" && k != "_id" ==> k in r.body && r.body[k] == body[k]
  {
    var w := Put(store, body, now, newId);
    r := Get(store, readId);
  }
}
