/**
 * The testimonial routes of server/routes/testimonials.js: who sees which
 * testimonials, the approval a new testimonial gets, and the 404 answers of
 * update and delete. A caller counts as an admin by the shape of its
 * Authorization header alone; the token is not checked on these routes.
 */
module Testimonials {

  import opened Js
  import opened Auth
  import opened Sanitize
  import opened Pagination
  import opened Collection

  const NotFound := ErrorResponse(404, "Testimonial not found")

  /** `authHeader && authHeader.startsWith('Bearer ')`: no token is verified. */
  predicate CallerIsAdmin(authorization: Option<string>)
    ensures authorization.None? ==> !CallerIsAdmin(authorization)
    ensures CallerIsAdmin(authorization) ==> |authorization.value| >= 7 && authorization.value[..7] == "Bearer "
  {
    IsBearer(authorization)
  }

  /** Any bearer header makes the caller an admin, whatever its token. */
  lemma AnyBearerIsAdmin(token: string)
    ensures CallerIsAdmin(Some(BearerPrefix + token))
  {
    assert (BearerPrefix + token)[..|BearerPrefix|] == BearerPrefix;
  }

  /** The list query: `{}` for an admin, `{ approved: true }` for anyone else. */
  function ListQuery(admin: bool): (q: Doc -> bool)
    ensures admin ==> forall d :: q(d)
    ensures !admin ==> forall d :: q(d) ==> Field(d, "approved") == Bool(true)
    ensures !admin ==> !q(map["approved" := Str("yes")]) && !q(map[])
  {
    if admin then (d: Doc) => true else (d: Doc) => Field(d, "approved") == Bool(true)
  }

  /** `sort({ date: -1, createdAt: -1 })` */
  function NewestFirst(d: Doc): seq<int> {
    Descending(DateKey(Field(d, "date")) + DateKey(Field(d, "createdAt")))
  }

  /** `GET /`: the page of the listed testimonials, with the count of all of them. */
  method List(store: Store, authorization: Option<string>, pageArg: Option<int>, limitArg: Option<int>)
    returns (p: Params, r: Paginated<Doc>)
    requires store.Valid()
    ensures 1 <= p.page && 1 <= p.limit <= 100 && 0 <= p.skip && p.skip == (p.page - 1) * p.limit
    ensures r == ListPage(FindSorted(store.Rows(), ListQuery(CallerIsAdmin(authorization)), NewestFirst), p)
  {
    var listed := FindSorted(store.Rows(), ListQuery(CallerIsAdmin(authorization)), NewestFirst);
    p := ParsePagination(pageArg, limitArg, Defaults);
    assert Sane(Defaults);
    r := ListPage(listed, p);
  }

  /** A caller without a bearer header is shown approved testimonials only. */
  lemma PublicSeesApprovedOnly(rows: seq<Doc>, p: Params)
    requires p.skip >= 0 && p.limit >= 1
    ensures var r := ListPage(FindSorted(rows, ListQuery(false), NewestFirst), p);
      forall i :: 0 <= i < |r.data| ==> Field(r.data[i], "approved") == Bool(true)
  {
  }

  /** An admin's list counts every testimonial. */
  lemma AdminCountsAll(rows: seq<Doc>, p: Params)
    requires p.skip >= 0 && p.limit >= 1
    ensures ListPage(FindSorted(rows, ListQuery(true), NewestFirst), p).pagination.total == |rows|
  {
    FilterAll(rows, ListQuery(true));
  }

  /** Each page lists testimonials newest first. */
  lemma ListNewestFirst(rows: seq<Doc>, admin: bool, p: Params)
    requires p.skip >= 0 && p.limit >= 1
    ensures SortedBy(ListPage(FindSorted(rows, ListQuery(admin), NewestFirst), p).data, NewestFirst)
  {
    PageSorted(rows, ListQuery(admin), NewestFirst, p);
  }

  /** `GET /:id`: a missing testimonial and, for a non-admin, an unapproved one are both 404. */
  function Get(docs: map<string, Doc>, id: string, authorization: Option<string>): (r: Response)
    ensures r.status == 200 <==> id in docs && (CallerIsAdmin(authorization) || Truthy(Field(docs[id], "approved")))
    ensures r.status == 200 ==> r.body == WithId(id, docs[id])
    ensures r.status != 200 ==> r == NotFound
  {
    if id !in docs then NotFound
    else if !CallerIsAdmin(authorization) && !Truthy(Field(docs[id], "approved")) then NotFound
    else Response(200, WithId(id, docs[id]))
  }

  /** To the public an unapproved testimonial is indistinguishable from a missing one. */
  lemma HiddenLooksMissing(docs: map<string, Doc>, id: string, authorization: Option<string>)
    requires id in docs && !CallerIsAdmin(authorization) && !Truthy(Field(docs[id], "approved"))
    ensures Get(docs, id, authorization) == Get(docs - {id}, id, authorization)
  {
  }

  /**
   * The list and the single GET disagree on truthy non-`true` approvals: the
   * list wants `approved === true`, the GET only a truthy `approved`.
   */
  lemma TruthyApprovalShownByGetOnly(docs: map<string, Doc>, id: string, rows: seq<Doc>, p: Params)
    requires id in docs && docs[id]["approved" := Str("yes")] == docs[id]
    requires p.skip >= 0 && p.limit >= 1
    ensures Get(docs, id, None).status == 200
    ensures WithId(id, docs[id]) !in ListPage(FindSorted(rows, ListQuery(false), NewestFirst), p).data
  {
    assert Field(docs[id], "approved") == Str("yes");
    var d := WithId(id, docs[id]);
    assert Field(d, "approved") == Str("yes");
    PublicSeesApprovedOnly(rows, p);
  }

  /** `approved` on create: the body's value for an admin (true when absent), false for anyone else. */
  function ApprovalOnCreate(admin: bool, body: Doc): (v: Value)
    ensures !admin ==> v == Bool(false)
    ensures admin && Field(body, "approved") != Undefined ==> v == body["approved"]
    ensures admin && Field(body, "approved") == Undefined ==> v == Bool(true)
  {
    if !admin then Bool(false)
    else if Field(body, "approved") != Undefined then body["approved"]
    else Bool(true)
  }

  /** `req.body.testimonial || req.body.text || ''` */
  function SubmittedText(body: Doc): Value {
    Or(Or(Field(body, "testimonial"), Field(body, "text")), Str(""))
  }

  /** The document `POST /` inserts: the body, with the sanitised text under both names. */
  function NewTestimonial(body: Doc, admin: bool, purify: string -> string, now: int): (d: Doc)
    ensures Field(d, "testimonial") == Field(d, "text") == Str(SanitizeText(purify, SubmittedText(body)))
    ensures Field(d, "approved") == ApprovalOnCreate(admin, body)
    ensures Field(d, "createdAt") == Date(now)
    ensures d.Keys == body.Keys + {"testimonial", "text", "approved", "createdAt"}
    ensures forall k :: k in body && k !in {"testimonial", "text", "approved", "createdAt"} ==> d[k] == body[k]
  {
    var text := Str(SanitizeText(purify, SubmittedText(body)));
    body["testimonial" := text]["text" := text]["approved" := ApprovalOnCreate(admin, body)]["createdAt" := Date(now)]
  }

  /** A public submission is never shown to the public until an admin approves it. */
  lemma PublicSubmissionHidden(body: Doc, purify: string -> string, now: int, docs: map<string, Doc>, id: string)
    ensures Get(docs[id := NewTestimonial(body, false, purify, now)], id, None) == NotFound
    ensures !ListQuery(false)(NewTestimonial(body, false, purify, now))
  {
  }

  /**
   * `POST /`. `valid` is the verdict of the request validators; `id` is the
   * `_id` the driver assigns; `purify` is the HTML sanitiser.
   */
  method Create(
    store: Store, id: string, body: Doc, authorization: Option<string>, valid: bool,
    purify: string -> string, now: int) returns (r: Response)
    requires store.Valid()
    modifies store
    ensures store.Valid()
    ensures !valid ==> r.status == 400 && store.docs == old(store.docs) && store.ids == old(store.ids)
    ensures valid && id !in old(store.docs) ==>
      r.status == 201 &&
      store.docs == old(store.docs)[id := NewTestimonial(body, CallerIsAdmin(authorization), purify, now)] &&
      store.ids == old(store.ids) + [id]
    ensures valid && id in old(store.docs) ==> r.status == 500 && store.docs == old(store.docs) && store.ids == old(store.ids)
  {
    if !valid {
      return Response(400, map["error" := Str("Validation failed")]);
    }
    var doc := NewTestimonial(body, CallerIsAdmin(authorization), purify, now);
    var inserted := store.InsertOne(id, doc);
    if inserted {
      r := Response(201, map["acknowledged" := Bool(true), "insertedId" := Str(id)]);
    } else {
      r := ErrorResponse(500, "E11000 duplicate key error");
    }
  }

  /** `PUT /:id` (behind verifyAdmin): `$set` of the body and `updatedAt`; 404 when nothing matched. */
  method Update(store: Store, id: string, body: Doc, now: int) returns (r: Response)
    requires store.Valid()
    modifies store
    ensures store.Valid() && store.ids == old(store.ids)
    ensures r.status == 404 <==> id !in old(store.docs)
    ensures r.status == 404 ==> r == NotFound && store.docs == old(store.docs)
    ensures r.status != 404 ==>
      r.status == 200 &&
      store.docs == old(store.docs)[id := SetFields(old(store.docs)[id], body["updatedAt" := Date(now)])]
  {
    var matched := store.UpdateOne(id, body["updatedAt" := Date(now)]);
    if !matched {
      return NotFound;
    }
    r := Response(200, map["matchedCount" := Num(1)]);
  }

  /** `DELETE /:id` (behind verifyAdmin): 404 when nothing was deleted. */
  method Delete(store: Store, id: string) returns (r: Response)
    requires store.Valid()
    modifies store
    ensures store.Valid()
    ensures r.status == 404 <==> id !in old(store.docs)
    ensures r.status == 404 ==> r == NotFound
    ensures store.docs == old(store.docs) - {id}
    ensures r.status == 404 ==> store.ids == old(store.ids)
    ensures r.status != 404 ==> exists i :: 0 <= i < |old(store.ids)| && old(store.ids)[i] == id &&
                                          store.ids == old(store.ids)[..i] + old(store.ids)[i + 1..]
  {
    var deleted := store.DeleteOne(id);
    if !deleted {
      return NotFound;
    }
    r := Response(200, map["message" := Str("Testimonial deleted successfully")]);
  }
}
