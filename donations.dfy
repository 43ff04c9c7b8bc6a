/**
 * The donation routes of server/routes/donations.js as a state machine over
 * the donation records, keyed by `tx_ref`. `/initialize` stores a pending
 * record before asking the payment gateway for a link; `/webhook` and
 * `/verify/:tx_ref` move a record to completed or failed by the gateway's
 * verification of the payment. The gateway's answers, the clock, the random
 * suffix and the HMAC digest are parameters.
 */
module Donations {

  import opened Js
  import opened Strings
  import Collection

  datatype Status = Pending | Completed | Failed

  function StatusName(s: Status): (n: string)
    ensures n in {"pending", "completed", "failed"}
  {
    match s
    case Pending => "pending"
    case Completed => "completed"
    case Failed => "failed"
  }

  /** A stored donation; `Undefined` stands for a field the record does not have. */
  datatype Donation = Donation(
    txRef: string,
    amount: Value,
    currency: Value,
    email: Value,
    fullName: Value,
    purpose: Value,
    message: Value,
    isRecurring: Value,
    status: Status,
    date: int,
    createdAt: int,
    paymentId: Value,
    paidAt: Option<int>,
    verifiedAt: Option<int>,
    paymentMethod: Value,
    flwRef: Value,
    error: Value)

  /** The validated body of `/initialize` (amount already converted by the validators). */
  datatype DonationRequest = DonationRequest(
    amount: Value, email: Value, fullName: Value, purpose: Value, message: Value, isRecurring: Value)

  /** What `flw.Payment.initialize` does: answer (with the link when it sends `data`), or throw. */
  datatype InitReply =
    | InitAnswered(status: Value, link: Option<Value>, message: Value)
    | InitThrew(message: Value)

  /** The `data` of a gateway verification. */
  datatype Verified = Verified(
    status: Value, amount: Value, currency: Value, paymentType: Value, flwRef: Value, processorResponse: Value)

  /** What `flw.Transaction.verify` does: answer, with or without `data`, or throw. */
  datatype Verification =
    | Answered(status: Value, data: Option<Verified>)
    | VerifyThrew

  /** `verification.status === 'success' && verification.data.status === 'successful'` */
  predicate Successful(v: Verification)
    ensures Successful(v) ==> !Broken(v) && v != VerifyThrew
  {
    v.Answered? && v.status == Str("success") && v.data.Some? && v.data.value.status == Str("successful")
  }

  /** `verification.data.status` on an answer of `success` without `data` throws. */
  predicate Broken(v: Verification) {
    v.Answered? && v.status == Str("success") && v.data.None?
  }

  /** `verification.data?.processor_response || 'Payment verification failed'` */
  function FailureReason(v: Verification): (e: Value)
    ensures Truthy(e)
  {
    var pr := if v.Answered? && v.data.Some? then v.data.value.processorResponse else Undefined;
    Or(pr, Str("Payment verification failed"))
  }

  /** `'hcm_' + Date.now() + '_' + suffix`, the suffix being the random base-36 part. */
  function TxRef(now: nat, suffix: string): (ref: string)
    ensures StartsWith(ref, "hcm_")
  {
    var ref := "hcm_" + NatToDecimal(now) + "_" + suffix;
    assert ref[..4] == "hcm_";
    ref
  }

  /** A digit string followed by `_` cannot be a proper prefix of another such string. */
  lemma NoShorterDigitPrefix(a: string, b: string, x: string, y: string)
    requires AllDigits(b) && a + "_" + x == b + "_" + y
    ensures |a| >= |b|
  {
    var s := a + "_" + x;
    assert s[|a|] == '_';
    assert forall i :: 0 <= i < |b| ==> s[i] == b[i];
  }

  /** `digits + "_" + rest` splits back into its digits and its rest. */
  lemma DigitsThenUnderscore(a: string, b: string, x: string, y: string)
    requires AllDigits(a) && AllDigits(b) && a + "_" + x == b + "_" + y
    ensures a == b && x == y
  {
    NoShorterDigitPrefix(a, b, x, y);
    NoShorterDigitPrefix(b, a, y, x);
    var s := a + "_" + x;
    assert a == s[..|a|] == b;
    assert x == s[|a| + 1..] == y;
  }

  /** Two initializations at different times, or with different suffixes, get different references. */
  lemma TxRefInjective(now1: nat, s1: string, now2: nat, s2: string)
    requires TxRef(now1, s1) == TxRef(now2, s2)
    ensures now1 == now2 && s1 == s2
  {
    var r := TxRef(now1, s1);
    assert r[4..] == NatToDecimal(now1) + "_" + s1;
    assert r[4..] == NatToDecimal(now2) + "_" + s2;
    DigitsThenUnderscore(NatToDecimal(now1), NatToDecimal(now2), s1, s2);
    NatToDecimalInjective(now1, now2);
  }

  /** The pending record `/initialize` stores, with its defaults. */
  function NewDonation(ref: string, req: DonationRequest, currencyEnv: Option<string>, now: int): (d: Donation)
    ensures d.txRef == ref && d.status == Pending && d.date == now && d.createdAt == now
    ensures d.currency == Str(OrElse(currencyEnv, "NGN"))
    ensures d.purpose == (if Truthy(req.purpose) then req.purpose else Str("General Offering"))
    ensures d.message == (if Truthy(req.message) then req.message else Str(""))
    ensures d.isRecurring == (if Truthy(req.isRecurring) then req.isRecurring else Bool(false))
    ensures d.paymentId == Undefined && d.paidAt.None? && d.verifiedAt.None? && d.error == Undefined
  {
    Donation(
      ref, req.amount, Str(OrElse(currencyEnv, "NGN")), req.email, req.fullName,
      Or(req.purpose, Str("General Offering")), Or(req.message, Str("")), Or(req.isRecurring, Bool(false)),
      Pending, now, now, Undefined, None, None, Undefined, Undefined, Undefined)
  }

  /** `$set` of a completed verification, without the payment id. */
  function Complete(d: Donation, v: Verified, now: int): (c: Donation)
    ensures c.status == Completed && c.paidAt == Some(now) && c.verifiedAt == Some(now)
    ensures c.amount == v.amount && c.currency == Or(v.currency, Str("NGN"))
    ensures c.paymentMethod == Or(v.paymentType, Str("unknown")) && c.flwRef == v.flwRef
    ensures c.(status := d.status, paidAt := d.paidAt, verifiedAt := d.verifiedAt, amount := d.amount,
               currency := d.currency, paymentMethod := d.paymentMethod, flwRef := d.flwRef) == d
  {
    d.(status := Completed, paidAt := Some(now), verifiedAt := Some(now), amount := v.amount,
       currency := Or(v.currency, Str("NGN")), paymentMethod := Or(v.paymentType, Str("unknown")), flwRef := v.flwRef)
  }

  /** `$set: { status: 'failed', error }` */
  function Fail(d: Donation, error: Value): (f: Donation)
    ensures f.status == Failed && f.error == error && f.(status := d.status, error := d.error) == d
  {
    d.(status := Failed, error := error)
  }

  /**
   * What every stored record satisfies: it is stored under its own
   * reference, which has the `hcm_` form; a completed record has its payment
   * and verification times; a failed one has a reason.
   */
  predicate Consistent(records: map<string, Donation>) {
    forall k :: k in records ==>
      records[k].txRef == k && StartsWith(k, "hcm_") &&
      (records[k].status == Completed ==> records[k].paidAt.Some? && records[k].verifiedAt.Some?) &&
      (records[k].status == Failed ==> Truthy(records[k].error))
  }

  /**
   * `/initialize` once the credentials are there: the pending record is
   * inserted under `ref`, then marked failed when the gateway declines.
   * `updateOne({ tx_ref })` hits the first record with that reference, so
   * an insert under a reference already in use adds nothing that a later
   * step could reach.
   */
  function InitRecords(records: map<string, Donation>, ref: string, req: DonationRequest,
                       currencyEnv: Option<string>, now: int, gateway: InitReply): (r: map<string, Donation>)
    ensures r.Keys == records.Keys + {ref}
    ensures forall k :: k in records && k != ref ==> r[k] == records[k]
    ensures ref !in records && !InitDeclined(gateway) ==> r[ref] == NewDonation(ref, req, currencyEnv, now)
    ensures InitDeclined(gateway) ==>
      r[ref] == Fail(if ref in records then records[ref] else NewDonation(ref, req, currencyEnv, now),
                     Or(gateway.message, Str("Payment initialization failed")))
    ensures ref in records && !InitDeclined(gateway) ==> r == records
  {
    var stored := if ref in records then records else records[ref := NewDonation(ref, req, currencyEnv, now)];
    if InitDeclined(gateway) then stored[ref := Fail(stored[ref], Or(gateway.message, Str("Payment initialization failed")))]
    else stored
  }

  /** The gateway answered, but not with `status: 'success'`. */
  predicate InitDeclined(g: InitReply) {
    g.InitAnswered? && g.status != Str("success")
  }

  /** A webhook event that changes state: `charge.completed` or `charge.completed.redirect`. */
  predicate IsChargeEvent(event: Doc)
    ensures IsChargeEvent(event) ==> "event" in event && event["event"].Str? && StartsWith(event["event"].s, "charge.completed")
  {
    Field(event, "event") == Str("charge.completed") || Field(event, "event") == Str("charge.completed.redirect")
  }

  /** `v.k` on any value: only an object has properties (`undefined`/`null` are handled by the caller). */
  function Prop(v: Value, k: string): Value {
    if v.Obj? then Field(v.fields, k) else Undefined
  }

  /** An object the database reads as a query operator: one of its keys starts with `$` (`$ne`, `$gt`, `$regex`, ...). */
  predicate IsOperatorObject(f: map<string, Value>) {
    exists k | k in f :: StartsWith(k, "$")
  }

  /**
   * Whether the query `{ tx_ref: q }` selects a record whose reference is
   * `stored`. A string selects only itself. An operator object is evaluated
   * by the database, and `operators` stands for that evaluation. Any other
   * value (a number, a boolean, `null`, an array, an object without
   * operators) equals no string and selects nothing.
   */
  predicate Selects(q: Value, stored: string, operators: (map<string, Value>, string) -> bool) {
    match q
    case Str(s) => s == stored
    case Obj(f) => IsOperatorObject(f) && operators(f, stored)
    case _ => false
  }

  /** The record stored under `k` is selected by the query. */
  predicate Hit(records: map<string, Donation>, k: string, q: Value, operators: (map<string, Value>, string) -> bool) {
    k in records && Selects(q, records[k].txRef, operators)
  }

  /**
   * The record `updateOne({ tx_ref: q })` writes: the first one in natural
   * order that the query selects, if any.
   */
  function Matching(records: map<string, Donation>, order: seq<string>, q: Value,
                    operators: (map<string, Value>, string) -> bool): (k: Option<string>)
    ensures k.Some? ==> Hit(records, k.value, q, operators)
    ensures k.Some? ==> exists i :: 0 <= i < |order| && order[i] == k.value &&
                                (forall j :: 0 <= j < i ==> !Hit(records, order[j], q, operators))
    ensures k.None? <==> forall j :: 0 <= j < |order| ==> !Hit(records, order[j], q, operators)
    decreases |order|
  {
    if order == [] then None
    else if Hit(records, order[0], q, operators) then Some(order[0])
    else
      var k := Matching(records, order[1..], q, operators);
      assert forall j :: 1 <= j < |order| ==> order[j] == order[1..][j - 1];
      k
  }

  /** The natural order lists each stored reference once, and nothing else. */
  predicate Ordered(records: map<string, Donation>, order: seq<string>) {
    Collection.Distinct(order) && (forall k :: k in records ==> k in order) && (forall i :: 0 <= i < |order| ==> order[i] in records)
  }

  /** The natural order after `/initialize` stored under `ref`: a new reference goes last. */
  function InitOrder(order: seq<string>, records: map<string, Donation>, ref: string): (o: seq<string>)
    ensures ref !in records ==> o == order + [ref]
    ensures ref in records ==> o == order
  {
    if ref in records then order else order + [ref]
  }

  /** A string reference selects exactly the record stored under it, wherever it is in the natural order. */
  lemma StringRefSelectsItsRecord(records: map<string, Donation>, order: seq<string>, s: string,
                                  operators: (map<string, Value>, string) -> bool)
    requires Consistent(records) && Ordered(records, order)
    ensures Matching(records, order, Str(s), operators) == if s in records then Some(s) else None
  {
    var k := Matching(records, order, Str(s), operators);
    if s in records {
      assert s in order;
      var i :| 0 <= i < |order| && order[i] == s;
      assert Hit(records, order[i], Str(s), operators);
    }
    if k.Some? {
      assert records[k.value].txRef == k.value;
    }
  }

  /** `event.data` is `undefined` or `null`: reading its properties throws. */
  predicate DataMissing(event: Doc) {
    Field(event, "data") == Undefined || Field(event, "data") == Null
  }

  /** Whether the webhook gets as far as writing: a charge event with data, and a verification that neither threw nor broke. */
  predicate HookWrites(event: Doc, v: Verification) {
    IsChargeEvent(event) && !DataMissing(event) && v.Answered? && !Broken(v)
  }

  /** The webhook's write to one record: completed with the verified payment, or failed. */
  function HookOutcome(d: Donation, paymentId: Value, v: Verification, now: int): (o: Donation)
    requires v.Answered? && !Broken(v)
    ensures o.txRef == d.txRef && o.paymentId == paymentId
    ensures o.status == Completed <==> Successful(v)
    ensures Successful(v) ==> o == Complete(d, v.data.value, now).(paymentId := paymentId)
    ensures !Successful(v) ==> o == Fail(d, FailureReason(v)).(paymentId := paymentId)
  {
    if Successful(v) then Complete(d, v.data.value, now).(paymentId := paymentId)
    else Fail(d, FailureReason(v)).(paymentId := paymentId)
  }

  /**
   * `/webhook` after the signature check: the records as the event leaves
   * them. `order` is the natural order of the records, and `operators` the
   * database's evaluation of query operators.
   */
  function HookRecords(records: map<string, Donation>, order: seq<string>, event: Doc, v: Verification, now: int,
                       operators: (map<string, Value>, string) -> bool): (r: map<string, Donation>)
    ensures r.Keys == records.Keys
    ensures !HookWrites(event, v) ==> r == records
    ensures HookWrites(event, v) ==>
      var data := Field(event, "data");
      var k := Matching(records, order, Prop(data, "tx_ref"), operators);
      (k.None? ==> r == records) &&
      (k.Some? ==> r == records[k.value := HookOutcome(records[k.value], Prop(data, "id"), v, now)])
  {
    if !HookWrites(event, v) then records
    else
      var data := Field(event, "data");
      match Matching(records, order, Prop(data, "tx_ref"), operators)
      case None => records
      case Some(k) => records[k := HookOutcome(records[k], Prop(data, "id"), v, now)]
  }

  /** `/verify/:tx_ref` on a stored record: what the poll writes to it. */
  function PollOutcome(d: Donation, v: Verification, now: int): (o: Donation)
    ensures o.txRef == d.txRef && o.paymentId == d.paymentId
    ensures d.status == Completed || !Truthy(d.paymentId) || !v.Answered? || Broken(v) ==> o == d
    ensures d.status != Completed && Truthy(d.paymentId) && Successful(v) ==> o == Complete(d, v.data.value, now)
    ensures d.status != Completed && Truthy(d.paymentId) && v.Answered? && !Broken(v) && !Successful(v) ==>
      o == Fail(d, FailureReason(v))
  {
    if d.status == Completed || !Truthy(d.paymentId) || !v.Answered? || Broken(v) then d
    else if Successful(v) then Complete(d, v.data.value, now)
    else Fail(d, FailureReason(v))
  }

  function PollRecords(records: map<string, Donation>, ref: string, v: Verification, now: int): (r: map<string, Donation>)
    ensures r.Keys == records.Keys
    ensures forall k :: k in records && k != ref ==> r[k] == records[k]
    ensures ref in records ==> r[ref] == PollOutcome(records[ref], v, now)
  {
    if ref in records then records[ref := PollOutcome(records[ref], v, now)] else records
  }

  /** `{ tx_ref, amount, currency, status }` of a record as it was read. */
  function Summary(d: Donation): (r: Doc)
    ensures |r| == 4
    ensures "tx_ref" in r && r["tx_ref"] == Str(d.txRef)
    ensures "status" in r && r["status"].Str? && r["status"].s == StatusName(d.status)
  {
    map["tx_ref" := Str(d.txRef), "amount" := d.amount, "currency" := d.currency, "status" := Str(StatusName(d.status))]
  }

  /** The answer of `/verify/:tx_ref` when the record is there. */
  function PollResponse(d: Donation, v: Verification, now: int): (r: Response)
    ensures r.status == 200 && "donation" in r.body
    ensures d.status == Completed ==>
      r.body == map["status" := Str("success"), "donation" := Obj(Summary(d)["date" := Date(d.date)])]
    ensures d.status != Completed && Truthy(d.paymentId) && Successful(v) ==>
      Field(r.body, "status") == Str("success") &&
      r.body["donation"] == Obj(map["tx_ref" := Str(d.txRef), "amount" := v.data.value.amount,
        "currency" := Or(v.data.value.currency, Str("NGN")), "status" := Str("completed"), "date" := Date(now)])
    ensures d.status != Completed && !(Truthy(d.paymentId) && Successful(v)) ==>
      r.body == map["status" := Str("pending"), "donation" := Obj(Summary(d))]
  {
    if d.status == Completed then
      Response(200, map["status" := Str("success"), "donation" := Obj(Summary(d)["date" := Date(d.date)])])
    else if Truthy(d.paymentId) && Successful(v) then
      var data := v.data.value;
      Response(200, map["status" := Str("success"), "donation" := Obj(map["tx_ref" := Str(d.txRef),
        "amount" := data.amount, "currency" := Or(data.currency, Str("NGN")), "status" := Str("completed"),
        "date" := Date(now)])])
    else
      Response(200, map["status" := Str(if d.status == Completed then "success" else "pending"), "donation" := Obj(Summary(d))])
  }

  lemma InitKeepsConsistent(records: map<string, Donation>, ref: string, req: DonationRequest,
                            currencyEnv: Option<string>, now: int, gateway: InitReply)
    requires Consistent(records) && StartsWith(ref, "hcm_")
    ensures Consistent(InitRecords(records, ref, req, currencyEnv, now, gateway))
  {
    var r := InitRecords(records, ref, req, currencyEnv, now, gateway);
    forall k | k in r
      ensures r[k].txRef == k && StartsWith(k, "hcm_")
      ensures r[k].status == Completed ==> r[k].paidAt.Some? && r[k].verifiedAt.Some?
      ensures r[k].status == Failed ==> Truthy(r[k].error)
    {
      if k != ref {
        assert r[k] == records[k];
      } else if InitDeclined(gateway) {
        var d := if ref in records then records[ref] else NewDonation(ref, req, currencyEnv, now);
        assert r[k] == Fail(d, Or(gateway.message, Str("Payment initialization failed")));
      }
    }
  }

  lemma HookKeepsConsistent(records: map<string, Donation>, order: seq<string>, event: Doc, v: Verification, now: int,
                            operators: (map<string, Value>, string) -> bool)
    requires Consistent(records)
    ensures Consistent(HookRecords(records, order, event, v, now, operators))
  {
  }

  /** Initialization keeps the natural order a listing of the stored references. */
  lemma InitKeepsOrdered(records: map<string, Donation>, order: seq<string>, ref: string, req: DonationRequest,
                         currencyEnv: Option<string>, now: int, gateway: InitReply)
    requires Ordered(records, order)
    ensures Ordered(InitRecords(records, ref, req, currencyEnv, now, gateway), InitOrder(order, records, ref))
  {
    var o := InitOrder(order, records, ref);
    if ref !in records {
      assert ref !in order;
      assert forall i :: 0 <= i < |order| ==> o[i] == order[i];
      assert o[|order|] == ref;
    }
  }

  lemma PollKeepsConsistent(records: map<string, Donation>, ref: string, v: Verification, now: int)
    requires Consistent(records)
    ensures Consistent(PollRecords(records, ref, v, now))
  {
  }

  class DonationStore {
    /** The `donations` collection, by `tx_ref`. */
    var records: map<string, Donation>
    /** The references in natural (insertion) order. */
    var order: seq<string>

    predicate Valid()
      reads this
    {
      Consistent(records) && Ordered(records, order)
    }

    constructor()
      ensures Valid() && records == map[] && order == []
    {
      records := map[];
      order := [];
    }

    /**
     * `POST /initialize`. `valid` is the verdict of the request validators;
     * `now` and `suffix` make the reference; `gateway` is what the payment
     * gateway does with the payload.
     */
    method Initialize(req: DonationRequest, valid: bool, publicKey: Option<string>, secretKey: Option<string>,
                      currencyEnv: Option<string>, now: nat, suffix: string, gateway: InitReply) returns (r: Response)
      requires Valid()
      modifies this
      ensures Valid()
      ensures !valid ==> r.status == 400 && records == old(records) && order == old(order)
      ensures valid && !(Present(publicKey) && Present(secretKey)) ==>
        r == ErrorResponse(500, "Flutterwave credentials not configured") && records == old(records) && order == old(order)
      ensures valid && Present(publicKey) && Present(secretKey) ==>
        var ref := TxRef(now, suffix);
        records == InitRecords(old(records), ref, req, currencyEnv, now, gateway) &&
        order == InitOrder(old(order), old(records), ref) &&
        (gateway.InitAnswered? && gateway.status == Str("success") && gateway.link.Some? ==>
          r == Response(200, map["payment_link" := gateway.link.value, "tx_ref" := Str(ref)])) &&
        (InitDeclined(gateway) ==> r == ErrorResponse(400, "Failed to initialize payment")) &&
        (gateway.InitThrew? ==> r == Response(500, map["error" := Or(gateway.message, Str("Payment initialization failed"))])) &&
        (gateway.InitAnswered? && gateway.status == Str("success") && gateway.link.None? ==> r.status == 500)
    {
      if !valid {
        return Response(400, map["error" := Str("Validation failed")]);
      }
      if !Present(publicKey) || !Present(secretKey) {
        return ErrorResponse(500, "Flutterwave credentials not configured");
      }
      var ref := TxRef(now, suffix);
      InitKeepsConsistent(records, ref, req, currencyEnv, now, gateway);
      InitKeepsOrdered(records, order, ref, req, currencyEnv, now, gateway);
      if ref !in records {
        records := records[ref := NewDonation(ref, req, currencyEnv, now)];
        order := order + [ref];
      }
      match gateway
      case InitThrew(message) =>
        r := Response(500, map["error" := Or(message, Str("Payment initialization failed"))]);
      case InitAnswered(status, link, message) =>
        if status == Str("success") {
          if link.Some? {
            r := Response(200, map["payment_link" := link.value, "tx_ref" := Str(ref)]);
          } else {
            r := ErrorResponse(500, "Cannot read properties of undefined (reading 'link')");
          }
        } else {
          records := records[ref := Fail(records[ref], Or(message, Str("Payment initialization failed")))];
          r := ErrorResponse(400, "Failed to initialize payment");
        }
    }

    /**
     * `POST /webhook`. `signature` is the `verif-hash` header and `hmac`
     * the hex HMAC-SHA256 of the serialised event under a key; `verification`
     * is what the gateway says about the event's payment; `operators` is the
     * database's evaluation of an operator object in `data.tx_ref`.
     */
    method Webhook(secretKey: Option<string>, secretHash: Option<string>, signature: Option<string>,
                   hmac: (string, Doc) -> string, event: Doc, verification: Verification, now: int,
                   operators: (map<string, Value>, string) -> bool)
      returns (r: Response)
      requires Valid()
      modifies this
      ensures Valid() && order == old(order)
      ensures !Present(secretKey) ==>
        r == ErrorResponse(500, "Flutterwave secret key not configured") && records == old(records)
      ensures Present(secretKey) && Present(secretHash) && Present(signature) &&
              hmac(secretHash.value, event) != signature.value ==>
        r == ErrorResponse(401, "Unauthorized") && records == old(records)
      ensures r.status == 200 <==>
        Present(secretKey) &&
        (Present(secretHash) && Present(signature) ==> hmac(secretHash.value, event) == signature.value) &&
        (IsChargeEvent(event) ==> HookWrites(event, verification))
      ensures Present(secretKey) &&
              (Present(secretHash) && Present(signature) ==> hmac(secretHash.value, event) == signature.value) &&
              IsChargeEvent(event) && !HookWrites(event, verification) ==>
        r.status == 500 && records == old(records)
      ensures r.status == 200 ==>
        r.body == map["status" := Str("success")] &&
        records == HookRecords(old(records), order, event, verification, now, operators)
      ensures r.status != 200 ==> records == old(records)
    {
      if !Present(secretKey) {
        return ErrorResponse(500, "Flutterwave secret key not configured");
      }
      if Present(secretHash) && Present(signature) {
        var hash := hmac(secretHash.value, event);
        if hash != signature.value {
          return ErrorResponse(401, "Unauthorized");
        }
      }
      if IsChargeEvent(event) {
        r := Charge(event, verification, now, operators);
      } else {
        r := Response(200, map["status" := Str("success")]);
      }
    }

    /**
     * The webhook's handling of a charge event, once the signature is
     * accepted: the verification, the write to the matched record, and the
     * 500 answers of the `catch` when a property read or the gateway throws.
     */
    method Charge(event: Doc, verification: Verification, now: int, operators: (map<string, Value>, string) -> bool)
      returns (r: Response)
      requires Valid() && IsChargeEvent(event)
      modifies this
      ensures Valid() && order == old(order)
      ensures HookWrites(event, verification) ==>
        r == Response(200, map["status" := Str("success")]) &&
        records == HookRecords(old(records), order, event, verification, now, operators)
      ensures !HookWrites(event, verification) ==> r.status == 500 && records == old(records)
    {
      HookKeepsConsistent(records, order, event, verification, now, operators);
      if DataMissing(event) {
        return ErrorResponse(500, "Cannot read properties of undefined (reading 'tx_ref')");
      }
      if verification.VerifyThrew? {
        return ErrorResponse(500, "Transaction verification failed");
      }
      if Broken(verification) {
        return ErrorResponse(500, "Cannot read properties of undefined (reading 'status')");
      }
      var transactionData := Field(event, "data");
      var key := Matching(records, order, Prop(transactionData, "tx_ref"), operators);
      if key.Some? {
        records := records[key.value := HookOutcome(records[key.value], Prop(transactionData, "id"), verification, now)];
      }
      r := Response(200, map["status" := Str("success")]);
    }

    /** `GET /verify/:tx_ref`. A failing or broken verification is caught inside and only skips the update. */
    method Verify(ref: string, secretKey: Option<string>, verification: Verification, now: int) returns (r: Response)
      requires Valid()
      modifies this
      ensures Valid() && order == old(order)
      ensures !Present(secretKey) ==>
        r == ErrorResponse(500, "Flutterwave secret key not configured") && records == old(records)
      ensures Present(secretKey) && ref !in old(records) ==>
        r == ErrorResponse(404, "Donation not found") && records == old(records)
      ensures Present(secretKey) && ref in old(records) ==>
        r == PollResponse(old(records)[ref], verification, now) &&
        records == PollRecords(old(records), ref, verification, now)
    {
      if !Present(secretKey) {
        return ErrorResponse(500, "Flutterwave secret key not configured");
      }
      if ref !in records {
        return ErrorResponse(404, "Donation not found");
      }
      r := Poll(ref, verification, now);
    }

    /** `/verify/:tx_ref` once the record is found: answer from the record, or verify and write. */
    method Poll(ref: string, verification: Verification, now: int) returns (r: Response)
      requires Valid() && ref in records
      modifies this
      ensures Valid() && order == old(order)
      ensures r == PollResponse(old(records)[ref], verification, now)
      ensures records == PollRecords(old(records), ref, verification, now)
    {
      var donation := records[ref];
      assert records[ref := donation] == records;
      if donation.status == Completed {
        return Response(200, map["status" := Str("success"), "donation" := Obj(Summary(donation)["date" := Date(donation.date)])]);
      }
      PollKeepsConsistent(records, ref, verification, now);
      if Truthy(donation.paymentId) && verification.Answered? && !Broken(verification) {
        if Successful(verification) {
          var data := verification.data.value;
          records := records[ref := Complete(donation, data, now)];
          return Response(200, map["status" := Str("success"), "donation" := Obj(map["tx_ref" := Str(ref),
            "amount" := data.amount, "currency" := Or(data.currency, Str("NGN")), "status" := Str("completed"),
            "date" := Date(now)])]);
        }
        records := records[ref := Fail(donation, FailureReason(verification))];
      }
      r := Response(200, map["status" := Str(if donation.status == Completed then "success" else "pending"),
                             "donation" := Obj(Summary(donation))]);
    }
  }

  /** A poll that is answered from the fallback reports `pending` and the status as it was read, not as it was just written. */
  lemma PollReportsStatusAsRead(d: Donation, v: Verification, now: int)
    requires d.status != Completed && Truthy(d.paymentId) && v.Answered? && !Broken(v) && !Successful(v)
    ensures PollOutcome(d, v, now).status == Failed
    ensures PollResponse(d, v, now).body["status"] == Str("pending")
    ensures PollResponse(d, v, now).body["donation"] == Obj(Summary(d))
  {
  }

  /** One request against the donations, as the handlers take it once their configuration checks pass. */
  datatype Step =
    | Init(req: DonationRequest, currencyEnv: Option<string>, now: nat, suffix: string, gateway: InitReply)
    | Hook(event: Doc, verification: Verification, hookNow: int)
    | Poll(ref: string, pollVerification: Verification, pollNow: int)

  /** The donations collection: the records and their natural order. */
  datatype Ledger = Ledger(records: map<string, Donation>, order: seq<string>)

  predicate Sound(l: Ledger) {
    Consistent(l.records) && Ordered(l.records, l.order)
  }

  /** What one request does to the collection. */
  function Apply(l: Ledger, s: Step, operators: (map<string, Value>, string) -> bool): (r: Ledger)
    ensures s.Init? ==> r.order == InitOrder(l.order, l.records, TxRef(s.now, s.suffix))
    ensures !s.Init? ==> r.order == l.order
  {
    match s
    case Init(req, env, now, suffix, g) =>
      var ref := TxRef(now, suffix);
      Ledger(InitRecords(l.records, ref, req, env, now, g), InitOrder(l.order, l.records, ref))
    case Hook(event, v, now) => Ledger(HookRecords(l.records, l.order, event, v, now, operators), l.order)
    case Poll(ref, v, now) => Ledger(PollRecords(l.records, ref, v, now), l.order)
  }

  /** What a sequence of requests does, one after the other. */
  function Run(l: Ledger, steps: seq<Step>, operators: (map<string, Value>, string) -> bool): (r: Ledger)
    ensures (forall i :: 0 <= i < |steps| ==> !steps[i].Init?) ==> r.order == l.order
    decreases |steps|
  {
    if |steps| == 0 then l
    else
      assert forall i :: 0 <= i < |steps[1..]| ==> steps[1..][i] == steps[i + 1];
      Run(Apply(l, steps[0], operators), steps[1..], operators)
  }

  /**
   * Every sequence of requests keeps the records consistent and their order
   * a listing of them; no record is ever removed, and the natural order only
   * grows at its end.
   */
  lemma {:induction false} RunKeepsConsistent(l: Ledger, steps: seq<Step>, operators: (map<string, Value>, string) -> bool)
    requires Sound(l)
    ensures Sound(Run(l, steps, operators))
    ensures l.records.Keys <= Run(l, steps, operators).records.Keys
    ensures l.order <= Run(l, steps, operators).order
    decreases |steps|
  {
    if |steps| > 0 {
      ApplyKeepsSound(l, steps[0], operators);
      RunKeepsConsistent(Apply(l, steps[0], operators), steps[1..], operators);
    }
  }

  /** One request keeps the collection sound, keeps every record and only extends the natural order. */
  lemma ApplyKeepsSound(l: Ledger, s: Step, operators: (map<string, Value>, string) -> bool)
    requires Sound(l)
    ensures Sound(Apply(l, s, operators))
    ensures l.records.Keys <= Apply(l, s, operators).records.Keys
    ensures l.order <= Apply(l, s, operators).order
  {
    match s {
      case Init(req, env, now, suffix, g) =>
        InitKeepsConsistent(l.records, TxRef(now, suffix), req, env, now, g);
        InitKeepsOrdered(l.records, l.order, TxRef(now, suffix), req, env, now, g);
      case Hook(event, v, now) => HookKeepsConsistent(l.records, l.order, event, v, now, operators);
      case Poll(ref, v, now) => PollKeepsConsistent(l.records, ref, v, now);
    }
  }

  /** Polling never changes a completed record, however often it is polled. */
  lemma {:induction false} PollsKeepCompleted(l: Ledger, steps: seq<Step>, k: string,
                                              operators: (map<string, Value>, string) -> bool)
    requires forall i :: 0 <= i < |steps| ==> steps[i].Poll?
    requires k in l.records && l.records[k].status == Completed
    ensures k in Run(l, steps, operators).records && Run(l, steps, operators).records[k] == l.records[k]
    decreases |steps|
  {
    if |steps| > 0 {
      var next := Apply(l, steps[0], operators);
      assert next.records[k] == l.records[k];
      assert forall i :: 0 <= i < |steps[1..]| ==> steps[1..][i].Poll?;
      PollsKeepCompleted(next, steps[1..], k, operators);
    }
  }

  /** The webhook has no such guard: a failed verification turns a completed record into a failed one. */
  lemma HookOverwritesCompleted(records: map<string, Donation>, order: seq<string>, k: string, id: Value,
                                v: Verification, now: int, operators: (map<string, Value>, string) -> bool)
    requires Consistent(records) && Ordered(records, order)
    requires k in records && records[k].status == Completed
    requires v.Answered? && !Broken(v) && !Successful(v)
    ensures var event := map["event" := Str("charge.completed"), "data" := Obj(map["tx_ref" := Str(k), "id" := id])];
      HookRecords(records, order, event, v, now, operators)[k].status == Failed
  {
    var event := map["event" := Str("charge.completed"), "data" := Obj(map["tx_ref" := Str(k), "id" := id])];
    assert IsChargeEvent(event) && !DataMissing(event);
    assert Prop(Field(event, "data"), "tx_ref") == Str(k);
    StringRefSelectsItsRecord(records, order, k, operators);
  }

  /** The query picks the same record in two collections whose records carry the same references. */
  lemma {:induction false} MatchingSameRefs(r1: map<string, Donation>, r2: map<string, Donation>, order: seq<string>,
                                            q: Value, operators: (map<string, Value>, string) -> bool)
    requires r1.Keys == r2.Keys && forall k :: k in r1 ==> r1[k].txRef == r2[k].txRef
    ensures Matching(r1, order, q, operators) == Matching(r2, order, q, operators)
    decreases |order|
  {
    if order != [] {
      MatchingSameRefs(r1, r2, order[1..], q, operators);
    }
  }

  /** Writing a record twice with the same payment and verification writes it once. */
  lemma HookOutcomeIdempotent(d: Donation, paymentId: Value, v: Verification, now: int)
    requires v.Answered? && !Broken(v)
    ensures HookOutcome(HookOutcome(d, paymentId, v, now), paymentId, v, now) == HookOutcome(d, paymentId, v, now)
  {
  }

  /** The same event delivered twice at the same time leaves the records as one delivery does. */
  lemma HookIdempotent(records: map<string, Donation>, order: seq<string>, event: Doc, v: Verification, now: int,
                       operators: (map<string, Value>, string) -> bool)
    ensures var once := HookRecords(records, order, event, v, now, operators);
      HookRecords(once, order, event, v, now, operators) == once
  {
    var once := HookRecords(records, order, event, v, now, operators);
    if HookWrites(event, v) {
      var data := Field(event, "data");
      var q := Prop(data, "tx_ref");
      MatchingSameRefs(records, once, order, q, operators);
      var k := Matching(records, order, q, operators);
      if k.Some? {
        var o := HookOutcome(records[k.value], Prop(data, "id"), v, now);
        HookOutcomeIdempotent(records[k.value], Prop(data, "id"), v, now);
        assert once[k.value] == o;
        assert once[k.value := o] == once;
      }
    }
  }

  /**
   * A redelivered successful event keeps a completed record completed but
   * stamps it with the new time: the payment and verification times of a
   * completed donation are not final.
   */
  lemma HookRestampsCompleted(records: map<string, Donation>, order: seq<string>, k: string, id: Value,
                              v: Verification, now: int, operators: (map<string, Value>, string) -> bool)
    requires Consistent(records) && Ordered(records, order)
    requires k in records && records[k].status == Completed && records[k].paidAt != Some(now)
    requires Successful(v)
    ensures var event := map["event" := Str("charge.completed"), "data" := Obj(map["tx_ref" := Str(k), "id" := id])];
      var r := HookRecords(records, order, event, v, now, operators);
      r[k].status == Completed && r[k].paidAt == Some(now) && r[k].verifiedAt == Some(now) && r[k] != records[k]
  {
    var event := map["event" := Str("charge.completed"), "data" := Obj(map["tx_ref" := Str(k), "id" := id])];
    assert IsChargeEvent(event) && !DataMissing(event);
    assert Prop(Field(event, "data"), "tx_ref") == Str(k);
    StringRefSelectsItsRecord(records, order, k, operators);
  }

  /** Failed is not final either: a successful event completes a failed record. */
  lemma HookCompletesFailed(records: map<string, Donation>, order: seq<string>, k: string, id: Value,
                            v: Verification, now: int, operators: (map<string, Value>, string) -> bool)
    requires Consistent(records) && Ordered(records, order)
    requires k in records && records[k].status == Failed
    requires Successful(v)
    ensures var event := map["event" := Str("charge.completed"), "data" := Obj(map["tx_ref" := Str(k), "id" := id])];
      HookRecords(records, order, event, v, now, operators)[k].status == Completed
  {
    var event := map["event" := Str("charge.completed"), "data" := Obj(map["tx_ref" := Str(k), "id" := id])];
    assert IsChargeEvent(event) && !DataMissing(event);
    assert Prop(Field(event, "data"), "tx_ref") == Str(k);
    StringRefSelectsItsRecord(records, order, k, operators);
  }

  /** A poll completes a failed record that has a payment id when the verification succeeds. */
  lemma PollCompletesFailed(d: Donation, v: Verification, now: int)
    requires d.status == Failed && Truthy(d.paymentId) && Successful(v)
    ensures PollOutcome(d, v, now).status == Completed
  {
  }

  /** No request turns a completed or failed record back into a pending one. */
  lemma NeverBackToPending(l: Ledger, s: Step, k: string, operators: (map<string, Value>, string) -> bool)
    requires k in l.records && l.records[k].status != Pending
    ensures k in Apply(l, s, operators).records && Apply(l, s, operators).records[k].status != Pending
  {
  }

  /** Nor does any sequence of requests. */
  lemma {:induction false} RunNeverBackToPending(l: Ledger, steps: seq<Step>, k: string,
                                                 operators: (map<string, Value>, string) -> bool)
    requires k in l.records && l.records[k].status != Pending
    ensures k in Run(l, steps, operators).records && Run(l, steps, operators).records[k].status != Pending
    decreases |steps|
  {
    if |steps| > 0 {
      NeverBackToPending(l, steps[0], k, operators);
      RunNeverBackToPending(Apply(l, steps[0], operators), steps[1..], k, operators);
    }
  }

  /** The operator object `{ "$ne": null }`, which every stored reference satisfies. */
  const NotNull: Value := Obj(map["$ne" := Null])

  /**
   * The webhook passes `data.tx_ref` to the query unchecked, so an event
   * whose reference is `{ "$ne": null }` selects every record, and a failed
   * verification then marks the first record in natural order failed,
   * whatever its reference and status, and no other record.
   */
  lemma OperatorRefHitsFirstRecord(records: map<string, Donation>, order: seq<string>, id: Value,
                                   v: Verification, now: int, operators: (map<string, Value>, string) -> bool)
    requires Ordered(records, order) && |order| > 0
    requires forall t :: operators(map["$ne" := Null], t)
    requires v.Answered? && !Broken(v) && !Successful(v)
    ensures var event := map["event" := Str("charge.completed"), "data" := Obj(map["tx_ref" := NotNull, "id" := id])];
      var r := HookRecords(records, order, event, v, now, operators);
      order[0] in r && r[order[0]].status == Failed &&
      forall k :: k in records && k != order[0] ==> r[k] == records[k]
  {
    var event := map["event" := Str("charge.completed"), "data" := Obj(map["tx_ref" := NotNull, "id" := id])];
    assert IsChargeEvent(event) && !DataMissing(event);
    assert Prop(Field(event, "data"), "tx_ref") == NotNull;
    assert order[0] in records;
    assert StartsWith("$ne", "$");
    assert Hit(records, order[0], NotNull, operators);
  }

  /** Only a completed verification completes a record: a record that was not completed and is now was verified by a step. */
  lemma CompletionNeedsVerification(l: Ledger, s: Step, k: string, operators: (map<string, Value>, string) -> bool)
    requires k in l.records && l.records[k].status != Completed
    requires k in Apply(l, s, operators).records && Apply(l, s, operators).records[k].status == Completed
    ensures s.Hook? ==> Successful(s.verification)
    ensures s.Poll? ==> s.ref == k && Successful(s.pollVerification) && Truthy(l.records[k].paymentId)
    ensures !s.Init?
  {
  }
}
