/**
 * The `errorHandler` middleware of server/middleware/errorHandler.js: an
 * error is classified by the first of its rules that applies, and a
 * catch-all rule answers with the error's own status and message.
 */
module ErrorHandler {

  import opened Js
  import opened Strings

  /**
   * The fields of a thrown error that the handler reads. A missing field is
   * None; `statusCode` and `status` are numbers when present.
   */
  datatype Err = Err(
    code: Option<int>, name: Option<string>, message: Option<string>,
    statusCode: Option<int>, status: Option<int>, stack: Option<string>)

  /** JavaScript `o || d` for an optional number: 0 is falsy. */
  function NumOr(o: Option<int>, d: int): int {
    if o.Some? && o.value != 0 then o.value else d
  }

  function Reply(status: int, error: string, message: string): Response {
    Response(status, map["error" := Str(error), "message" := Str(message)])
  }

  predicate NameIs(e: Err, n: string) {
    e.name == Some(n)
  }

  /** `err.message && err.message.includes('Database not connected')` */
  predicate DatabaseDown(e: Err) {
    Present(e.message) && Contains(e.message.value, "Database not connected")
  }

  /** The catch-all: `statusCode || status || 500`, `message || 'Internal server error'`, and the stack in development only. */
  function Fallback(e: Err, development: bool): (r: Response)
    ensures r.status == NumOr(e.statusCode, NumOr(e.status, 500))
    ensures Field(r.body, "error") == Str(OrElse(e.message, "Internal server error"))
    ensures "stack" in r.body <==> development && e.stack.Some?
    ensures r.status != 0
  {
    var base := map["error" := Str(OrElse(e.message, "Internal server error"))];
    Response(NumOr(e.statusCode, NumOr(e.status, 500)),
             if development && e.stack.Some? then base["stack" := Str(e.stack.value)] else base)
  }

  /** `errorHandler(err, req, res, next)`; `development` is `NODE_ENV === 'development'`. */
  function Handle(e: Err, development: bool): (r: Response)
    ensures e.code == Some(11000) ==> r.status == 400 && Field(r.body, "error") == Str("Duplicate entry")
    ensures e.code != Some(11000) && !NameIs(e, "ValidationError") && !NameIs(e, "CastError") && DatabaseDown(e) ==>
      r.status == 503
    ensures r.status == 400 || r.status == 401 || r.status == 503 || r == Fallback(e, development)
    ensures "stack" in r.body ==> development
  {
    if e.code == Some(11000) then Reply(400, "Duplicate entry", "This record already exists")
    else if NameIs(e, "ValidationError") then Reply(400, "Validation error", OrElse(e.message, ""))
    else if NameIs(e, "CastError") then Reply(400, "Invalid ID format", "The provided ID is not valid")
    else if DatabaseDown(e) then
      Reply(503, "Service temporarily unavailable", "Database connection is not ready. Please try again in a moment.")
    else if NameIs(e, "JsonWebTokenError") then Reply(401, "Invalid token", "Authentication token is invalid")
    else if NameIs(e, "TokenExpiredError") then Reply(401, "Token expired", "Authentication token has expired")
    else Fallback(e, development)
  }

  // ---------------------------------------------------------------------
  // The same handler as an ordered rule table tried first to last

  datatype Rule = Rule(applies: Err -> bool, respond: Err -> Response)

  /** The response of the first rule that applies, or the fallback when none does. */
  function FirstMatch(rules: seq<Rule>, e: Err, fallback: Response): Response {
    if rules == [] then fallback
    else if rules[0].applies(e) then rules[0].respond(e)
    else FirstMatch(rules[1..], e, fallback)
  }

  /** When no rule applies, the fallback answers. */
  lemma {:induction false} FirstMatchNone(rules: seq<Rule>, e: Err, fallback: Response)
    requires forall i :: 0 <= i < |rules| ==> !rules[i].applies(e)
    ensures FirstMatch(rules, e, fallback) == fallback
  {
    if rules != [] {
      assert forall i :: 0 <= i < |rules[1..]| ==> rules[1..][i] == rules[i + 1];
      FirstMatchNone(rules[1..], e, fallback);
    }
  }

  /** The earliest rule that applies answers, whatever the rules after it say. */
  lemma {:induction false} FirstMatchAt(rules: seq<Rule>, e: Err, fallback: Response, i: nat)
    requires i < |rules| && rules[i].applies(e)
    requires forall j :: 0 <= j < i ==> !rules[j].applies(e)
    ensures FirstMatch(rules, e, fallback) == rules[i].respond(e)
  {
    if i > 0 {
      assert forall j :: 0 <= j < i - 1 ==> rules[1..][j] == rules[j + 1];
      assert !rules[0].applies(e);
      FirstMatchAt(rules[1..], e, fallback, i - 1);
    }
  }

  /** The six rules of errorHandler, in the order the handler tries them. */
  const Rules: seq<Rule> := [
    Rule((e: Err) => e.code == Some(11000), (e: Err) => Reply(400, "Duplicate entry", "This record already exists")),
    Rule((e: Err) => NameIs(e, "ValidationError"), (e: Err) => Reply(400, "Validation error", OrElse(e.message, ""))),
    Rule((e: Err) => NameIs(e, "CastError"), (e: Err) => Reply(400, "Invalid ID format", "The provided ID is not valid")),
    Rule((e: Err) => DatabaseDown(e),
         (e: Err) => Reply(503, "Service temporarily unavailable", "Database connection is not ready. Please try again in a moment.")),
    Rule((e: Err) => NameIs(e, "JsonWebTokenError"), (e: Err) => Reply(401, "Invalid token", "Authentication token is invalid")),
    Rule((e: Err) => NameIs(e, "TokenExpiredError"), (e: Err) => Reply(401, "Token expired", "Authentication token has expired"))
  ]

  /** One step of the first-match reading, on a suffix of the table. */
  lemma FirstMatchStep(k: nat, e: Err, fb: Response)
    requires k < |Rules|
    ensures FirstMatch(Rules[k..], e, fb) ==
      if Rules[k].applies(e) then Rules[k].respond(e) else FirstMatch(Rules[k + 1..], e, fb)
  {
    assert Rules[k..][0] == Rules[k];
    assert Rules[k..][1..] == Rules[k + 1..];
  }

  /** The handler is the first-match reading of its rule table, with the catch-all last. */
  lemma HandleIsFirstMatch(e: Err, development: bool)
    ensures Handle(e, development) == FirstMatch(Rules, e, Fallback(e, development))
  {
    var fb := Fallback(e, development);
    assert Rules[6..] == [];
    FirstMatchStep(5, e, fb);
    FirstMatchStep(4, e, fb);
    FirstMatchStep(3, e, fb);
    FirstMatchStep(2, e, fb);
    FirstMatchStep(1, e, fb);
    FirstMatchStep(0, e, fb);
    assert Rules[0..] == Rules;
  }

  /** A duplicate-key error is answered as such whatever else the error says. */
  lemma DuplicateWins(e: Err, n: Option<string>, m: Option<string>, development: bool)
    requires e.code == Some(11000)
    ensures Handle(e, development) == Handle(e.(name := n, message := m, statusCode := None), development)
  {
  }

  /** No rule of the table applies to the error. */
  predicate NoRuleApplies(e: Err) {
    forall i :: 0 <= i < |Rules| ==> !Rules[i].applies(e)
  }

  /** The table's rules are the handler's tests. */
  lemma NoRuleAppliesExactly(e: Err)
    ensures NoRuleApplies(e) <==>
      e.code != Some(11000) && !NameIs(e, "ValidationError") && !NameIs(e, "CastError") && !DatabaseDown(e) &&
      !NameIs(e, "JsonWebTokenError") && !NameIs(e, "TokenExpiredError")
  {
    assert Rules[0].applies(e) == (e.code == Some(11000));
    assert Rules[1].applies(e) == NameIs(e, "ValidationError");
    assert Rules[2].applies(e) == NameIs(e, "CastError");
    assert Rules[3].applies(e) == DatabaseDown(e);
    assert Rules[4].applies(e) == NameIs(e, "JsonWebTokenError");
    assert Rules[5].applies(e) == NameIs(e, "TokenExpiredError");
  }

  /** The first rule of the table that applies decides the response; later rules are never consulted. */
  lemma FirstRuleAnswers(e: Err, development: bool, i: nat)
    requires i < |Rules| && Rules[i].applies(e)
    requires forall j :: 0 <= j < i ==> !Rules[j].applies(e)
    ensures Handle(e, development) == Rules[i].respond(e)
  {
    HandleIsFirstMatch(e, development);
    FirstMatchAt(Rules, e, Fallback(e, development), i);
  }

  /** A status chosen by the error itself is used only when no rule applies. */
  lemma OwnStatusOnlyAsFallback(e: Err, development: bool)
    requires NoRuleApplies(e)
    ensures Handle(e, development).status == NumOr(e.statusCode, NumOr(e.status, 500))
  {
    HandleIsFirstMatch(e, development);
    FirstMatchNone(Rules, e, Fallback(e, development));
  }

  /** Outside development the stack never leaves the server; inside, it is sent only by the catch-all. */
  lemma StackOnlyInDevelopment(e: Err, development: bool)
    ensures "stack" in Handle(e, development).body <==> development && e.stack.Some? && NoRuleApplies(e)
  {
    NoRuleAppliesExactly(e);
  }
}
