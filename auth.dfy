/**
 * The `verifyAdmin` and `verifyUser` middleware of server/middleware/auth.js:
 * a bearer token is taken from the Authorization header, the identity
 * provider is asked for its user, and the request is either passed on with
 * `req.user` set or answered with 401, 403 or 500.
 */
module Auth {

  import opened Js
  import opened Strings

  /** A provider user. `appRole` is `app_metadata?.role`, `userRole` is `user_metadata?.role`. */
  datatype User = User(id: string, appRole: Value, userRole: Value)

  /** What `supabase.auth.getUser(token)` produces: a reply, or an exception. */
  datatype AuthReply =
    | Replied(user: Option<User>, failed: bool)
    | Threw

  /** Either the request goes on to the next handler with this user, or it is answered. */
  datatype Outcome = Admit(user: User) | Deny(response: Response)

  const BearerPrefix := "Bearer "

  /** `authHeader && authHeader.startsWith('Bearer ')` */
  predicate IsBearer(header: Option<string>) {
    Present(header) && StartsWith(header.value, BearerPrefix)
  }

  /** `authHeader.split(' ')[1]` */
  function Token(header: string): (t: string)
    requires StartsWith(header, BearerPrefix)
    ensures ' ' !in t
  {
    assert header[6] == ' ';
    var parts := Split(header, ' ');
    assert IndexOf(header, ' ') == 6;
    assert parts == [header[..6]] + Split(header[7..], ' ');
    parts[1]
  }

  /** The token is what follows `Bearer ` up to the next space. */
  lemma TokenAfterPrefix(t: string, rest: string)
    requires ' ' !in t
    ensures Token(BearerPrefix + t) == t
    ensures Token(BearerPrefix + t + " " + rest) == t
  {
    var h1 := BearerPrefix + t;
    assert h1[6] == ' ' && h1[7..] == t;
    assert IndexOf(h1, ' ') == 6;
    IndexOfAbsent(t, ' ');
    assert Split(h1, ' ') == [h1[..6]] + [t];
    var tail := t + [' '] + rest;
    var h2 := BearerPrefix + t + " " + rest;
    assert h2[6] == ' ' && h2[7..] == tail;
    assert IndexOf(h2, ' ') == 6;
    IndexOfAfter(t, ' ', rest);
    assert tail[..|t|] == t;
    assert Split(h2, ' ') == [h2[..6]] + Split(tail, ' ');
    assert Split(tail, ' ')[0] == t;
  }

  const NoTokenAdmin := "No authorization token provided"
  const NoTokenUser := "No authorization token provided. Please login to download sermons."
  const InvalidAdmin := "Invalid token"
  const InvalidUser := "Invalid or expired token. Please login again."
  const AuthFailed := "Authentication failed"

  /** The user the provider vouches for: a reply with no error and a user. */
  predicate Vouched(reply: AuthReply) {
    reply.Replied? && !reply.failed && reply.user.Some?
  }

  /** `role !== 'admin'` is false exactly for the string `'admin'`. */
  predicate IsAdminRole(role: Value) {
    role == Str("admin")
  }

  /** A vouched user whose `app_metadata.role` is `'admin'`. */
  predicate VouchedAdmin(reply: AuthReply) {
    Vouched(reply) && IsAdminRole(reply.user.value.appRole)
  }

  /** The 403 body of verifyAdmin. */
  const AdminRequired := Response(403, map[
    "error" := Str("Admin access required"),
    "hint" := Str("Please ensure your user role is set in app_metadata via Supabase dashboard")])

  /** The decision of `verifyAdmin`; `getUser` is the identity provider. */
  function VerifyAdmin(header: Option<string>, getUser: string -> AuthReply): (o: Outcome)
    ensures !IsBearer(header) ==> o == Deny(ErrorResponse(401, NoTokenAdmin))
    ensures IsBearer(header) ==>
      var reply := getUser(Token(header.value));
      (reply.Threw? ==> o == Deny(ErrorResponse(500, AuthFailed))) &&
      (reply.Replied? && !Vouched(reply) ==> o == Deny(ErrorResponse(401, InvalidAdmin))) &&
      (Vouched(reply) && !IsAdminRole(reply.user.value.appRole) ==> o == Deny(AdminRequired)) &&
      (Vouched(reply) && IsAdminRole(reply.user.value.appRole) ==> o == Admit(reply.user.value))
    ensures o.Admit? <==> IsBearer(header) && VouchedAdmin(getUser(Token(header.value)))
  {
    if !IsBearer(header) then Deny(ErrorResponse(401, NoTokenAdmin))
    else
      match getUser(Token(header.value))
      case Threw => Deny(ErrorResponse(500, AuthFailed))
      case Replied(user, failed) =>
        if failed || user.None? then Deny(ErrorResponse(401, InvalidAdmin))
        else if !IsAdminRole(user.value.appRole) then Deny(AdminRequired)
        else Admit(user.value)
  }

  /** The decision of `verifyUser`: the same chain without the role check. */
  function VerifyUser(header: Option<string>, getUser: string -> AuthReply): (o: Outcome)
    ensures !IsBearer(header) ==> o == Deny(ErrorResponse(401, NoTokenUser))
    ensures IsBearer(header) ==>
      var reply := getUser(Token(header.value));
      (reply.Threw? ==> o == Deny(ErrorResponse(500, AuthFailed))) &&
      (reply.Replied? && !Vouched(reply) ==> o == Deny(ErrorResponse(401, InvalidUser))) &&
      (Vouched(reply) ==> o == Admit(reply.user.value))
    ensures o.Admit? <==> IsBearer(header) && Vouched(getUser(Token(header.value)))
  {
    if !IsBearer(header) then Deny(ErrorResponse(401, NoTokenUser))
    else
      match getUser(Token(header.value))
      case Threw => Deny(ErrorResponse(500, AuthFailed))
      case Replied(user, failed) =>
        if failed || user.None? then Deny(ErrorResponse(401, InvalidUser))
        else Admit(user.value)
  }

  /** Without a bearer header the provider is never asked: its answers make no difference. */
  lemma HeaderCheckedBeforeProvider(header: Option<string>, p1: string -> AuthReply, p2: string -> AuthReply)
    requires !IsBearer(header)
    ensures VerifyAdmin(header, p1) == VerifyAdmin(header, p2) && VerifyAdmin(header, p1).response.status == 401
    ensures VerifyUser(header, p1) == VerifyUser(header, p2) && VerifyUser(header, p1).response.status == 401
  {
  }

  /** Only the provider's answer for this request's token matters. */
  lemma ProviderAskedAboutTokenOnly(header: Option<string>, p1: string -> AuthReply, p2: string -> AuthReply)
    requires IsBearer(header) && p1(Token(header.value)) == p2(Token(header.value))
    ensures VerifyAdmin(header, p1) == VerifyAdmin(header, p2)
    ensures VerifyUser(header, p1) == VerifyUser(header, p2)
  {
  }

  /** `user_metadata` is never consulted: a user cannot grant itself the admin role. */
  lemma UserMetadataIgnored(header: Option<string>, getUser: string -> AuthReply, u: User, forged: Value)
    requires IsBearer(header) && getUser(Token(header.value)) == Replied(Some(u), false)
    requires !IsAdminRole(u.appRole)
    ensures VerifyAdmin(header, getUser) == VerifyAdmin(header, t => Replied(Some(u.(userRole := forged)), false))
    ensures VerifyAdmin(header, getUser) == Deny(AdminRequired)
  {
  }

  /** Every request verifyAdmin admits, verifyUser admits with the same user. */
  lemma AdminIsUser(header: Option<string>, getUser: string -> AuthReply)
    requires VerifyAdmin(header, getUser).Admit?
    ensures VerifyUser(header, getUser) == VerifyAdmin(header, getUser)
  {
  }

  /** A vouched user whose role is not `'admin'` is refused with 403, whatever verifyUser says. */
  lemma NonAdminForbidden(header: Option<string>, getUser: string -> AuthReply)
    requires IsBearer(header) && Vouched(getUser(Token(header.value)))
    requires !IsAdminRole(getUser(Token(header.value)).user.value.appRole)
    ensures VerifyAdmin(header, getUser).Deny? && VerifyAdmin(header, getUser).response.status == 403
    ensures VerifyUser(header, getUser).Admit?
  {
  }

  /** One request passing through the middleware: `req.user`, the response sent, and `next()` calls. */
  class Exchange {
    const authorization: Option<string>
    var user: Option<User>
    var response: Option<Response>
    var nextCalls: nat

    constructor(authorization: Option<string>)
      ensures this.authorization == authorization
      ensures user.None? && response.None? && nextCalls == 0
    {
      this.authorization := authorization;
      user := None;
      response := None;
      nextCalls := 0;
    }

    /** Apply a decision: admit sets `req.user` and calls `next()` once; deny sends the response. */
    method Apply(o: Outcome)
      modifies this
      ensures o.Admit? ==> user == Some(o.user) && response == old(response) && nextCalls == old(nextCalls) + 1
      ensures o.Deny? ==> user == old(user) && response == Some(o.response) && nextCalls == old(nextCalls)
    {
      match o
      case Admit(u) =>
        user := Some(u);
        nextCalls := nextCalls + 1;
      case Deny(r) =>
        response := Some(r);
    }

    /** `verifyAdmin(req, res, next)` */
    method RunVerifyAdmin(getUser: string -> AuthReply)
      modifies this
      ensures var o := VerifyAdmin(authorization, getUser);
        (o.Admit? ==> user == Some(o.user) && response == old(response) && nextCalls == old(nextCalls) + 1) &&
        (o.Deny? ==> user == old(user) && response == Some(o.response) && nextCalls == old(nextCalls))
    {
      Apply(VerifyAdmin(authorization, getUser));
    }

    /** `verifyUser(req, res, next)` */
    method RunVerifyUser(getUser: string -> AuthReply)
      modifies this
      ensures var o := VerifyUser(authorization, getUser);
        (o.Admit? ==> user == Some(o.user) && response == old(response) && nextCalls == old(nextCalls) + 1) &&
        (o.Deny? ==> user == old(user) && response == Some(o.response) && nextCalls == old(nextCalls))
    {
      Apply(VerifyUser(authorization, getUser));
    }
  }

  /** On a fresh request, the middleware calls `next()` exactly once or sends exactly one response. */
  method AdminMiddlewareOnce(authorization: Option<string>, getUser: string -> AuthReply)
    returns (nextCalls: nat, responded: bool)
    ensures nextCalls == 1 <==> VerifyAdmin(authorization, getUser).Admit?
    ensures nextCalls + (if responded then 1 else 0) == 1
  {
    var ex := new Exchange(authorization);
    ex.RunVerifyAdmin(getUser);
    nextCalls, responded := ex.nextCalls, ex.response.Some?;
  }
}
