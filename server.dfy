/**
 * The request-level rules of server/index.js: the list of allowed origins,
 * the CORS origin decision, which paths skip the database check and the
 * rate limiters, and the public configuration endpoint.
 */
module Server {

  import opened Js
  import opened Strings

  /** The origins allowed when `ALLOWED_ORIGINS` is not set. */
  const DefaultOrigins: seq<string> := ["http://localhost:3000", "http://127.0.0.1:3000"]

  /** `.map(origin => origin.trim())` */
  function TrimAll(parts: seq<string>): (r: seq<string>)
    ensures |r| == |parts| && forall i :: 0 <= i < |parts| ==> r[i] == Trim(parts[i])
  {
    seq(|parts|, i requires 0 <= i < |parts| => Trim(parts[i]))
  }

  /** `allowedOrigins`: the comma-separated, trimmed `ALLOWED_ORIGINS`, or the two local origins. */
  function AllowedOrigins(env: Option<string>): (r: seq<string>)
    ensures |r| >= 1
    ensures !Present(env) ==> r == DefaultOrigins
    ensures Present(env) ==> r == TrimAll(Split(env.value, ','))
  {
    if Present(env) then TrimAll(Split(env.value, ',')) else DefaultOrigins
  }

  /** No allowed origin has white space at either end, and none contains a comma. */
  lemma OriginsTrimmed(env: Option<string>)
    ensures forall i :: 0 <= i < |AllowedOrigins(env)| ==>
      var o := AllowedOrigins(env)[i];
      (|o| > 0 ==> !IsJsSpace(o[0]) && !IsJsSpace(o[|o| - 1])) && ',' !in o
  {
    var r := AllowedOrigins(env);
    if Present(env) {
      var parts := Split(env.value, ',');
      forall i | 0 <= i < |r| ensures (|r[i]| > 0 ==> !IsJsSpace(r[i][0]) && !IsJsSpace(r[i][|r[i]| - 1])) && ',' !in r[i] {
        TrimTrimmed(parts[i]);
        var u := TrimStart(parts[i]);
        assert u == parts[i][|parts[i]| - |u|..];
        assert r[i] == u[..|r[i]|];
        assert forall k :: 0 <= k < |r[i]| ==> r[i][k] == parts[i][|parts[i]| - |u| + k];
      }
    }
  }

  /** Writing a list of trimmed, comma-free origins into `ALLOWED_ORIGINS` gives exactly that list. */
  lemma OriginsRoundTrip(origins: seq<string>)
    requires |origins| >= 1
    requires forall i :: 0 <= i < |origins| ==> ',' !in origins[i]
    requires forall i :: 0 <= i < |origins| ==> |origins[i]| > 0 && !IsJsSpace(origins[i][0]) && !IsJsSpace(origins[i][|origins[i]| - 1])
    ensures AllowedOrigins(Some(Join(origins, ','))) == origins
  {
    SplitJoin(origins, ',');
    assert |Join(origins, ',')| >= |origins[0]|;
    forall i | 0 <= i < |origins| ensures Trim(origins[i]) == origins[i] {
      TrimIdentity(origins[i]);
    }
  }

  datatype CorsVerdict = Allow | Reject(message: string)

  /**
   * The `origin` callback. A request without an Origin header is allowed
   * whatever `NODE_ENV` says; any other origin must be in the list.
   */
  function CorsOrigin(origin: Option<string>, nodeEnv: Option<string>, allowed: seq<string>): (v: CorsVerdict)
    ensures v.Allow? <==> !Present(origin) || origin.value in allowed
    ensures v.Reject? ==> v.message == "Not allowed by CORS"
  {
    if !Present(origin) && nodeEnv != Some("production") then Allow
    else if !Present(origin) || origin.value in allowed then Allow
    else Reject("Not allowed by CORS")
  }

  /** The production test in the callback changes nothing: both modes decide alike. */
  lemma CorsIgnoresMode(origin: Option<string>, env1: Option<string>, env2: Option<string>, allowed: seq<string>)
    ensures CorsOrigin(origin, env1, allowed) == CorsOrigin(origin, env2, allowed)
  {
  }

  /** The database check and the public rate limiter of `/api` are skipped for these paths. */
  predicate SkipsApiChecks(path: string)
    ensures path == "/webhook" || path == "/config" ==> SkipsApiChecks(path)
    ensures SkipsApiChecks(path) ==> |path| >= 7
  {
    assert OccursAt("/webhook", "/webhook", 0);
    Contains(path, "/webhook") || path == "/config"
  }

  /** The donation limiter (mounted at `/api/donations`) is skipped only for this path. */
  predicate SkipsDonationLimiter(path: string)
    ensures SkipsDonationLimiter(path) ==> SkipsApiChecks("/donations" + path)
  {
    assert "/donations" + "/webhook" == "/donations/webhook";
    assert OccursAt("/donations/webhook", "/webhook", 10);
    path == "/webhook"
  }

  /** Any path with `/webhook` anywhere in it skips the `/api` checks, not only the donation webhook. */
  lemma WebhookAnywhereSkips(before: string, after: string)
    ensures SkipsApiChecks(before + "/webhook" + after)
  {
    var p := before + "/webhook" + after;
    assert p[|before|..|before| + 8] == "/webhook";
    assert OccursAt(p, "/webhook", |before|);
  }

  /**
   * The donation webhook, `/api/donations/webhook`, is `/donations/webhook`
   * under `/api` and `/webhook` under `/api/donations`: it skips every check.
   */
  lemma DonationWebhookUnchecked()
    ensures SkipsApiChecks("/donations/webhook") && SkipsDonationLimiter("/webhook")
  {
    WebhookAnywhereSkips("/donations", "");
    assert "/donations" + "/webhook" + "" == "/donations/webhook";
  }

  /** `GET /api/config`: the public Supabase settings, each empty when unset. */
  function Config(supabaseUrl: Option<string>, supabaseAnonKey: Option<string>): (r: Response)
    ensures r.status == 200
    ensures Field(r.body, "supabaseUrl") == Str(if Present(supabaseUrl) then supabaseUrl.value else "")
    ensures Field(r.body, "supabaseKey") == Str(if Present(supabaseAnonKey) then supabaseAnonKey.value else "")
    ensures r.body.Keys == {"supabaseUrl", "supabaseKey"}
  {
    Response(200, map["supabaseUrl" := Str(OrElse(supabaseUrl, "")), "supabaseKey" := Str(OrElse(supabaseAnonKey, ""))])
  }
}
