/**
 * The request middleware: the CORS origin check, the preflight and security
 * headers, and the authentication and authorisation gates (`protect`,
 * `restrictTo`, `isCreatorOrAdmin`).
 */
module Middleware {
  import opened Wrappers
  import opened Models
  import opened Strings

  // ----- CORS -----

  /** The origins a production deployment accepts. */
  const AllowedOrigins: seq<string> := [
    "http://localhost:5173",
    "http://127.0.0.1:5173",
    "http://localhost:3000",
    "http://127.0.0.1:3000",
    "https://verdakra.vercel.app",
    "https://verdakra-git-main-charvipalems-projects.vercel.app",
    "https://verdakra-charvipalems-projects.vercel.app",
    "https://verdakra-bknd.onrender.com"
  ]

  /** `domain.replace(/^https?:\/\//, '')`: a leading `http://` or `https://` is removed. */
  function StripScheme(domain: string): (r: string)
    ensures (StartsWith(domain, "https://") && r == domain[8..])
         || (StartsWith(domain, "http://") && r == domain[7..])
         || (!StartsWith(domain, "https://") && !StartsWith(domain, "http://") && r == domain)
  {
    if StartsWith(domain, "https://") then domain[8..]
    else if StartsWith(domain, "http://") then domain[7..]
    else domain
  }

  /** One listed domain admits `origin`: the same string, or a subdomain of its host, under any scheme. */
  predicate MatchesDomain(origin: string, domain: string) {
    origin == domain || EndsWith(origin, "." + StripScheme(domain))
  }

  datatype CorsDecision = CorsAllow | CorsBlock

  /** `allowedOrigins.some(...)`. */
  function AnyMatch(origin: string, domains: seq<string>): (b: bool)
    ensures b <==> exists i :: 0 <= i < |domains| && MatchesDomain(origin, domains[i])
    decreases |domains|
  {
    if domains == [] then false
    else
      assert forall i :: 1 <= i < |domains| ==> domains[i] == domains[1..][i - 1];
      MatchesDomain(origin, domains[0]) || AnyMatch(origin, domains[1..])
  }

  /**
   * `corsOptions.origin`: a request without an Origin (the header absent or
   * empty) passes, every origin passes in development, and otherwise the
   * origin must match one of the allowed origins.
   */
  function CorsOrigin(origin: Option<string>, development: bool): (r: CorsDecision)
    ensures r == CorsAllow <==>
      || origin == None || origin == Some("")
      || development
      || exists i :: 0 <= i < |AllowedOrigins| && MatchesDomain(origin.value, AllowedOrigins[i])
  {
    if origin == None || origin == Some("") then CorsAllow
    else if development then CorsAllow
    else if AnyMatch(origin.value, AllowedOrigins) then CorsAllow
    else CorsBlock
  }

  /** Every listed origin is accepted as it stands. */
  lemma ListedOriginsAllowed(i: nat)
    requires i < |AllowedOrigins|
    ensures CorsOrigin(Some(AllowedOrigins[i]), false) == CorsAllow
  {
    assert MatchesDomain(AllowedOrigins[i], AllowedOrigins[i]);
  }

  /** A subdomain of a domain's host, under any scheme, matches that domain. */
  lemma SubdomainMatches(prefix: string, d: string)
    ensures MatchesDomain(prefix + "." + StripScheme(d), d)
  {
    var host := StripScheme(d);
    assert prefix + "." + host == prefix + ("." + host);
    EndsWithAppend(prefix, "." + host);
  }

  /** Any subdomain of a listed host is accepted, whatever its scheme. */
  lemma SubdomainsAllowed(prefix: string, i: nat)
    requires i < |AllowedOrigins|
    ensures CorsOrigin(Some(prefix + "." + StripScheme(AllowedOrigins[i])), false) == CorsAllow
  {
    SubdomainMatches(prefix, AllowedOrigins[i]);
  }

  lemma VercelHost()
    ensures StripScheme(AllowedOrigins[4]) == "verdakra.vercel.app"
  {
    assert StartsWith(AllowedOrigins[4], "https://");
  }

  /** The scheme of a subdomain is not checked: plain `http` on a subdomain of an `https` entry passes. */
  lemma PlainHttpSubdomainAllowed()
    ensures CorsOrigin(Some("http://app.verdakra.vercel.app"), false) == CorsAllow
  {
    var host := StripScheme(AllowedOrigins[4]);
    SubdomainsAllowed("http://app", 4);
    VercelHost();
    AppSubdomainSpelling();
    assert "http://app" + "." + host == "http://app.verdakra.vercel.app";
  }

  lemma AppSubdomainSpelling()
    ensures "http://app" + "." + "verdakra.vercel.app" == "http://app.verdakra.vercel.app"
  {
  }

  lemma ListedLastChar(i: nat)
    requires i < |AllowedOrigins|
    ensures |AllowedOrigins[i]| > 8
    ensures AllowedOrigins[i][|AllowedOrigins[i]| - 1] in {'0', '3', 'p', 'm'}
  {
  }

  /** Removing the scheme keeps the last character. */
  lemma StripSchemeLast(d: string)
    requires |d| > 8
    ensures |StripScheme(d)| > 0 && StripScheme(d)[|StripScheme(d)| - 1] == d[|d| - 1]
  {
  }

  lemma EndsWithLast(s: string, suffix: string)
    requires EndsWith(s, suffix) && suffix != []
    ensures s[|s| - 1] == suffix[|suffix| - 1]
  {
    assert s[|s| - |suffix|..][|suffix| - 1] == s[|s| - 1];
  }

  /**
   * Every listed origin ends in `0`, `3`, `p` or `m`, and so does each of
   * their subdomains: in production any other origin is refused.
   */
  lemma ForeignOriginBlocked(origin: string)
    requires origin != "" && origin[|origin| - 1] !in {'0', '3', 'p', 'm'}
    ensures CorsOrigin(Some(origin), false) == CorsBlock
  {
    forall i | 0 <= i < |AllowedOrigins| ensures !MatchesDomain(origin, AllowedOrigins[i]) {
      ListedLastChar(i);
      LastCharMismatch(origin, AllowedOrigins[i]);
    }
  }

  /** An origin whose last character differs from a domain's matches neither it nor its subdomains. */
  lemma LastCharMismatch(origin: string, d: string)
    requires origin != "" && |d| > 8 && origin[|origin| - 1] != d[|d| - 1]
    ensures !MatchesDomain(origin, d)
  {
    StripSchemeLast(d);
    var h := "." + StripScheme(d);
    assert h[|h| - 1] == d[|d| - 1];
    if EndsWith(origin, h) {
      EndsWithLast(origin, h);
    }
  }

  // ----- response headers -----

  /** The part of an Express response the middleware touches. */
  class Response {
    var status: int
    var headers: map<string, string>
    var ended: bool

    constructor()
      ensures status == 200 && headers == map[] && !ended
    {
      status := 200;
      headers := map[];
      ended := false;
    }

    /** `res.header(name, value)`: sets (or replaces) one header. */
    method Header(name: string, value: string)
      modifies this
      ensures headers == old(headers)[name := value]
      ensures status == old(status) && ended == old(ended)
    {
      headers := headers[name := value];
    }

    /** `res.status(code).end()`. */
    method End(code: int)
      modifies this
      ensures status == code && ended
      ensures headers == old(headers)
    {
      status := code;
      ended := true;
    }
  }

  /** `origin || '*'`: the request origin echoed, or the wildcard when there is none. */
  function AllowOrigin(origin: Option<string>): (v: string)
    ensures v == "*" <==> origin == None || origin == Some("") || origin == Some("*")
    ensures origin.Some? && origin.value != "" ==> v == origin.value
  {
    if origin == None || origin == Some("") then "*" else origin.value
  }

  /** Setting one more header on top of a set of headers already applied. */
  lemma Overlay(m: map<string, string>, h: map<string, string>, k: string, v: string)
    ensures (m + h)[k := v] == m + h[k := v]
  {
  }

  // The CORS header names, and the two long values `handlePreflight` sends.
  const AllowOriginKey := "Access-Control-Allow-Origin"
  const AllowCredentialsKey := "Access-Control-Allow-Credentials"
  const AllowMethodsKey := "Access-Control-Allow-Methods"
  const AllowHeadersKey := "Access-Control-Allow-Headers"
  const MaxAgeKey := "Access-Control-Max-Age"
  const AllowedMethods := "GET, POST, PUT, PATCH, DELETE, OPTIONS"
  const AllowedHeaders := "Origin, X-Requested-With, Content-Type, Accept, Authorization"

  /** The five headers `handlePreflight` sets. */
  function PreflightHeaders(origin: Option<string>): (h: map<string, string>)
    ensures h.Keys == {AllowOriginKey, AllowCredentialsKey,
                       AllowMethodsKey, AllowHeadersKey, MaxAgeKey}
    ensures h[AllowOriginKey] == AllowOrigin(origin)
    ensures h[AllowCredentialsKey] == "true"
    ensures h[MaxAgeKey] == "86400"
  {
    map[][AllowOriginKey := AllowOrigin(origin)]
         [AllowCredentialsKey := "true"]
         [AllowMethodsKey := AllowedMethods]
         [AllowHeadersKey := AllowedHeaders]
         [MaxAgeKey := "86400"]
  }

  /**
   * `handlePreflight`: sets the CORS headers on every request; an OPTIONS
   * request is answered 204 and ends there, any other goes on to `next`.
   */
  method HandlePreflight(res: Response, requestMethod: string, origin: Option<string>) returns (next: bool)
    modifies res
    ensures res.headers == old(res.headers) + PreflightHeaders(origin)
    ensures next <==> requestMethod != "OPTIONS"
    ensures next ==> res.status == old(res.status) && res.ended == old(res.ended)
    ensures !next ==> res.status == 204 && res.ended
  {
    SetCorsHeaders(res, origin);
    if requestMethod == "OPTIONS" {
      res.End(204);
      return false;
    }
    return true;
  }

  /** The header writes of `handlePreflight`. */
  method SetCorsHeaders(res: Response, origin: Option<string>)
    modifies res
    ensures res.headers == old(res.headers) + PreflightHeaders(origin)
    ensures res.status == old(res.status) && res.ended == old(res.ended)
  {
    ghost var m := res.headers;
    ghost var h: map<string, string> := map[];
    assert m + h == m;
    Overlay(m, h, AllowOriginKey, AllowOrigin(origin));
    res.Header(AllowOriginKey, AllowOrigin(origin));
    h := h[AllowOriginKey := AllowOrigin(origin)];
    Overlay(m, h, AllowCredentialsKey, "true");
    res.Header(AllowCredentialsKey, "true");
    h := h[AllowCredentialsKey := "true"];
    Overlay(m, h, AllowMethodsKey, AllowedMethods);
    res.Header(AllowMethodsKey, AllowedMethods);
    h := h[AllowMethodsKey := AllowedMethods];
    Overlay(m, h, AllowHeadersKey, AllowedHeaders);
    res.Header(AllowHeadersKey, AllowedHeaders);
    h := h[AllowHeadersKey := AllowedHeaders];
    Overlay(m, h, MaxAgeKey, "86400");
    res.Header(MaxAgeKey, "86400");
    h := h[MaxAgeKey := "86400"];
    assert h == PreflightHeaders(origin);
  }

  /** The four headers `securityHeaders` sets. */
  function SecurityHeaderValues(): (h: map<string, string>)
    ensures h.Keys == {"X-Content-Type-Options", "X-Frame-Options", "X-XSS-Protection", "Strict-Transport-Security"}
    ensures h["X-Frame-Options"] == "DENY"
    ensures h["X-Content-Type-Options"] == "nosniff"
  {
    map[]["X-Content-Type-Options" := "nosniff"]
         ["X-Frame-Options" := "DENY"]
         ["X-XSS-Protection" := "1; mode=block"]
         ["Strict-Transport-Security" := "max-age=31536000; includeSubDomains"]
  }

  /** `securityHeaders`: sets the four headers and always goes on to `next`. */
  method SecurityHeaders(res: Response) returns (next: bool)
    modifies res
    ensures res.headers == old(res.headers) + SecurityHeaderValues()
    ensures res.status == old(res.status) && res.ended == old(res.ended)
    ensures next
  {
    ghost var m := res.headers;
    ghost var h: map<string, string> := map[];
    assert m + h == m;
    Overlay(m, h, "X-Content-Type-Options", "nosniff");
    res.Header("X-Content-Type-Options", "nosniff");
    h := h["X-Content-Type-Options" := "nosniff"];
    Overlay(m, h, "X-Frame-Options", "DENY");
    res.Header("X-Frame-Options", "DENY");
    h := h["X-Frame-Options" := "DENY"];
    Overlay(m, h, "X-XSS-Protection", "1; mode=block");
    res.Header("X-XSS-Protection", "1; mode=block");
    h := h["X-XSS-Protection" := "1; mode=block"];
    Overlay(m, h, "Strict-Transport-Security", "max-age=31536000; includeSubDomains");
    res.Header("Strict-Transport-Security", "max-age=31536000; includeSubDomains");
    h := h["Strict-Transport-Security" := "max-age=31536000; includeSubDomains"];
    assert h == SecurityHeaderValues();
    return true;
  }

  // ----- protect -----

  /**
   * The token of `protect`: only a header starting with `Bearer` is read,
   * and the token is its second space-separated field; an empty field is no
   * token.
   */
  function BearerToken(authorization: Option<string>): (t: Option<string>)
    ensures t.Some? ==> authorization.Some? && StartsWith(authorization.value, "Bearer")
    ensures t.Some? ==> t.value != "" && ' ' !in t.value
    ensures t.Some? ==> |Split(authorization.value, ' ')| > 1 && t.value == Split(authorization.value, ' ')[1]
  {
    if authorization.Some? && StartsWith(authorization.value, "Bearer") then
      var fields := Split(authorization.value, ' ');
      if |fields| > 1 && fields[1] != "" then Some(fields[1]) else None
    else None
  }

  /** The header a client sends: the token read back is the token sent. */
  lemma BearerRoundTrip(token: string)
    requires token != "" && ' ' !in token
    ensures BearerToken(Some("Bearer " + token)) == Some(token)
  {
    var fields := ["Bearer", token];
    assert ' ' !in fields[0];
    assert Join(fields[1..], ' ') == token;
    assert Join(fields, ' ') == "Bearer " + token;
    SplitJoin(fields, ' ');
    assert StartsWith("Bearer " + token, "Bearer");
  }

  /** Only the prefix `Bearer` is checked, not a following space: the second field is still taken. */
  lemma LooseSchemePrefix()
    ensures BearerToken(Some("BearerX abc")) == Some("abc")
  {
    var fields := ["BearerX", "abc"];
    assert Join(fields, ' ') == "BearerX abc";
    SplitJoin(fields, ' ');
  }

  /** `Bearer` alone carries no token. */
  lemma BareSchemeNoToken()
    ensures BearerToken(Some("Bearer")) == None
  {
    var fields := ["Bearer"];
    assert Join(fields, ' ') == "Bearer";
    SplitJoin(fields, ' ');
  }

  datatype ProtectResponse = NotLoggedIn | NotAuthorized | UserGone | Granted(user: Viewer)

  /** Every refusal of `protect` is a 401. */
  function ProtectStatus(r: ProtectResponse): (code: int)
    ensures code == 401 <==> !r.Granted?
  {
    if r.Granted? then 200 else 401
  }

  /**
   * `protect`: `verify` is `jwt.verify` (None when it throws) and `users`
   * the users collection. A decoded id that is not an ObjectId makes
   * `findById` throw, which the catch turns into 401 as well.
   */
  function Protect(authorization: Option<string>, verify: string -> Option<Id>, users: map<Id, Viewer>): (r: ProtectResponse)
    ensures r == NotLoggedIn <==> BearerToken(authorization).None?
    ensures r.Granted? <==>
      && BearerToken(authorization).Some?
      && verify(BearerToken(authorization).value).Some?
      && IsObjectIdString(verify(BearerToken(authorization).value).value)
      && verify(BearerToken(authorization).value).value in users
    ensures r.Granted? ==> r.user == users[verify(BearerToken(authorization).value).value]
  {
    match BearerToken(authorization)
    case None => NotLoggedIn
    case Some(token) =>
      match verify(token)
      case None => NotAuthorized
      case Some(id) =>
        if !IsObjectIdString(id) then NotAuthorized
        else if id !in users then UserGone
        else Granted(users[id])
  }

  // ----- restrictTo and isCreatorOrAdmin -----

  datatype Gate = Pass | Forbidden

  /** `restrictTo(...roles)`: passes exactly the users whose role is listed. */
  function RestrictTo(roles: seq<string>, user: Viewer): (g: Gate)
    ensures g == Pass <==> exists i :: 0 <= i < |roles| && roles[i] == user.role
  {
    if user.role in roles then Pass else Forbidden
  }

  /** Listing more roles never turns a user away who passed before. */
  lemma RestrictToMonotone(roles: seq<string>, more: seq<string>, user: Viewer)
    requires forall i :: 0 <= i < |roles| ==> roles[i] in more
    ensures RestrictTo(roles, user) == Pass ==> RestrictTo(more, user) == Pass
  {
    if RestrictTo(roles, user) == Pass {
      var i :| 0 <= i < |roles| && roles[i] == user.role;
      assert roles[i] in more;
    }
  }

  /** A document with an optional `creator` reference. */
  datatype Resource = Resource(id: Id, creator: Option<Id>)

  datatype OwnerResponse = ResourceNotFound | NotOwner | OwnerCheckFailed | Owner(resource: Resource)

  /**
   * `isCreatorOrAdmin`: 404 for a missing resource, 500 when the lookup
   * throws, and otherwise a pass exactly for the resource's creator and for
   * admins.
   */
  function IsCreatorOrAdmin(found: Lookup<Resource>, user: Viewer): (r: OwnerResponse)
    ensures r == ResourceNotFound <==> found.Missing?
    ensures r == OwnerCheckFailed <==> found.LookupFailed?
    ensures r.Owner? <==> found.Found? && ((found.doc.creator.Some? && found.doc.creator.value == user.id) || user.role == "admin")
    ensures r.Owner? ==> r.resource == found.doc
  {
    match found
    case Missing => ResourceNotFound
    case LookupFailed => OwnerCheckFailed
    case Found(res) =>
      if (res.creator.Some? && res.creator.value == user.id) || user.role == "admin" then Owner(res) else NotOwner
  }

  /** A resource without a `creator` field passes admins only. */
  lemma CreatorlessAdminOnly(res: Resource, user: Viewer)
    requires res.creator.None?
    ensures IsCreatorOrAdmin(Found(res), user).Owner? <==> IsAdmin(Some(user))
  {
  }
}
