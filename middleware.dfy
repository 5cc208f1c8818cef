/** Model of the request guard (`middleware` in middleware.ts): it extracts a
    token from the `Authorization` header or the `token` cookie, classifies
    the path by prefix, and either redirects, forwards the request with the
    user's id and e-mail added as headers, or lets it through unchanged.

    Token verification lives in the authentication module, which is not part
    of this model; it is the parameter `verify`, any function from a token to
    an optional user. Header names are the lower-case names the `Headers`
    object exposes. */
module Middleware {
  import opened Common

  datatype User = User(userId: string, email: string)

  type Headers = map<string, string>

  datatype Request = Request(pathname: string, headers: Headers, cookieToken: Option<string>)

  /** A redirect to a path, the request passed on as it came, or the request
      passed on with a new set of headers. */
  datatype Response = Redirect(location: string) | Next | NextWithHeaders(headers: Headers)

  const ProtectedRoutes: seq<string> := ["/dashboard", "/workspace", "/api/workspaces"]
  const AuthRoutes: seq<string> := ["/login", "/register"]
  const Bearer: string := "Bearer "

  // ---------------------------------------------------------------------
  // Strings
  // ---------------------------------------------------------------------

  /** `s.startsWith(prefix)`. */
  predicate StartsWith(s: string, prefix: string) {
    |prefix| <= |s| && s[..|prefix|] == prefix
  }

  /** `sub` occurs in `s` at `i`. */
  predicate At(s: string, sub: string, i: nat) {
    i + |sub| <= |s| && s[i..i + |sub|] == sub
  }

  /** The first position at or after `from` where `sub` occurs in `s`. */
  function FindFrom(s: string, sub: string, from: nat): (r: Option<nat>)
    ensures r.Some? ==> from <= r.value && At(s, sub, r.value)
    ensures r.Some? ==> forall j | from <= j < r.value :: !At(s, sub, j)
    ensures r.None? ==> forall j | from <= j :: !At(s, sub, j)
    decreases |s| - from
  {
    if from + |sub| > |s| then None
    else if At(s, sub, from) then Some(from)
    else FindFrom(s, sub, from + 1)
  }

  /** `s.replace(sub, "")` with a string pattern: only the first occurrence
      is removed. */
  function RemoveFirst(s: string, sub: string): (r: string)
    ensures FindFrom(s, sub, 0).None? ==> r == s
    ensures FindFrom(s, sub, 0).Some? ==> |r| == |s| - |sub|
    ensures FindFrom(s, sub, 0).Some? ==>
      var i := FindFrom(s, sub, 0).value; r == s[..i] + s[i + |sub|..]
  {
    match FindFrom(s, sub, 0)
    case None => s
    case Some(i) => s[..i] + s[i + |sub|..]
  }

  // ---------------------------------------------------------------------
  // Token extraction and route classification
  // ---------------------------------------------------------------------

  /** `authHeader?.replace("Bearer ", "") || request.cookies.get("token")?.value`:
      the header with its first `Bearer ` removed, unless the header is
      missing or nothing is left of it, in which case the cookie. */
  function ExtractToken(req: Request): (token: Option<string>)
    ensures "authorization" in req.headers && RemoveFirst(req.headers["authorization"], Bearer) != ""
            ==> token == Some(RemoveFirst(req.headers["authorization"], Bearer))
    ensures "authorization" !in req.headers || RemoveFirst(req.headers["authorization"], Bearer) == ""
            ==> token == req.cookieToken
  {
    if "authorization" in req.headers && RemoveFirst(req.headers["authorization"], Bearer) != "" then
      Some(RemoveFirst(req.headers["authorization"], Bearer))
    else req.cookieToken
  }

  /** `routes.some((route) => pathname.startsWith(route))`. */
  predicate AnyPrefix(routes: seq<string>, pathname: string) {
    exists i | 0 <= i < |routes| :: StartsWith(pathname, routes[i])
  }

  predicate IsProtected(pathname: string) { AnyPrefix(ProtectedRoutes, pathname) }

  predicate IsAuthRoute(pathname: string) { AnyPrefix(AuthRoutes, pathname) }

  /** `token ? verifyToken(token) : null`: an empty token is falsy and is
      not verified. */
  function VerifiedUser(req: Request, verify: string -> Option<User>): (user: Option<User>)
    ensures user.Some? ==> ExtractToken(req).Some? && ExtractToken(req).value != ""
                           && user == verify(ExtractToken(req).value)
    ensures ExtractToken(req).Some? && ExtractToken(req).value != "" ==> user == verify(ExtractToken(req).value)
  {
    var token := ExtractToken(req);
    if token.Some? && token.value != "" then verify(token.value) else None
  }

  /** The request's headers with the user's id and e-mail set. */
  function WithUser(headers: Headers, user: User): (h: Headers)
    ensures "x-user-id" in h && h["x-user-id"] == user.userId
    ensures "x-user-email" in h && h["x-user-email"] == user.email
    ensures forall k | k != "x-user-id" && k != "x-user-email" :: (k in h <==> k in headers)
    ensures forall k | k in headers && k != "x-user-id" && k != "x-user-email" :: h[k] == headers[k]
  {
    headers["x-user-id" := user.userId]["x-user-email" := user.email]
  }

  // ---------------------------------------------------------------------
  // The decision
  // ---------------------------------------------------------------------

  /** `middleware`, as written. */
  function Guard(req: Request, verify: string -> Option<User>): Response {
    var user := VerifiedUser(req, verify);
    if IsProtected(req.pathname) && user.None? then Redirect("/login")
    else if IsAuthRoute(req.pathname) && user.Some? then Redirect("/workspace")
    else if user.Some? && StartsWith(req.pathname, "/api/") then NextWithHeaders(WithUser(req.headers, user.value))
    else Next
  }

  /** The headers the route handler sees, or `None` when the request was
      redirected. */
  function Forwarded(req: Request, resp: Response): Option<Headers> {
    match resp
    case Redirect(_) => None
    case Next => Some(req.headers)
    case NextWithHeaders(h) => Some(h)
  }

  /** No path is both protected and an authentication page: the protected
      prefixes start `/d`, `/w` and `/a`, the others `/l` and `/r`. */
  lemma RoutesDisjoint(pathname: string)
    ensures !(IsProtected(pathname) && IsAuthRoute(pathname))
  {
    if IsProtected(pathname) {
      var i :| 0 <= i < |ProtectedRoutes| && StartsWith(pathname, ProtectedRoutes[i]);
      assert pathname[1] == ProtectedRoutes[i][1];
      forall j | 0 <= j < |AuthRoutes| ensures !StartsWith(pathname, AuthRoutes[j]) {
        assert AuthRoutes[j][1] != pathname[1];
      }
    }
  }

  /** The guard sends to `/login` exactly the protected paths without a
      verified user; that test comes first, so nothing else matters. */
  lemma LoginRedirect(req: Request, verify: string -> Option<User>)
    ensures Guard(req, verify) == Redirect("/login")
        <==> IsProtected(req.pathname) && VerifiedUser(req, verify).None?
  {
  }

  /** The guard sends to `/workspace` exactly the authentication pages
      requested with a verified user. */
  lemma WorkspaceRedirect(req: Request, verify: string -> Option<User>)
    ensures Guard(req, verify) == Redirect("/workspace")
        <==> IsAuthRoute(req.pathname) && VerifiedUser(req, verify).Some?
  {
    RoutesDisjoint(req.pathname);
  }

  /** Headers are rewritten exactly for `/api/` paths with a verified user;
      then `x-user-id` and `x-user-email` come from the verified token and
      every other header is kept. */
  lemma UserHeaders(req: Request, verify: string -> Option<User>)
    ensures Guard(req, verify).NextWithHeaders?
        <==> VerifiedUser(req, verify).Some? && StartsWith(req.pathname, "/api/")
    ensures Guard(req, verify).NextWithHeaders? ==>
      var h, user := Guard(req, verify).headers, VerifiedUser(req, verify).value;
      && h["x-user-id"] == user.userId && h["x-user-email"] == user.email
      && forall k | k != "x-user-id" && k != "x-user-email" ::
           (k in h <==> k in req.headers) && (k in h ==> h[k] == req.headers[k])
  {
    if StartsWith(req.pathname, "/api/") {
      assert req.pathname[1] == 'a';
      forall j | 0 <= j < |AuthRoutes| ensures !StartsWith(req.pathname, AuthRoutes[j]) {
        assert AuthRoutes[j][1] != req.pathname[1];
      }
    }
  }

  /** Every request that is neither redirected nor given user headers goes on
      unchanged. */
  lemma OtherwiseUnchanged(req: Request, verify: string -> Option<User>)
    ensures !Guard(req, verify).Redirect? && !Guard(req, verify).NextWithHeaders? ==> Guard(req, verify) == Next
    ensures Guard(req, verify) == Next <==>
      && !(IsProtected(req.pathname) && VerifiedUser(req, verify).None?)
      && !(IsAuthRoute(req.pathname) && VerifiedUser(req, verify).Some?)
      && !(VerifiedUser(req, verify).Some? && StartsWith(req.pathname, "/api/"))
  {
  }

  /** A request with `Authorization: Bearer <t>` and a non-empty `t` is
      checked with `t`, whatever the cookie holds; one with no usable header
      is checked with the cookie. */
  lemma BearerToken(req: Request, t: string)
    requires "authorization" in req.headers && req.headers["authorization"] == Bearer + t && t != ""
    ensures ExtractToken(req) == Some(t)
  {
    var s := Bearer + t;
    assert At(s, Bearer, 0);
    assert FindFrom(s, Bearer, 0) == Some(0);
    assert RemoveFirst(s, Bearer) == s[..0] + s[|Bearer|..];
    assert s[..0] + s[|Bearer|..] == t;
  }

  /** A header that is exactly `Bearer ` leaves nothing, so the cookie is
      used. */
  lemma BareBearerFallsBack(req: Request)
    requires "authorization" in req.headers && req.headers["authorization"] == Bearer
    ensures ExtractToken(req) == req.cookieToken
  {
    assert At(Bearer, Bearer, 0);
  }

  // ---------------------------------------------------------------------
  // Finding: client-supplied identity headers
  // ---------------------------------------------------------------------

  /** Under the path prefix `/api/` only `/api/workspaces` is protected; the
      job routes read the caller's identity from `x-user-id`. */
  const JobsPath: string := "/api/compute/jobs"

  /** As written, a request to the jobs route with no token at all and a
      forged `x-user-id` reaches the route handler with that header intact. */
  lemma ForgedIdentityForwarded(verify: string -> Option<User>)
    ensures var req := Request(JobsPath, map["x-user-id" := "victim"], None);
      && VerifiedUser(req, verify).None?
      && Guard(req, verify) == Next
      && Forwarded(req, Guard(req, verify)) == Some(map["x-user-id" := "victim"])
  {
    var req := Request(JobsPath, map["x-user-id" := "victim"], None);
    assert !IsProtected(JobsPath) by {
      forall i | 0 <= i < |ProtectedRoutes| ensures !StartsWith(JobsPath, ProtectedRoutes[i]) {
        assert JobsPath[1] != ProtectedRoutes[i][1] || JobsPath[5] != ProtectedRoutes[i][5];
      }
    }
  }

  /** The identity headers only the guard may set. */
  function StripIdentity(headers: Headers): (h: Headers)
    ensures "x-user-id" !in h && "x-user-email" !in h
    ensures forall k | k != "x-user-id" && k != "x-user-email" :: (k in h <==> k in headers)
    ensures forall k | k in h :: h[k] == headers[k]
  {
    headers - {"x-user-id", "x-user-email"}
  }

  /** The guard as evidently intended: the same redirects and the same user
      headers, but a request passed on without a verified user loses any
      identity headers it brought. */
  function SafeGuard(req: Request, verify: string -> Option<User>): Response {
    match Guard(req, verify)
    case Next => NextWithHeaders(StripIdentity(req.headers))
    case other => other
  }

  /** With the correction, a route handler sees `x-user-id` or `x-user-email`
      only when the token verified, and then they are the verified user's. */
  lemma SafeGuardIdentity(req: Request, verify: string -> Option<User>)
    ensures var fwd := Forwarded(req, SafeGuard(req, verify));
      fwd.Some? && ("x-user-id" in fwd.value || "x-user-email" in fwd.value) ==>
        && VerifiedUser(req, verify).Some?
        && fwd.value["x-user-id"] == VerifiedUser(req, verify).value.userId
        && fwd.value["x-user-email"] == VerifiedUser(req, verify).value.email
  {
  }

  /** The correction changes nothing else: the same redirects, the same
      headers for a verified `/api/` request, and every other header passed
      on as before. */
  lemma SafeGuardAgrees(req: Request, verify: string -> Option<User>)
    ensures SafeGuard(req, verify).Redirect? <==> Guard(req, verify).Redirect?
    ensures Guard(req, verify).Redirect? || Guard(req, verify).NextWithHeaders? ==> SafeGuard(req, verify) == Guard(req, verify)
    ensures var before, after := Forwarded(req, Guard(req, verify)), Forwarded(req, SafeGuard(req, verify));
      before.Some? ==> (after.Some? &&
        forall k | k != "x-user-id" && k != "x-user-email" ::
          (k in after.value <==> k in before.value) && (k in after.value ==> after.value[k] == before.value[k]))
  {
  }
}
