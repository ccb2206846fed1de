/** lib/middleware/auth.ts: `requireRole`, the per-route role gate that reads
    the `auth-token` cookie, verifies it and checks the role allow-list before
    running the route handler. */
module RoleGate {
  import opened Common
  import opened Crypto
  import opened Auth
  import opened Http

  const AuthCookie := "auth-token"

  /** An `AuthenticatedRequest`: the cookies, the query string and the parsed
      JSON body (`None` when `request.json()` throws) of a request, and the
      `user` the gate attaches. */
  datatype Request = Request(
    cookies: map<string, string>,
    query: map<string, string>,
    body: Option<map<string, JsonValue>>,
    user: Option<AuthUser>)

  /** The gate either answers with an error of its own or returns the
      handler's response unchanged. */
  datatype Gated<R> = Denied(status: int, error: string) | Handled(response: R)

  /** `requireRole(allowedRoles)(handler)(request)` at time `now`. */
  function RequireRole<R>(jose: Jose, jwtSecret: Option<string>, now: int, allowedRoles: seq<string>,
                          handler: Request -> R, request: Request): (r: Gated<R>)
    // no cookie: 401, handler not called
    ensures Filled(request.cookies, AuthCookie).None? ==> r == Denied(401, "Authentication required")
    // a cookie that does not verify: 401, handler not called
    ensures Filled(request.cookies, AuthCookie).Some?
            && VerifyToken(jose, jwtSecret, now, Filled(request.cookies, AuthCookie).value).None?
            ==> r == Denied(401, "Invalid token")
    // the handler runs iff the token is present, verifies and carries an allowed role
    ensures r.Handled? <==>
              Filled(request.cookies, AuthCookie).Some?
              && VerifyToken(jose, jwtSecret, now, Filled(request.cookies, AuthCookie).value).Some?
              && VerifyToken(jose, jwtSecret, now, Filled(request.cookies, AuthCookie).value).value.role
                 in allowedRoles
    // it then sees the decoded identity as `request.user`, and its response is returned as is
    ensures r.Handled? ==>
              r.response == handler(request.(user := VerifyToken(jose, jwtSecret, now,
                                                                 Filled(request.cookies, AuthCookie).value)))
  {
    match Filled(request.cookies, AuthCookie)
    case None => Denied(401, "Authentication required")
    case Some(token) =>
      match VerifyToken(jose, jwtSecret, now, token)
      case None => Denied(401, "Invalid token")
      case Some(user) =>
        if user.role !in allowedRoles then Denied(403, "Insufficient permissions")
        else Handled(handler(request.(user := Some(user))))
  }

  /** Both 401 checks come before the 403 check: a 403 is only ever given
      for a token that verified, so an unauthenticated request is never
      reported as forbidden. */
  lemma ForbiddenOnlyWhenAuthenticated<R>(jose: Jose, jwtSecret: Option<string>, now: int,
                                          allowedRoles: seq<string>, handler: Request -> R, request: Request)
    ensures var r := RequireRole(jose, jwtSecret, now, allowedRoles, handler, request);
            r.Denied? ==> (r.status == 403 <==> (Filled(request.cookies, AuthCookie).Some?
                            && VerifyToken(jose, jwtSecret, now, Filled(request.cookies, AuthCookie).value).Some?))
  {
  }

  /** Role membership is exact string equality, so an empty allow-list
      forbids every verified token. */
  lemma EmptyAllowListForbidsAll<R>(jose: Jose, jwtSecret: Option<string>, now: int,
                                    handler: Request -> R, request: Request)
    requires Filled(request.cookies, AuthCookie).Some?
    requires VerifyToken(jose, jwtSecret, now, Filled(request.cookies, AuthCookie).value).Some?
    ensures RequireRole(jose, jwtSecret, now, [], handler, request) == Denied(403, "Insufficient permissions")
  {
  }

  /** The gate trusts the token alone: an account deactivated after its token
      was issued still passes `requireRole` for the rest of the 24 hours,
      while `verifyAdmin`, which re-reads the store, refuses it. */
  lemma GateTrustsTokenAlone<R>(jose: Jose, jwtSecret: Option<string>, issuedAt: int, now: int,
                                rows: seq<AdminUser>, u: AdminUser, allowedRoles: seq<string>,
                                handler: Request -> R, request: Request)
    requires JoseLaws(jose) && Unique(rows, IdColumn)
    requires u in rows && !u.isActive && u.role in allowedRoles
    requires now < issuedAt + TokenLifetime
    requires var t := GenerateToken(jose, jwtSecret, issuedAt, ToAuthUser(u));
             AuthCookie in request.cookies && request.cookies[AuthCookie] == t
    ensures RequireRole(jose, jwtSecret, now, allowedRoles, handler, request).Handled?
    ensures var t := GenerateToken(jose, jwtSecret, issuedAt, ToAuthUser(u));
            VerifyAdmin(jose, jwtSecret, now, Some(BearerPrefix + t), rows).None?
  {
    var t := GenerateToken(jose, jwtSecret, issuedAt, ToAuthUser(u));
    assert t != "";
    TokenRoundTrip(jose, jwtSecret, issuedAt, now, ToAuthUser(u));
    VerifyAdminRechecksStore(jose, jwtSecret, issuedAt, now, rows, u);
  }

  // ---------------------------------------------------------------------------
  // The call sites

  /** What a route module exports and Next.js invokes with the request. */
  datatype RouteOutcome<R> = Responded(gated: Gated<R>) | NoResponse

  /** The routes write `export const GET = requireRole(roles, handler)`. But
      `requireRole` takes only the roles and returns `function(handler)`, so
      the handler argument is dropped and the export is that middle function.
      Next.js calls it with the request in the handler's place and gets back
      a function, not a response, so neither the gate nor the handler runs. */
  function ExportedRouteAsWritten<R>(allowedRoles: seq<string>, handler: Request -> R, request: Request): RouteOutcome<R> {
    NoResponse
  }

  /** As written, no request to a route declared this way ever reaches its handler. */
  lemma AsWrittenHandlerNeverRuns<R>(allowedRoles: seq<string>, handler: Request -> R, request: Request)
    ensures !ExportedRouteAsWritten(allowedRoles, handler, request).Responded?
  {
  }

  /** The evident intent, `requireRole(roles)(handler)`: the request goes
      through the gate, and the handler runs when the gate admits it. */
  function ExportedRoute<R>(jose: Jose, jwtSecret: Option<string>, now: int, allowedRoles: seq<string>,
                            handler: Request -> R, request: Request): (r: RouteOutcome<R>)
    ensures r.Responded?
    ensures r.gated.Handled? <==>
              Filled(request.cookies, AuthCookie).Some?
              && VerifyToken(jose, jwtSecret, now, Filled(request.cookies, AuthCookie).value).Some?
              && VerifyToken(jose, jwtSecret, now, Filled(request.cookies, AuthCookie).value).value.role
                 in allowedRoles
    ensures r.gated.Handled? ==>
              Filled(request.cookies, AuthCookie).Some?
              && r.gated.response == handler(request.(user := VerifyToken(jose, jwtSecret, now,
                                                                 Filled(request.cookies, AuthCookie).value)))
  {
    Responded(RequireRole(jose, jwtSecret, now, allowedRoles, handler, request))
  }
}
