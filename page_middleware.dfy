/** middleware.ts: the Next.js page middleware that guards the admin pages.
    It decides, from the path, the session cookie and the role the cookie's
    token decodes to, whether to let the request through, to redirect it, or
    to redirect it and clear the cookie. */
module PageMiddleware {
  import opened Common
  import opened Crypto
  import opened Auth
  import opened Http
  import RoleGate

  /** The cookie the page middleware reads. */
  const AdminCookie := "admin-token"
  const LoginPath := "/admin/login"
  const DashboardPath := "/admin"

  /** `NextResponse.next()` or `NextResponse.redirect(url)`, the latter
      possibly carrying a `Set-Cookie` instruction. */
  datatype Outcome = Next | Redirect(location: string, setCookie: Option<SetCookie>)

  /** `['ADMIN', 'SUPER_ADMIN'].includes(role)` */
  predicate IsAdminRole(role: string) {
    role == ADMIN || role == SUPER_ADMIN
  }

  /** A path guarded by the first branch: under "/admin" but not the login page. */
  predicate Protected(pathname: string) {
    StartsWith(pathname, DashboardPath) && pathname != LoginPath
  }

  /** The instruction that resets a cookie to "" with `maxAge: 0`. */
  function ClearCookie(name: string, production: bool): (c: SetCookie)
    ensures c.name == name && c.value == "" && c.options.maxAge == 0
    ensures c.options.httpOnly && c.options.secure == production && c.options.sameSite == "lax"
  {
    SetCookie(name, "", CookieOptions(true, production, "lax", 0))
  }

  /** The middleware with the name of the session cookie as a parameter, at
      time `now`; `production` is `NODE_ENV === 'production'`. */
  function MiddlewareWith(cookieName: string, jose: Jose, jwtSecret: Option<string>, production: bool, now: int,
                          pathname: string, cookies: map<string, string>): (r: Outcome)
    // a protected path without the cookie goes to the login page
    ensures Protected(pathname) && Filled(cookies, cookieName).None? ==> r == Redirect(LoginPath, None)
    // a protected path whose cookie does not verify goes to the login page and loses the cookie
    ensures Protected(pathname) && Filled(cookies, cookieName).Some?
            && VerifyToken(jose, jwtSecret, now, Filled(cookies, cookieName).value).None?
            ==> r == Redirect(LoginPath, Some(ClearCookie(cookieName, production)))
    // a protected path whose token decodes to a role other than ADMIN or SUPER_ADMIN
    // goes to the login page, the cookie kept
    ensures Protected(pathname) && Filled(cookies, cookieName).Some?
            && VerifyToken(jose, jwtSecret, now, Filled(cookies, cookieName).value).Some?
            && !IsAdminRole(VerifyToken(jose, jwtSecret, now, Filled(cookies, cookieName).value).value.role)
            ==> r == Redirect(LoginPath, None)
    // the login page sends a signed-in administrator to the dashboard, and lets anyone else in
    ensures pathname == LoginPath ==>
              (r == Redirect(DashboardPath, None) <==>
                 Filled(cookies, cookieName).Some?
                 && VerifyToken(jose, jwtSecret, now, Filled(cookies, cookieName).value).Some?
                 && IsAdminRole(VerifyToken(jose, jwtSecret, now, Filled(cookies, cookieName).value).value.role))
    ensures pathname == LoginPath ==> r == Next || r == Redirect(DashboardPath, None)
    // a protected path passes exactly when its token verifies with an administrator role
    ensures Protected(pathname) ==>
              (r == Next <==>
                 Filled(cookies, cookieName).Some?
                 && VerifyToken(jose, jwtSecret, now, Filled(cookies, cookieName).value).Some?
                 && IsAdminRole(VerifyToken(jose, jwtSecret, now, Filled(cookies, cookieName).value).value.role))
    // every other path passes
    ensures !Protected(pathname) && pathname != LoginPath ==> r == Next
  {
    if Protected(pathname) then
      match Filled(cookies, cookieName)
      case None => Redirect(LoginPath, None)
      case Some(token) =>
        match VerifyToken(jose, jwtSecret, now, token)
        case None => Redirect(LoginPath, Some(ClearCookie(cookieName, production)))
        case Some(user) => if !IsAdminRole(user.role) then Redirect(LoginPath, None) else Next
    else if pathname == LoginPath then
      match Filled(cookies, cookieName)
      case None => Next
      case Some(token) =>
        match VerifyToken(jose, jwtSecret, now, token)
        case None => Next
        case Some(user) => if IsAdminRole(user.role) then Redirect(DashboardPath, None) else Next
    else Next
  }

  /** `middleware(request)` as written: it reads the `admin-token` cookie. */
  function Middleware(jose: Jose, jwtSecret: Option<string>, production: bool, now: int,
                      pathname: string, cookies: map<string, string>): Outcome {
    MiddlewareWith(AdminCookie, jose, jwtSecret, production, now, pathname, cookies)
  }

  /** The middleware reading the cookie the login route sets and `requireRole`
      reads, `auth-token`: the evident intent. */
  function SessionMiddleware(jose: Jose, jwtSecret: Option<string>, production: bool, now: int,
                             pathname: string, cookies: map<string, string>): Outcome {
    MiddlewareWith(RoleGate.AuthCookie, jose, jwtSecret, production, now, pathname, cookies)
  }

  /** A path outside "/admin" always passes, whatever the cookies. */
  lemma OutsideAdminPasses(cookieName: string, jose: Jose, jwtSecret: Option<string>, production: bool, now: int,
                           pathname: string, cookies: map<string, string>)
    requires !StartsWith(pathname, DashboardPath)
    ensures MiddlewareWith(cookieName, jose, jwtSecret, production, now, pathname, cookies) == Next
  {
    assert LoginPath[..|DashboardPath|] == DashboardPath;
    assert StartsWith(LoginPath, DashboardPath);
  }

  /** No redirect points back at the path that was requested, so the
      middleware never loops on a single page. */
  lemma NeverRedirectsToSelf(cookieName: string, jose: Jose, jwtSecret: Option<string>, production: bool, now: int,
                             pathname: string, cookies: map<string, string>)
    ensures var r := MiddlewareWith(cookieName, jose, jwtSecret, production, now, pathname, cookies);
            r.Redirect? ==> r.location != pathname
  {
  }

  /** A rejected cookie is cleared: once the browser applies the redirect's
      `Set-Cookie`, the next request for a protected page is redirected
      without a second clearing. */
  lemma InvalidTokenClearedOnce(cookieName: string, jose: Jose, jwtSecret: Option<string>, production: bool, now: int,
                                pathname: string, cookies: map<string, string>)
    requires Protected(pathname)
    requires Filled(cookies, cookieName).Some?
    requires VerifyToken(jose, jwtSecret, now, Filled(cookies, cookieName).value).None?
    ensures var r := MiddlewareWith(cookieName, jose, jwtSecret, production, now, pathname, cookies);
            r.Redirect? && r.setCookie.Some?
            && MiddlewareWith(cookieName, jose, jwtSecret, production, now, pathname,
                              ApplySetCookie(cookies, r.setCookie.value)) == Redirect(LoginPath, None)
  {
  }
}
