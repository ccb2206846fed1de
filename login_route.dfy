/** app/api/auth/login/route.ts: `POST /api/auth/login`. It validates the
    JSON body, checks the credentials against the account store, and on
    success answers with the identity and sets the session cookie holding a
    fresh token. */
module LoginRoute {
  import opened Common
  import opened Crypto
  import opened Auth
  import opened Http
  import opened RoleGate
  import opened PageMiddleware

  /** The session cookie lives exactly as long as the token it carries. */
  const CookieMaxAge: int := 24 * 60 * 60

  /** The JSON response: `{ error }` with a status, or `{ success: true, user }`
      with the `Set-Cookie` instruction attached. */
  datatype LoginResponse = LoginError(status: int, error: string) | LoginSuccess(user: AuthUser, cookie: SetCookie)

  /** The options of the session cookie; `production` is `NODE_ENV === 'production'`. */
  function SessionCookie(token: string, production: bool): (c: SetCookie)
    ensures c.name == AuthCookie && c.value == token
    ensures c.options.httpOnly && c.options.secure == production && c.options.sameSite == "lax"
    ensures c.options.maxAge == TokenLifetime
  {
    SetCookie(AuthCookie, token, CookieOptions(true, production, "lax", CookieMaxAge))
  }

  /** What `authenticateUser(email, password)` yields for the JSON values of
      the body. A value that is not a string makes the store lookup or the
      hash comparison throw inside `authenticateUser`, which catches it and
      returns null. */
  function AuthenticateJson(bc: Bcrypt, rows: seq<AdminUser>, email: JsonValue, password: JsonValue): (r: Option<AuthUser>)
    ensures !email.Str? || !password.Str? ==> r.None?
    ensures email.Str? && password.Str? ==> r == AuthenticateUser(bc, rows, email.s, password.s)
  {
    if email.Str? && password.Str? then AuthenticateUser(bc, rows, email.s, password.s) else None
  }

  /** `POST(request)` with `createToken` read as `generateToken`, at time
      `now`. `body` is `None` when `request.json()` throws. */
  function Post(bc: Bcrypt, jose: Jose, jwtSecret: Option<string>, production: bool, now: int,
                rows: seq<AdminUser>, body: Option<map<string, JsonValue>>): (r: LoginResponse)
    // an unreadable body is a server error
    ensures body.None? ==> r == LoginError(500, "Internal server error")
    // a missing or empty email or password is refused before any lookup
    ensures body.Some? && (!Truthy(Field(body.value, "email")) || !Truthy(Field(body.value, "password")))
            ==> r == LoginError(400, "Email and password are required")
    // credentials that do not authenticate are refused without a cookie
    ensures body.Some? && Truthy(Field(body.value, "email")) && Truthy(Field(body.value, "password"))
            && AuthenticateJson(bc, rows, Field(body.value, "email"), Field(body.value, "password")).None?
            ==> r == LoginError(401, "Invalid credentials")
    // success exactly when the credentials authenticate: the stored identity is
    // returned and the cookie carries a token generated for it now
    ensures r.LoginSuccess? <==>
              body.Some? && Truthy(Field(body.value, "email")) && Truthy(Field(body.value, "password"))
              && AuthenticateJson(bc, rows, Field(body.value, "email"), Field(body.value, "password")).Some?
    ensures r.LoginSuccess? ==>
              && r.user == AuthenticateJson(bc, rows, Field(body.value, "email"), Field(body.value, "password")).value
              && r.cookie == SessionCookie(GenerateToken(jose, jwtSecret, now, r.user), production)
  {
    match body
    case None => LoginError(500, "Internal server error")
    case Some(b) =>
      var email := Field(b, "email");
      var password := Field(b, "password");
      if !Truthy(email) || !Truthy(password) then LoginError(400, "Email and password are required")
      else
        match AuthenticateJson(bc, rows, email, password)
        case None => LoginError(401, "Invalid credentials")
        case Some(user) => LoginSuccess(user, SessionCookie(GenerateToken(jose, jwtSecret, now, user), production))
  }

  /** The handler as written: `createToken` is not exported by lib/auth.ts, so
      the import is `undefined` and calling it throws a TypeError, which the
      handler's catch turns into a 500 on every otherwise successful login. */
  function PostAsWritten(bc: Bcrypt, jose: Jose, jwtSecret: Option<string>, production: bool, now: int,
                         rows: seq<AdminUser>, body: Option<map<string, JsonValue>>): (r: LoginResponse)
    ensures r.LoginError?
  {
    match Post(bc, jose, jwtSecret, production, now, rows, body)
    case LoginError(status, error) => LoginError(status, error)
    case LoginSuccess(_, _) => LoginError(500, "Internal server error")
  }

  /** As written, correct credentials are answered with a server error and no
      cookie, while the corrected handler signs the user in. */
  lemma AsWrittenLoginNeverSucceeds(bc: Bcrypt, jose: Jose, jwtSecret: Option<string>, production: bool, now: int,
                                    rows: seq<AdminUser>, u: AdminUser)
    requires Unique(rows, EmailColumn) && u in rows && u.isActive && u.email != ""
    requires bc.compare("pw", u.password)
    ensures var body := Some(map["email" := Str(u.email), "password" := Str("pw")]);
            && PostAsWritten(bc, jose, jwtSecret, production, now, rows, body) == LoginError(500, "Internal server error")
            && Post(bc, jose, jwtSecret, production, now, rows, body).LoginSuccess?
  {
    AuthenticateUserExact(bc, rows, u, "pw");
  }

  /** The corrected login signs in exactly the users `authenticateUser` accepts:
      an active account whose stored hash matches the password. */
  lemma LoginSucceedsForActiveAccount(bc: Bcrypt, jose: Jose, jwtSecret: Option<string>, production: bool, now: int,
                                      rows: seq<AdminUser>, u: AdminUser, password: string)
    requires Unique(rows, EmailColumn) && u in rows && u.email != "" && password != ""
    ensures var r := Post(bc, jose, jwtSecret, production, now, rows,
                          Some(map["email" := Str(u.email), "password" := Str(password)]));
            && (r.LoginSuccess? <==> u.isActive && bc.compare(password, u.password))
            && (r.LoginSuccess? ==> r.user == ToAuthUser(u))
  {
    AuthenticateUserExact(bc, rows, u, password);
  }

  /** After a successful login, the browser holds a session cookie that
      `requireRole` accepts for the next 24 hours: a gated handler whose
      allow-list holds the user's role runs, and sees the user. */
  lemma LoginThenGatePasses<R>(bc: Bcrypt, jose: Jose, jwtSecret: Option<string>, production: bool,
                               loginAt: int, now: int, rows: seq<AdminUser>, body: Option<map<string, JsonValue>>,
                               jar: map<string, string>, allowedRoles: seq<string>,
                               handler: Request -> R, request: Request)
    requires JoseLaws(jose)
    requires Post(bc, jose, jwtSecret, production, loginAt, rows, body).LoginSuccess?
    requires Post(bc, jose, jwtSecret, production, loginAt, rows, body).user.role in allowedRoles
    requires loginAt <= now < loginAt + TokenLifetime
    requires request.cookies == ApplySetCookie(jar, Post(bc, jose, jwtSecret, production, loginAt, rows, body).cookie)
    ensures var u := Post(bc, jose, jwtSecret, production, loginAt, rows, body).user;
            RequireRole(jose, jwtSecret, now, allowedRoles, handler, request)
            == Handled(handler(request.(user := Some(AuthUser(u.id, u.email, u.username, u.username, u.role)))))
  {
    var u := Post(bc, jose, jwtSecret, production, loginAt, rows, body).user;
    var t := GenerateToken(jose, jwtSecret, loginAt, u);
    assert t != "";
    TokenRoundTrip(jose, jwtSecret, loginAt, now, u);
  }

  /** The cookie name mismatch: the login sets `auth-token`, but the page
      middleware reads `admin-token`, so a browser that has just signed in is
      still sent back to the login page by every protected admin page. */
  lemma LoginCookieUnseenByMiddleware(bc: Bcrypt, jose: Jose, jwtSecret: Option<string>, production: bool,
                                      loginAt: int, now: int, rows: seq<AdminUser>,
                                      body: Option<map<string, JsonValue>>, jar: map<string, string>)
    requires Post(bc, jose, jwtSecret, production, loginAt, rows, body).LoginSuccess?
    requires AdminCookie !in jar
    ensures Middleware(jose, jwtSecret, production, now, DashboardPath,
                       ApplySetCookie(jar, Post(bc, jose, jwtSecret, production, loginAt, rows, body).cookie))
            == Redirect(LoginPath, None)
  {
  }

  /** Reading the cookie the login sets, the middleware lets a freshly signed-in
      administrator through to the dashboard for the next 24 hours. */
  lemma SessionMiddlewareAdmitsAfterLogin(bc: Bcrypt, jose: Jose, jwtSecret: Option<string>, production: bool,
                                          loginAt: int, now: int, rows: seq<AdminUser>,
                                          body: Option<map<string, JsonValue>>, jar: map<string, string>,
                                          pathname: string)
    requires JoseLaws(jose)
    requires Post(bc, jose, jwtSecret, production, loginAt, rows, body).LoginSuccess?
    requires IsAdminRole(Post(bc, jose, jwtSecret, production, loginAt, rows, body).user.role)
    requires loginAt <= now < loginAt + TokenLifetime
    requires Protected(pathname)
    ensures SessionMiddleware(jose, jwtSecret, production, now, pathname,
                              ApplySetCookie(jar, Post(bc, jose, jwtSecret, production, loginAt, rows, body).cookie))
            == Next
  {
    var u := Post(bc, jose, jwtSecret, production, loginAt, rows, body).user;
    var t := GenerateToken(jose, jwtSecret, loginAt, u);
    assert t != "";
    TokenRoundTrip(jose, jwtSecret, loginAt, now, u);
  }
}
