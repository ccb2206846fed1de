/** lib/auth.ts: credential check, session token codec, bearer-header admin
    check and admin-account creation, over the `adminUser` table. */
module Auth {
  import opened Common
  import opened Crypto

  const ADMIN := "ADMIN"
  const SUPER_ADMIN := "SUPER_ADMIN"
  const STAFF := "STAFF"

  /** `setExpirationTime('24h')`, in seconds. */
  const TokenLifetime: int := 24 * 60 * 60

  const FallbackSecret := "fallback-secret"

  /** The identity handed to callers. It has no password field. */
  datatype AuthUser = AuthUser(id: string, email: string, username: string, name: string, role: string)

  /** A row of the `adminUser` table; `password` holds the bcrypt hash. */
  datatype AdminUser = AdminUser(
    id: string, email: string, username: string, password: string,
    name: string, role: string, isActive: bool)

  /** The argument of `createAdminUser`. */
  datatype NewAdminUser = NewAdminUser(
    email: string, username: string, password: string, name: string, role: Option<string>)

  datatype StoreError = UniqueViolation

  datatype Result<T> = Ok(value: T) | Err(error: StoreError)

  /** The public fields of a stored account. */
  function ToAuthUser(u: AdminUser): AuthUser {
    AuthUser(u.id, u.email, u.username, u.name, u.role)
  }

  /** The two unique columns of the `adminUser` table. */
  datatype Column = EmailColumn | IdColumn

  function ColumnOf(u: AdminUser, col: Column): string {
    match col
    case EmailColumn => u.email
    case IdColumn => u.id
  }

  /** No two rows share a value in the column. */
  ghost predicate Unique(rows: seq<AdminUser>, col: Column) {
    forall i, j :: 0 <= i < j < |rows| ==> ColumnOf(rows[i], col) != ColumnOf(rows[j], col)
  }

  /** `db.adminUser.findUnique({ where: { email } })` and `{ where: { id } }`. */
  function Lookup(rows: seq<AdminUser>, col: Column, value: string): (r: Option<AdminUser>)
    ensures r.Some? ==> r.value in rows && ColumnOf(r.value, col) == value
    ensures r.None? <==> forall u :: u in rows ==> ColumnOf(u, col) != value
  {
    if rows == [] then None
    else if ColumnOf(rows[0], col) == value then Some(rows[0])
    else Lookup(rows[1..], col, value)
  }

  /** With a unique column the lookup finds the one row that has the value. */
  lemma {:induction false} LookupUnique(rows: seq<AdminUser>, col: Column, u: AdminUser)
    requires Unique(rows, col) && u in rows
    ensures Lookup(rows, col, ColumnOf(u, col)) == Some(u)
  {
    if rows[0] != u {
      var k :| 0 <= k < |rows| && rows[k] == u;
      assert ColumnOf(rows[0], col) != ColumnOf(u, col);
      assert rows[1..][k - 1] == u;
      assert Unique(rows[1..], col) by {
        forall i, j | 0 <= i < j < |rows[1..]| ensures ColumnOf(rows[1..][i], col) != ColumnOf(rows[1..][j], col) {
          assert rows[1..][i] == rows[i + 1] && rows[1..][j] == rows[j + 1];
        }
      }
      LookupUnique(rows[1..], col, u);
    }
  }

  // ---------------------------------------------------------------------------
  // Credential check

  /** `authenticateUser(email, password)`: null for a missing account, an
      inactive account or a wrong password; otherwise the stored identity. */
  function AuthenticateUser(bc: Bcrypt, rows: seq<AdminUser>, email: string, password: string): (r: Option<AuthUser>)
    ensures (forall u :: u in rows && u.email == email ==> !u.isActive) ==> r.None?
    ensures r.Some? ==> exists u :: u in rows && u.email == email && u.isActive
                                    && bc.compare(password, u.password) && r.value == ToAuthUser(u)
  {
    match Lookup(rows, EmailColumn, email)
    case None => None
    case Some(u) =>
      if !u.isActive then None
      else if !bc.compare(password, u.password) then None
      else Some(ToAuthUser(u))
  }

  /** With unique emails, an active account whose hash matches the password
      is accepted, and an account whose hash does not match is refused. */
  lemma AuthenticateUserExact(bc: Bcrypt, rows: seq<AdminUser>, u: AdminUser, password: string)
    requires Unique(rows, EmailColumn) && u in rows
    ensures AuthenticateUser(bc, rows, u.email, password).Some?
            <==> u.isActive && bc.compare(password, u.password)
    ensures AuthenticateUser(bc, rows, u.email, password).Some? ==>
            AuthenticateUser(bc, rows, u.email, password).value == ToAuthUser(u)
  {
    LookupUnique(rows, EmailColumn, u);
  }

  // ---------------------------------------------------------------------------
  // Account creation

  /** The row `createAdminUser` inserts: the bcrypt hash in place of the
      password, the role defaulting to ADMIN when not given, active. */
  function NewRecord(bc: Bcrypt, salt: string, id: string, data: NewAdminUser): (u: AdminUser)
    ensures u.password == bc.hash(data.password, salt)
    ensures u.role == (if data.role.Some? && data.role.value != "" then data.role.value else ADMIN)
    ensures u.email == data.email && u.username == data.username && u.name == data.name
    ensures u.id == id && u.isActive
  {
    AdminUser(id, data.email, data.username, bc.hash(data.password, salt), data.name,
              if data.role.Some? && data.role.value != "" then data.role.value else ADMIN, true)
  }

  /** An account created with a password authenticates with exactly the
      attempts that share its bcrypt key: the password itself, and any
      attempt agreeing with it on the first 72 UTF-8 bytes. */
  lemma CreateThenAuthenticate(bc: Bcrypt, rows: seq<AdminUser>, salt: string, id: string,
                               data: NewAdminUser, attempt: string)
    requires BcryptLaws(bc) && Unique(rows, EmailColumn)
    requires forall u :: u in rows ==> u.email != data.email
    ensures var created := NewRecord(bc, salt, id, data);
            AuthenticateUser(bc, rows + [created], data.email, attempt)
            == if BcryptKey(attempt) == BcryptKey(data.password) then Some(ToAuthUser(created)) else None
    ensures attempt == data.password ==>
            AuthenticateUser(bc, rows + [NewRecord(bc, salt, id, data)], data.email, attempt).Some?
  {
    var created := NewRecord(bc, salt, id, data);
    var rows' := rows + [created];
    assert Unique(rows', EmailColumn) by {
      forall i, j | 0 <= i < j < |rows'| ensures rows'[i].email != rows'[j].email {
        if j == |rows| { assert rows'[i] in rows; } else { assert rows'[i] == rows[i] && rows'[j] == rows[j]; }
      }
    }
    assert created in rows';
    AuthenticateUserExact(bc, rows', created, attempt);
  }

  /** bcrypt reads no further than 72 bytes: an attempt that agrees with a
      longer password on its first 72 UTF-8 bytes is accepted, whatever
      follows them. */
  lemma LongPasswordTailIgnored(bc: Bcrypt, rows: seq<AdminUser>, salt: string, id: string,
                                data: NewAdminUser, attempt: string)
    requires BcryptLaws(bc) && Unique(rows, EmailColumn)
    requires forall u :: u in rows ==> u.email != data.email
    requires |Utf8(data.password)| >= 72 && |Utf8(attempt)| >= 72
    requires Utf8(attempt)[..72] == Utf8(data.password)[..72]
    ensures AuthenticateUser(bc, rows + [NewRecord(bc, salt, id, data)], data.email, attempt)
            == Some(ToAuthUser(NewRecord(bc, salt, id, data)))
  {
    CreateThenAuthenticate(bc, rows, salt, id, data, attempt);
  }

  /** For plain ASCII passwords under 72 characters, the created account
      authenticates with its password and with no other. */
  lemma ShortPasswordExact(bc: Bcrypt, rows: seq<AdminUser>, salt: string, id: string,
                           data: NewAdminUser, attempt: string)
    requires BcryptLaws(bc) && Unique(rows, EmailColumn)
    requires forall u :: u in rows ==> u.email != data.email
    requires PlainAscii(data.password) && |data.password| < 72
    requires PlainAscii(attempt) && |attempt| < 72
    ensures AuthenticateUser(bc, rows + [NewRecord(bc, salt, id, data)], data.email, attempt)
            == if attempt == data.password then Some(ToAuthUser(NewRecord(bc, salt, id, data))) else None
  {
    CreateThenAuthenticate(bc, rows, salt, id, data, attempt);
    ShortAsciiKeysDistinct(attempt, data.password);
  }

  class AdminUserTable {
    var rows: seq<AdminUser>

    ghost predicate Valid()
      reads this
    {
      Unique(rows, EmailColumn) && Unique(rows, IdColumn)
    }

    constructor ()
      ensures Valid() && rows == []
    {
      rows := [];
    }

    /** `createAdminUser(userData)`. The database rejects a duplicate email or
        id (`newId` is the identifier it generates for the row). */
    method CreateAdminUser(bc: Bcrypt, salt: string, newId: string, data: NewAdminUser) returns (r: Result<AdminUser>)
      requires Valid()
      modifies this
      ensures Valid()
      ensures r.Ok? <==> (forall u :: u in old(rows) ==> u.email != data.email && u.id != newId)
      ensures r.Ok? ==> r.value == NewRecord(bc, salt, newId, data) && rows == old(rows) + [r.value]
      ensures r.Err? ==> rows == old(rows)
    {
      if Lookup(rows, EmailColumn, data.email).Some? || Lookup(rows, IdColumn, newId).Some? {
        return Err(UniqueViolation);
      }
      var created := NewRecord(bc, salt, newId, data);
      rows := rows + [created];
      return Ok(created);
    }
  }

  // ---------------------------------------------------------------------------
  // Token codec

  /** `process.env.JWT_SECRET || 'fallback-secret'` */
  function SecretKey(jwtSecret: Option<string>): (key: string)
    ensures jwtSecret.Some? && jwtSecret.value != "" ==> key == jwtSecret.value
    ensures jwtSecret.None? || jwtSecret.value == "" ==> key == FallbackSecret
  {
    if jwtSecret.Some? && jwtSecret.value != "" then jwtSecret.value else FallbackSecret
  }

  /** The claims `generateToken` signs at time `now`: id, email, username and
      role, but not name, expiring 24 hours later. */
  function TokenPayload(user: AuthUser, now: int): (p: Payload)
    ensures p.claims.Keys == {"id", "email", "username", "role"}
    ensures "name" !in p.claims
    ensures p.claims["id"] == user.id && p.claims["email"] == user.email
    ensures p.claims["username"] == user.username && p.claims["role"] == user.role
    ensures p.exp == now + TokenLifetime
  {
    Payload(map["id" := user.id, "email" := user.email, "username" := user.username, "role" := user.role],
            now + TokenLifetime)
  }

  /** `generateToken(user)` at time `now`. */
  function GenerateToken(jose: Jose, jwtSecret: Option<string>, now: int, user: AuthUser): string {
    jose.sign(SecretKey(jwtSecret), TokenPayload(user, now))
  }

  /** `payload.k as string`; a claim the payload lacks reads as "". */
  function Claim(p: Payload, k: string): (v: string)
    ensures k !in p.claims ==> v == ""
  {
    if k in p.claims then p.claims[k] else ""
  }

  /** The identity `verifyToken` builds from a verified payload: `name` is
      the name claim, else the username claim, else "". */
  function IdentityOf(p: Payload): (u: AuthUser)
    ensures u.id == Claim(p, "id") && u.email == Claim(p, "email")
    ensures u.username == Claim(p, "username") && u.role == Claim(p, "role")
    ensures Claim(p, "name") != "" ==> u.name == Claim(p, "name")
    ensures Claim(p, "name") == "" ==> u.name == Claim(p, "username")
  {
    AuthUser(Claim(p, "id"), Claim(p, "email"), Claim(p, "username"),
             if Claim(p, "name") != "" then Claim(p, "name") else Claim(p, "username"),
             Claim(p, "role"))
  }

  /** `verifyToken(token)` at time `now`: null on any verification failure. */
  function VerifyToken(jose: Jose, jwtSecret: Option<string>, now: int, token: string): (r: Option<AuthUser>)
    ensures jose.jwtVerify(SecretKey(jwtSecret), token, now).None? ==> r.None?
  {
    match jose.jwtVerify(SecretKey(jwtSecret), token, now)
    case None => None
    case Some(p) => Some(IdentityOf(p))
  }

  /** Round trip: before it expires, a generated token decodes to the same id,
      email, username and role; its name is the username, because the name
      claim is never signed. */
  lemma TokenRoundTrip(jose: Jose, jwtSecret: Option<string>, issuedAt: int, now: int, user: AuthUser)
    requires JoseLaws(jose)
    requires now < issuedAt + TokenLifetime
    ensures VerifyToken(jose, jwtSecret, now, GenerateToken(jose, jwtSecret, issuedAt, user))
            == Some(AuthUser(user.id, user.email, user.username, user.username, user.role))
  {
    var p := TokenPayload(user, issuedAt);
    assert jose.jwtVerify(SecretKey(jwtSecret), jose.sign(SecretKey(jwtSecret), p), now) == Some(p);
  }

  /** A generated token is refused from 24 hours after issue on. */
  lemma TokenExpires(jose: Jose, jwtSecret: Option<string>, issuedAt: int, now: int, user: AuthUser)
    requires JoseLaws(jose)
    requires now >= issuedAt + TokenLifetime
    ensures VerifyToken(jose, jwtSecret, now, GenerateToken(jose, jwtSecret, issuedAt, user)).None?
  {
    var key := SecretKey(jwtSecret);
    var t := jose.sign(key, TokenPayload(user, issuedAt));
    var r := jose.jwtVerify(key, t, now);
    assert r.Some? ==> t == jose.sign(key, r.value);
  }

  /** A token signed under another secret is refused. */
  lemma ForeignTokenRefused(jose: Jose, secret: Option<string>, otherSecret: Option<string>,
                            issuedAt: int, now: int, user: AuthUser)
    requires JoseLaws(jose)
    requires SecretKey(secret) != SecretKey(otherSecret)
    ensures VerifyToken(jose, secret, now, GenerateToken(jose, otherSecret, issuedAt, user)).None?
  {
    var t := GenerateToken(jose, otherSecret, issuedAt, user);
    var key := SecretKey(secret);
    var r := jose.jwtVerify(key, t, now);
    assert r.Some? ==> t == jose.sign(key, r.value);
  }

  /** Whatever `verifyToken` accepts was signed with the secret and has not expired. */
  lemma VerifiedTokenWasSigned(jose: Jose, jwtSecret: Option<string>, now: int, token: string)
    requires JoseLaws(jose)
    requires VerifyToken(jose, jwtSecret, now, token).Some?
    ensures exists p :: token == jose.sign(SecretKey(jwtSecret), p) && now < p.exp
                        && VerifyToken(jose, jwtSecret, now, token) == Some(IdentityOf(p))
  {
    var p := jose.jwtVerify(SecretKey(jwtSecret), token, now).value;
    assert token == jose.sign(SecretKey(jwtSecret), p);
  }

  // ---------------------------------------------------------------------------
  // Bearer-header admin check

  const BearerPrefix := "Bearer "

  /** `authHeader.split(' ')[1]` for a header that starts with "Bearer ". */
  function BearerToken(header: string): string
    requires StartsWith(header, BearerPrefix)
  {
    assert header[6] == ' ';
    SplitAtSpace(header);
    Split(header)[1]
  }

  /** A token without spaces is read back whole from "Bearer <token>". */
  lemma BearerTokenRoundTrip(token: string)
    requires ' ' !in token
    ensures StartsWith(BearerPrefix + token, BearerPrefix)
    ensures BearerToken(BearerPrefix + token) == token
  {
    assert BearerPrefix + token == "Bearer" + " " + token;
    SplitAfterWord("Bearer", token);
    SplitHead(token);
  }

  /** `verifyAdmin(request)` for the `authorization` header `header`: the
      token must verify and its id must name an active stored account; the
      result is read from the stored record, not from the token. */
  function VerifyAdmin(jose: Jose, jwtSecret: Option<string>, now: int,
                       header: Option<string>, rows: seq<AdminUser>): (r: Option<AuthUser>)
    ensures header.None? || header.value == "" || !StartsWith(header.value, BearerPrefix) ==> r.None?
    ensures r.Some? ==> exists u :: u in rows && u.isActive && r.value == ToAuthUser(u)
                          && VerifyToken(jose, jwtSecret, now, BearerToken(header.value)).Some?
                          && u.id == VerifyToken(jose, jwtSecret, now, BearerToken(header.value)).value.id
    // a Bearer token that verifies and names an active stored account is
    // accepted, with that account's stored record
    ensures header.Some? && header.value != "" && StartsWith(header.value, BearerPrefix)
            && VerifyToken(jose, jwtSecret, now, BearerToken(header.value)).Some?
            && Lookup(rows, IdColumn, VerifyToken(jose, jwtSecret, now, BearerToken(header.value)).value.id).Some?
            && Lookup(rows, IdColumn, VerifyToken(jose, jwtSecret, now, BearerToken(header.value)).value.id).value.isActive
            ==> r == Some(ToAuthUser(Lookup(rows, IdColumn,
                                            VerifyToken(jose, jwtSecret, now, BearerToken(header.value)).value.id).value))
  {
    if header.None? || header.value == "" || !StartsWith(header.value, BearerPrefix) then None
    else
      match VerifyToken(jose, jwtSecret, now, BearerToken(header.value))
      case None => None
      case Some(decoded) =>
        match Lookup(rows, IdColumn, decoded.id)
        case None => None
        case Some(u) => if !u.isActive then None else Some(ToAuthUser(u))
  }

  /** A deactivated account is refused by `verifyAdmin` even while its token
      is still valid: the store is re-checked on every call. */
  lemma VerifyAdminRechecksStore(jose: Jose, jwtSecret: Option<string>, issuedAt: int, now: int,
                                 rows: seq<AdminUser>, u: AdminUser)
    requires JoseLaws(jose) && Unique(rows, IdColumn)
    requires u in rows && !u.isActive
    requires now < issuedAt + TokenLifetime
    ensures VerifyAdmin(jose, jwtSecret, now,
                        Some(BearerPrefix + GenerateToken(jose, jwtSecret, issuedAt, ToAuthUser(u))), rows).None?
  {
    var t := GenerateToken(jose, jwtSecret, issuedAt, ToAuthUser(u));
    assert ' ' !in t;
    BearerTokenRoundTrip(t);
    TokenRoundTrip(jose, jwtSecret, issuedAt, now, ToAuthUser(u));
    LookupUnique(rows, IdColumn, u);
  }

  /** An active stored account's unexpired token, sent as "Bearer <token>",
      is accepted, and the result is that account's stored identity. */
  lemma VerifyAdminAcceptsActiveAccount(jose: Jose, jwtSecret: Option<string>, issuedAt: int, now: int,
                                        rows: seq<AdminUser>, u: AdminUser)
    requires JoseLaws(jose) && Unique(rows, IdColumn)
    requires u in rows && u.isActive
    requires now < issuedAt + TokenLifetime
    ensures VerifyAdmin(jose, jwtSecret, now,
                        Some(BearerPrefix + GenerateToken(jose, jwtSecret, issuedAt, ToAuthUser(u))), rows)
            == Some(ToAuthUser(u))
  {
    var t := GenerateToken(jose, jwtSecret, issuedAt, ToAuthUser(u));
    assert ' ' !in t;
    BearerTokenRoundTrip(t);
    TokenRoundTrip(jose, jwtSecret, issuedAt, now, ToAuthUser(u));
    LookupUnique(rows, IdColumn, u);
  }
}
