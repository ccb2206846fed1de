/** The two cryptographic libraries lib/auth.ts calls, bcryptjs and jose, as
    records of functions. The model never looks inside them: every lemma that
    relies on what they do takes as a precondition the law predicate below,
    which states the library's promise (a hash matches exactly the passwords
    that share its bcrypt key; a JWS signed with HS256 verifies with the
    same secret until its `exp` claim, and nothing else verifies). */
module Crypto {
  import opened Common

  /** The UTF-8 encoding of one code point (section 3 of RFC 3629). */
  function Utf8Char(c: char): (bytes: seq<int>)
    ensures 1 <= |bytes| <= 4
    ensures forall k :: 0 <= k < |bytes| ==> 0 <= bytes[k] < 256
    ensures bytes[0] == 0 <==> c == 0 as char
    ensures c as int < 0x80 ==> bytes == [c as int]
  {
    var n := c as int;
    if n < 0x80 then [n]
    else if n < 0x800 then [0xC0 + n / 64, 0x80 + n % 64]
    else if n < 0x10000 then [0xE0 + n / 4096, 0x80 + (n / 64) % 64, 0x80 + n % 64]
    else [0xF0 + n / 262144, 0x80 + (n / 4096) % 64, 0x80 + (n / 64) % 64, 0x80 + n % 64]
  }

  /** The UTF-8 encoding of a string, the bytes bcryptjs hashes. */
  function Utf8(s: string): (bytes: seq<int>)
    ensures |bytes| >= |s|
    ensures 0 as char !in s ==> 0 !in bytes
  {
    if s == [] then [] else Utf8Char(s[0]) + Utf8(s[1..])
  }

  /** Bytes of `k` repeated from the start until there are `n` of them. */
  function Cycle(k: seq<int>, n: nat): (r: seq<int>)
    requires |k| > 0
    ensures |r| == n
    ensures forall i :: 0 <= i < n ==> r[i] == k[i % |k|]
  {
    seq(n, i requires 0 <= i < n => k[i % |k|])
  }

  /** Within the first pass, the cycle reads the key itself. */
  lemma CycleFront(k: seq<int>, n: nat, i: nat)
    requires i < |k| && i < n
    ensures Cycle(k, n)[i] == k[i]
  {
    assert i % |k| == i;
  }

  /** A key of at least 72 bytes before its terminator is cut, not cycled. */
  lemma LongKeyPrefix(u: seq<int>)
    ensures |u| >= 72 ==> Cycle(u + [0], 72) == u[..72]
  {
    if |u| >= 72 {
      forall i | 0 <= i < 72 ensures Cycle(u + [0], 72)[i] == u[..72][i] {
        CycleFront(u + [0], 72, i);
      }
    }
  }

  /** The 72 key bytes bcrypt's key schedule consumes (EksBlowfish, Provos
      and Mazieres 1999): the UTF-8 password with its NUL terminator, read
      cyclically. A password of 72 bytes or more contributes exactly its
      first 72 bytes; the rest of it is never read. */
  function BcryptKey(password: string): (key: seq<int>)
    ensures |key| == 72
    ensures |Utf8(password)| >= 72 ==> key == Utf8(password)[..72]
  {
    LongKeyPrefix(Utf8(password));
    Cycle(Utf8(password) + [0], 72)
  }

  /** A short NUL-free password fills the cycle's first pass and is then
      followed by its terminator, the first zero byte of the key. */
  lemma ShortKeyShape(u: seq<int>)
    requires |u| < 72 && 0 !in u
    ensures Cycle(u + [0], 72)[|u|] == 0
    ensures forall i :: 0 <= i < |u| ==> Cycle(u + [0], 72)[i] == u[i] != 0
  {
    CycleFront(u + [0], 72, |u|);
    forall i | 0 <= i < |u| ensures Cycle(u + [0], 72)[i] == u[i] {
      CycleFront(u + [0], 72, i);
    }
  }

  /** Below 72 bytes, and without a NUL, different passwords give different
      keys: the terminator sits at the password's length. */
  lemma ShortKeysDistinct(u1: seq<int>, u2: seq<int>)
    requires |u1| < 72 && |u2| < 72 && 0 !in u1 && 0 !in u2
    ensures Cycle(u1 + [0], 72) == Cycle(u2 + [0], 72) <==> u1 == u2
  {
    ShortKeyShape(u1);
    ShortKeyShape(u2);
  }

  /** Printable-range ASCII text without NUL: one byte per character. */
  predicate PlainAscii(s: string) {
    forall i :: 0 <= i < |s| ==> 0 < s[i] as int < 0x80
  }

  /** The UTF-8 encoding of plain ASCII is its character codes. */
  lemma {:induction false} Utf8OfAscii(s: string)
    requires PlainAscii(s)
    ensures |Utf8(s)| == |s|
    ensures forall i :: 0 <= i < |s| ==> Utf8(s)[i] == s[i] as int
  {
    if s != [] {
      assert PlainAscii(s[1..]) by {
        forall i | 0 <= i < |s[1..]| ensures 0 < s[1..][i] as int < 0x80 {
          assert s[1..][i] == s[i + 1];
        }
      }
      Utf8OfAscii(s[1..]);
      assert Utf8(s) == [s[0] as int] + Utf8(s[1..]);
    }
  }

  /** For plain ASCII passwords under 72 characters the bcrypt key tells
      the passwords apart. */
  lemma ShortAsciiKeysDistinct(a: string, b: string)
    requires PlainAscii(a) && PlainAscii(b) && |a| < 72 && |b| < 72
    ensures BcryptKey(a) == BcryptKey(b) <==> a == b
  {
    Utf8OfAscii(a);
    Utf8OfAscii(b);
    ShortKeysDistinct(Utf8(a), Utf8(b));
    if Utf8(a) == Utf8(b) {
      forall i | 0 <= i < |a| ensures a[i] == b[i] {
        assert a[i] as int == b[i] as int;
      }
    }
  }

  /** `bcrypt.hash(password, salt)` and `bcrypt.compare(password, hash)`.
      The salt bcrypt draws at random (cost 12) is an explicit argument. */
  datatype Bcrypt = Bcrypt(hash: (string, string) -> string, compare: (string, string) -> bool)

  /** A hash made from a password matches exactly the passwords with the
      same bcrypt key (hash collisions aside): the password itself, and any
      other that agrees with it on the first 72 UTF-8 bytes. */
  ghost predicate BcryptLaws(b: Bcrypt) {
    forall password: string, other: string, salt: string ::
      b.compare(other, b.hash(password, salt)) <==> BcryptKey(other) == BcryptKey(password)
  }

  /** A JWT claims set: string-valued claims and the registered `exp` claim
      (seconds since the epoch, section 4.1.4 of RFC 7519). */
  datatype Payload = Payload(claims: map<string, string>, exp: int)

  /** `new SignJWT(claims).setProtectedHeader({ alg: 'HS256' }).sign(key)`
      (HMAC with SHA-256, section 3.2 of RFC 7518) and `jwtVerify(token, key)`
      at time `now` (seconds), which throws on failure; a throw is `None`. */
  datatype Jose = Jose(sign: (string, Payload) -> string, jwtVerify: (string, string, int) -> Option<Payload>)

  ghost predicate JoseLaws(j: Jose) {
    // a token verifies with its own secret before it expires
    && (forall key: string, p: Payload, now: int :: now < p.exp ==> j.jwtVerify(key, j.sign(key, p), now) == Some(p))
    // verification checks the expiry: `exp <= now` is rejected
    && (forall key: string, t: string, now: int :: j.jwtVerify(key, t, now).Some? ==> now < j.jwtVerify(key, t, now).value.exp)
    // only a token signed with the key verifies (no forgery, no tampering)
    && (forall key: string, t: string, now: int :: j.jwtVerify(key, t, now).Some? ==> t == j.sign(key, j.jwtVerify(key, t, now).value))
    // the compact serialization carries the claims and a MAC over them under the key
    && (forall k1: string, p1: Payload, k2: string, p2: Payload :: j.sign(k1, p1) == j.sign(k2, p2) ==> k1 == k2 && p1 == p2)
    // the compact serialization is non-empty base64url text with dots: no space
    && (forall key: string, p: Payload :: j.sign(key, p) != "" && ' ' !in j.sign(key, p))
  }
}
