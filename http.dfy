/** The parts of an HTTP exchange the handlers look at: cookies read from a
    request and the `Set-Cookie` instructions a response carries. */
module Http {
  import opened Common

  /** Options passed to `response.cookies.set`. `secure` is
      `process.env.NODE_ENV === 'production'`. */
  datatype CookieOptions = CookieOptions(httpOnly: bool, secure: bool, sameSite: string, maxAge: int)

  datatype SetCookie = SetCookie(name: string, value: string, options: CookieOptions)

  /** A browser applying a `Set-Cookie` instruction to its cookie jar. */
  function ApplySetCookie(jar: map<string, string>, c: SetCookie): (r: map<string, string>)
    ensures c.options.maxAge > 0 ==> r == jar[c.name := c.value]
    ensures c.options.maxAge <= 0 ==> c.name !in r && forall n :: n in jar && n != c.name ==> n in r && r[n] == jar[n]
  {
    if c.options.maxAge > 0 then jar[c.name := c.value] else jar - {c.name}
  }
}
