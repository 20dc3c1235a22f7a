/**
 * The session token's claims and the `token` cookie that carries it
 * (section 4.1.2 of RFC 6265 for the cookie attributes).
 */
module Session {

  /** Name of the cookie that carries the session token. */
  const CookieName := "token"

  /** `expiresIn: '24h'`: the signed token's own validity, in seconds. */
  const TokenLifetimeSeconds := 24 * 60 * 60

  /** `maxAge: 60 * 60 * 24 * 7`: the cookie's lifetime at login, in seconds. */
  const CookieMaxAgeSeconds := 60 * 60 * 24 * 7

  /** Claims signed into the token at login. */
  datatype Claims = Claims(
    id: string,
    username: string,
    isAdmin: bool,
    isCSR: bool,
    isActive: bool,
    isLeadRole: bool)

  /** What is handed to the signer: the claims and the `expiresIn` option. */
  datatype TokenRequest = TokenRequest(claims: Claims, expiresInSeconds: nat)

  datatype SameSite = Strict | Lax | NoRestriction

  /** A `Set-Cookie` instruction, as passed to `response.cookies.set`. */
  datatype Cookie = Cookie(
    name: string,
    value: string,
    httpOnly: bool,
    secure: bool,
    sameSite: SameSite,
    path: string,
    maxAge: nat)


  /** The attributes other than value and lifetime agree. */
  predicate SameAttributes(a: Cookie, b: Cookie) {
    a.name == b.name && a.httpOnly == b.httpOnly && a.secure == b.secure
    && a.sameSite == b.sameSite && a.path == b.path
  }
}
