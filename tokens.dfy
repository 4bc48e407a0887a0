/**
  The access-token service (server/lib/tokens.ts) as abstract parameters:
  HS256 signing and verification are functions handed to the routes, and the
  clock and the configured lifetime are values.
*/
module Tokens {
  import opened Base64Url
  import opened Wrappers

  /** The claims of an access token: subject, email, issued-at and expiry seconds. */
  datatype Claims = Claims(sub: string, email: string, iat: int, exp: int)

  /** The JSON body /token returns on success. */
  datatype TokenResponse = TokenResponse(access_token: string, token_type: string, expires_in: int)

  /** What issuing needs from outside: the signing function, the time in seconds, the lifetime. */
  datatype Issuer = Issuer(sign: Claims -> string, now: int, ttl: int)

  /** `issueAccessToken(sub, email)`: claims from now to now + ttl, and the envelope. */
  function IssueAccessToken(issuer: Issuer, sub: string, email: string): (r: TokenResponse)
    ensures r.token_type == "Bearer" && r.expires_in == issuer.ttl
    ensures r.access_token == issuer.sign(Claims(sub, email, issuer.now, issuer.now + issuer.ttl))
  {
    var claims := Claims(sub, email, issuer.now, issuer.now + issuer.ttl);
    TokenResponse(issuer.sign(claims), "Bearer", claims.exp - claims.iat)
  }

  /** A JWS in compact serialization: base64url segments joined by dots. */
  predicate IsCompactJws(t: string)
  {
    |t| > 0 && forall i :: 0 <= i < |t| ==> IsUrlChar(t[i]) || t[i] == '.'
  }

  /**
    What the model assumes of the JWT library at verification time `now`:
    it produces compact tokens and returns the claims of any token it signed
    that has not yet expired; and whatever it accepts is a token it signed,
    from claims that have not yet expired, so an expired or forged token is
    rejected.
  */
  ghost predicate SoundKeys(sign: Claims -> string, verify: string -> Option<Claims>, now: int)
  {
    && (forall c :: IsCompactJws(sign(c)) && (now < c.exp ==> verify(sign(c)) == Some(c)))
    && (forall t :: verify(t).Some? ==> sign(verify(t).value) == t && now < verify(t).value.exp)
  }

  /** An expired token the signer produced is rejected. */
  lemma ExpiredRejected(sign: Claims -> string, verify: string -> Option<Claims>, now: int, c: Claims)
    requires SoundKeys(sign, verify, now)
    requires c.exp <= now
    requires forall d :: sign(d) == sign(c) ==> d == c
    ensures verify(sign(c)) == None
  {
  }
}
