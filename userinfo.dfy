/**
  The resource endpoint, `GET /userinfo` (server/app/userinfo/route.ts): the
  `Authorization: Bearer <token>` header form of section 2.1 of RFC 6750,
  matched by `/^Bearer (.+)$/i`, then token verification, which is a
  function parameter here; `Tokens.SoundKeys` says what the model assumes
  of it.
*/
module UserInfo {
  import opened Wrappers
  import opened Tokens

  datatype Response =
    /** 200 with exactly `sub` and `email` from the verified claims. */
    | Profile(sub: string, email: string)
    /** 401 with a JSON `{error}` body. */
    | Unauthorized(error: string)

  /** The characters `.` does not match in a JavaScript regular expression without the s flag. */
  predicate IsLineTerminator(c: char)
  {
    c == '\n' || c == '\r' || c == '\U{2028}' || c == '\U{2029}'
  }

  /** ASCII lower case; the i flag without the u flag folds no other letter onto these. */
  function Lower(c: char): char
  {
    if 'A' <= c <= 'Z' then (c as int - 'A' as int + 'a' as int) as char else c
  }

  /** The first six characters spell "bearer" in any mix of cases. */
  predicate StartsWithBearerWord(auth: string)
  {
    |auth| >= 6 && forall i :: 0 <= i < 6 ==> Lower(auth[i]) == "bearer"[i]
  }

  /**
    `auth.match(/^Bearer (.+)$/i)` and its group 1: the word Bearer in any
    case, one space, then at least one character up to the end of the header,
    none of them a line terminator. The token is everything after the
    seven-character prefix.
  */
  function MatchBearer(auth: string): (m: Option<string>)
    ensures m.Some? <==>
              |auth| >= 8 && StartsWithBearerWord(auth) && auth[6] == ' '
              && forall i :: 7 <= i < |auth| ==> !IsLineTerminator(auth[i])
    ensures m.Some? ==> m.value == auth[7..] && |m.value| >= 1
  {
    if |auth| < 8 || !StartsWithBearerWord(auth) || auth[6] != ' ' then None
    else if exists i :: 7 <= i < |auth| && IsLineTerminator(auth[i]) then None
    else Some(auth[7..])
  }

  /**
    The `GET` handler. An absent header reads as "" and, like any header not
    of the Bearer form, is `missing_token`; a token that fails verification is
    `invalid_token`; otherwise the claims' `sub` and `email` are returned.
  */
  function Get(authorization: Option<string>, verify: string -> Option<Claims>): (r: Response)
    ensures authorization == None ==> r == Unauthorized("missing_token")
    ensures r == Unauthorized("missing_token") <==>
              MatchBearer(if authorization == None then "" else authorization.value) == None
    ensures r == Unauthorized("invalid_token") <==>
              var m := MatchBearer(if authorization == None then "" else authorization.value);
              m.Some? && verify(m.value) == None
    ensures r.Profile? ==>
              exists token, c :: MatchBearer(authorization.value) == Some(token)
                                 && verify(token) == Some(c) && r == Profile(c.sub, c.email)
    ensures var m := MatchBearer(if authorization == None then "" else authorization.value);
            m.Some? && verify(m.value).Some? ==>
              r == Profile(verify(m.value).value.sub, verify(m.value).value.email)
  {
    var auth := match authorization case Some(h) => h case None => "";
    match MatchBearer(auth)
    case None => Unauthorized("missing_token")
    case Some(token) =>
      match verify(token)
      case None => Unauthorized("invalid_token")
      case Some(payload) => Profile(payload.sub, payload.email)
  }

  /** The header a client builds, "Bearer " + token, passes the match with that token. */
  lemma BearerHeaderMatches(token: string)
    requires |token| >= 1
    requires forall i :: 0 <= i < |token| ==> !IsLineTerminator(token[i])
    ensures MatchBearer("Bearer " + token) == Some(token)
  {
    var auth := "Bearer " + token;
    assert StartsWithBearerWord(auth);
    assert forall i :: 7 <= i < |auth| ==> auth[i] == token[i - 7];
    assert auth[7..] == token;
  }

  /**
    A token the service issued, presented before it expires in the header
    form, yields exactly the subject and email it was issued for.
  */
  lemma IssuedTokenYieldsProfile(issuer: Issuer, verify: string -> Option<Claims>, sub: string, email: string)
    requires SoundKeys(issuer.sign, verify, issuer.now)
    requires issuer.ttl > 0
    ensures Get(Some("Bearer " + IssueAccessToken(issuer, sub, email).access_token), verify)
            == Profile(sub, email)
  {
    var claims := Claims(sub, email, issuer.now, issuer.now + issuer.ttl);
    var token := issuer.sign(claims);
    assert IsCompactJws(token);
    assert verify(token) == Some(claims);
    BearerHeaderMatches(token);
  }

  /**
    Under `SoundKeys`, a profile is only ever returned for a token the
    signer produced from claims that have not expired, and it carries those
    claims' subject and email.
  */
  lemma ProfileOnlyForIssuedTokens(authorization: Option<string>, sign: Claims -> string,
                                   verify: string -> Option<Claims>, now: int)
    requires SoundKeys(sign, verify, now)
    ensures var r := Get(authorization, verify);
            r.Profile? ==>
              exists c :: MatchBearer(authorization.value) == Some(sign(c))
                          && now < c.exp && r == Profile(c.sub, c.email)
  {
    var r := Get(authorization, verify);
    if r.Profile? {
      var token := MatchBearer(authorization.value).value;
      var c := verify(token).value;
      assert sign(c) == token && now < c.exp;
    }
  }
}
