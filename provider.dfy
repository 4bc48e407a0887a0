/**
  The provider as one process: the four stores constructed once and shared
  by every route, the composition the login and register routes perform, and
  the invariant that ties the stores together. Every session and every
  stored code names a registered user; users are never removed, so the user
  lookup of /token (`getUserByEmail(...)!`) always succeeds.
*/
module Provider {
  import opened Wrappers
  import opened SearchParams
  import opened Base64Url
  import opened AuthCodes
  import opened Clients
  import opened Users
  import opened Sessions
  import opened Tokens
  import AuthorizeRoute = Authorize
  import TokenRoute = Token
  import UserInfo
  import Pkce

  class AuthServer {
    const users: UserStore
    const sessions: SessionStore
    const registry: Registry
    const codes: CodeStore

    ghost predicate Valid()
      reads this, users, sessions, registry, codes
    {
      && users.Valid() && registry.Valid() && codes.Valid()
      && (forall sid :: sid in sessions.sessions ==> sessions.sessions[sid].userEmail in users.users)
      && (forall c :: c in codes.codes ==> codes.codes[c].userEmail in users.users)
    }

    constructor (clients: seq<Client>, hashPassword: string -> string)
      ensures Valid()
      ensures fresh(users) && fresh(sessions) && fresh(registry) && fresh(codes)
      ensures registry.configured == clients && registry.clients == []
      ensures users.hashPassword == hashPassword && users.users == map[]
      ensures sessions.sessions == map[] && codes.codes == map[]
    {
      users := new UserStore(hashPassword);
      sessions := new SessionStore();
      registry := new Registry(clients);
      codes := new CodeStore();
    }

    /** Registration: `createUser`, which only ever adds users. */
    method Register(email: string, password: string, id: string) returns (r: Result<User, string>)
      requires Valid()
      modifies users
      ensures Valid()
      ensures email in old(users.users) ==> r == Err("exists") && users.users == old(users.users)
      ensures email !in old(users.users) ==>
                r == Ok(User(id, email, users.hashPassword(password)))
                && users.users == old(users.users)[email := r.value]
    {
      r := users.CreateUser(email, password, id);
    }

    /**
      Login: `verifyUser`, then `setSession` with the verified user's email;
      a failed check is "invalid" and opens no session.
    */
    method Login(email: string, password: string, sid: string, now: int) returns (r: Result<string, string>)
      requires Valid()
      requires sid != ""
      modifies sessions
      ensures Valid()
      ensures r.Ok? <==> users.VerifyUser(email, password).Some?
      ensures r.Err? ==> r.error == "invalid" && sessions.sessions == old(sessions.sessions)
      ensures r.Ok? ==>
                r.value == sid
                && sessions.sessions == old(sessions.sessions)[sid := Session(email, now)]
                && sessions.GetCurrentSession(Some(sid)) == Some(Session(email, now))
    {
      var u := users.VerifyUser(email, password);
      if u.None? {
        return Err("invalid");
      }
      var cookie := sessions.SetSession(u.value.email, sid, now);
      r := Ok(cookie);
    }

    /** `GET /authorize` on the shared stores. */
    method Authorize(req: AuthorizeRoute.Request, cookie: Option<string>, freshCode: string, now: int)
      returns (res: AuthorizeRoute.Response)
      requires Valid()
      modifies registry, codes
      ensures Valid()
      ensures registry.clients == registry.configured || registry.clients == old(registry.clients)
      ensures !res.RedirectToClient? ==> codes.codes == old(codes.codes)
      ensures res.RedirectToClient? <==>
                AuthorizeRoute.ResponseTypeOk(req)
                && ValidRedirect(registry.configured, AuthorizeRoute.ClientId(req), AuthorizeRoute.RedirectUri(req))
                && AuthorizeRoute.PkceOk(req)
                && sessions.GetCurrentSession(cookie).Some?
      ensures res.RedirectToClient? ==>
                res.code == freshCode && res.redirect_uri == AuthorizeRoute.RedirectUri(req)
                && (res.state.Some? <==> AuthorizeRoute.State(req) != "")
                && (res.state.Some? ==> res.state.value == AuthorizeRoute.State(req))
                && codes.codes == old(codes.codes)[freshCode := AuthCode(
                     freshCode, AuthorizeRoute.ClientId(req), AuthorizeRoute.RedirectUri(req),
                     AuthorizeRoute.CodeChallenge(req), S256,
                     sessions.GetCurrentSession(cookie).value.userEmail, now)]
    {
      res := AuthorizeRoute.Get(req, cookie, registry, sessions, codes, freshCode, now);
    }

    /**
      `POST /token` on the shared stores. The user bound into a stored code is
      always registered, so the exchange never reaches the null user.
    */
    method Token(params: Params, sha256: Sha256, issuer: Issuer) returns (res: TokenRoute.Response)
      requires Valid()
      modifies registry, codes
      ensures Valid()
      ensures !res.ServerError?
      ensures registry.clients == registry.configured || registry.clients == old(registry.clients)
      ensures TokenRoute.GrantTypeOk(params) ==> codes.codes == old(codes.codes) - {TokenRoute.Code(params)}
      ensures !TokenRoute.GrantTypeOk(params) ==>
                res == TokenRoute.BadRequest("unsupported_grant_type") && codes.codes == old(codes.codes)
      ensures TokenRoute.GrantTypeOk(params) && TokenRoute.Code(params) !in old(codes.codes) ==>
                res == TokenRoute.BadRequest("invalid_code")
      ensures TokenRoute.GrantTypeOk(params) && TokenRoute.Code(params) in old(codes.codes) ==>
                res == TokenRoute.Redeem(old(codes.codes)[TokenRoute.Code(params)], TokenRoute.ClientId(params),
                                    TokenRoute.RedirectUri(params), TokenRoute.CodeVerifier(params),
                                    registry.configured, sha256, users, issuer)
    {
      res := TokenRoute.Post(params, registry, codes, users, sha256, issuer);
    }
  }

  /** Pairs joined as `name=value` with `&`, without percent-encoding. */
  function QueryString(p: Params): string
  {
    if p == [] then ""
    else if |p| == 1 then p[0].0 + "=" + p[0].1
    else p[0].0 + "=" + p[0].1 + "&" + QueryString(p[1..])
  }

  /**
    The authorization request the client's start page sends: the six
    parameters it sets, in order, and the query string made of them.
  */
  function AuthorizeRequest(clientId: string, callback: string, challenge: string, state: string)
    : AuthorizeRoute.Request
  {
    var p := [("response_type", "code"), ("client_id", clientId), ("redirect_uri", callback),
              ("code_challenge", challenge), ("code_challenge_method", "S256"), ("state", state)];
    AuthorizeRoute.Request("/authorize", "?" + QueryString(p), p)
  }

  /** The token request the client's callback sends. */
  function TokenRequest(clientId: string, callback: string, code: string, verifier: string): Params
  {
    [("grant_type", "authorization_code"), ("code", code), ("redirect_uri", callback),
     ("client_id", clientId), ("code_verifier", verifier)]
  }

  /** The request's client-side parameters, as /authorize reads them. */
  lemma AuthorizeRequestFields(clientId: string, callback: string, challenge: string, state: string)
    ensures var req := AuthorizeRequest(clientId, callback, challenge, state);
      && AuthorizeRoute.ResponseTypeOk(req)
      && AuthorizeRoute.ClientId(req) == clientId && AuthorizeRoute.RedirectUri(req) == callback
  {
    var req := AuthorizeRequest(clientId, callback, challenge, state);
    var p := req.params;
    // the parameter names have pairwise distinct lengths
    assert |p[0].0| == 13 && |p[1].0| == 9;
    assert AuthorizeRoute.ResponseTypeOk(req) by { GetFirst(p, 0, "response_type"); }
    assert AuthorizeRoute.ClientId(req) == clientId by { GetFirst(p, 1, "client_id"); }
    assert AuthorizeRoute.RedirectUri(req) == callback by { GetFirst(p, 2, "redirect_uri"); }
  }

  /** The request's PKCE parameters, as /authorize reads them. */
  lemma AuthorizeRequestPkce(clientId: string, callback: string, challenge: string, state: string)
    ensures var req := AuthorizeRequest(clientId, callback, challenge, state);
      AuthorizeRoute.CodeChallenge(req) == challenge && AuthorizeRoute.ChallengeMethod(req) == S256
  {
    var req := AuthorizeRequest(clientId, callback, challenge, state);
    var p := req.params;
    assert |p[0].0| == 13 && |p[1].0| == 9 && |p[2].0| == 12 && |p[3].0| == 14;
    assert AuthorizeRoute.CodeChallenge(req) == challenge by { GetFirst(p, 3, "code_challenge"); }
    assert AuthorizeRoute.ChallengeMethod(req) == S256 by { GetFirst(p, 4, "code_challenge_method"); }
  }

  /** The request's `state`, as /authorize reads it. */
  lemma AuthorizeRequestState(clientId: string, callback: string, challenge: string, state: string)
    ensures AuthorizeRoute.State(AuthorizeRequest(clientId, callback, challenge, state)) == state
  {
    var p := AuthorizeRequest(clientId, callback, challenge, state).params;
    assert |p[0].0| == 13 && |p[1].0| == 9 && |p[2].0| == 12 && |p[3].0| == 14 && |p[4].0| == 21;
    GetFirst(p, 5, "state");
  }

  /** The grant type, code and redirect URI, as /token reads them. */
  lemma TokenRequestFields(clientId: string, callback: string, code: string, verifier: string)
    ensures var p := TokenRequest(clientId, callback, code, verifier);
      TokenRoute.GrantTypeOk(p) && TokenRoute.Code(p) == code && TokenRoute.RedirectUri(p) == callback
  {
    var p := TokenRequest(clientId, callback, code, verifier);
    assert |p[0].0| == 10 && |p[1].0| == 4;
    assert TokenRoute.GrantTypeOk(p) by { GetFirst(p, 0, "grant_type"); }
    assert TokenRoute.Code(p) == code by { GetFirst(p, 1, "code"); }
    assert TokenRoute.RedirectUri(p) == callback by { GetFirst(p, 2, "redirect_uri"); }
  }

  /** The client id and the verifier, as /token reads them. */
  lemma TokenRequestClient(clientId: string, callback: string, code: string, verifier: string)
    ensures var p := TokenRequest(clientId, callback, code, verifier);
      TokenRoute.ClientId(p) == clientId && TokenRoute.CodeVerifier(p) == verifier
  {
    var p := TokenRequest(clientId, callback, code, verifier);
    assert |p[0].0| == 10 && |p[1].0| == 4 && |p[2].0| == 12 && |p[3].0| == 9;
    assert TokenRoute.ClientId(p) == clientId by { GetFirst(p, 3, "client_id"); }
    assert TokenRoute.CodeVerifier(p) == verifier by { GetFirst(p, 4, "code_verifier"); }
  }

  /**
    A fresh server configured with the one client `clientId` (redirect URI
    `callback`), on which `email` has registered and logged in with cookie `sid`.
  */
  method Enrol(clientId: string, callback: string, hashPassword: string -> string,
               email: string, password: string, userId: string, sid: string, now: int)
    returns (server: AuthServer)
    requires sid != ""
    ensures fresh(server) && fresh(server.users) && fresh(server.sessions)
    ensures fresh(server.registry) && fresh(server.codes)
    ensures server.Valid()
    ensures server.registry.configured == [Client(clientId, [callback])]
    ensures server.users.users == map[email := User(userId, email, hashPassword(password))]
    ensures server.sessions.GetCurrentSession(Some(sid)) == Some(Session(email, now))
    ensures server.codes.codes == map[]
  {
    server := new AuthServer([Client(clientId, [callback])], hashPassword);
    var registered := server.Register(email, password, userId);
    var login := server.Login(email, password, sid, now);
    assert login == Ok(sid);
  }

  /**
    The client's first leg on a server configured with the single client
    `clientId` (redirect URI `callback`): /authorize with a challenge, a
    non-empty `state` and the session cookie redirects back with the new
    code and that `state`, and binds the code to the challenge.
  */
  method StartAuthorization(server: AuthServer, clientId: string, callback: string, challenge: string,
                            state: string, sid: string, freshCode: string, now: int)
    returns (redirect: AuthorizeRoute.Response)
    requires server.Valid() && challenge != "" && state != ""
    requires server.registry.configured == [Client(clientId, [callback])]
    requires server.sessions.GetCurrentSession(Some(sid)).Some?
    modifies server.registry, server.codes
    ensures server.Valid()
    ensures redirect == AuthorizeRoute.RedirectToClient(callback, freshCode, Some(state))
    ensures server.codes.codes == old(server.codes.codes)[freshCode := AuthCode(
              freshCode, clientId, callback, challenge, S256,
              server.sessions.GetCurrentSession(Some(sid)).value.userEmail, now)]
  {
    var req := AuthorizeRequest(clientId, callback, challenge, state);
    AuthorizeRequestFields(clientId, callback, challenge, state);
    AuthorizeRequestPkce(clientId, callback, challenge, state);
    AuthorizeRequestState(clientId, callback, challenge, state);
    FirstEntryDecides([], Client(clientId, [callback]), [], callback);
    redirect := server.Authorize(req, Some(sid), freshCode, now);
  }

  /**
    The client's second leg: presenting a code bound to this client, its
    redirect URI, the challenge of `verifier` and a registered user issues
    that user's token and uses the code up, so presenting it again is
    `invalid_code`.
  */
  method ExchangeCode(server: AuthServer, clientId: string, callback: string, code: string,
                      verifier: string, sha256: Sha256, issuer: Issuer)
    returns (token: TokenRoute.Response, replay: TokenRoute.Response)
    requires server.Valid()
    requires server.registry.configured == [Client(clientId, [callback])]
    requires code in server.codes.codes
    requires var item := server.codes.codes[code];
             item.client_id == clientId && item.redirect_uri == callback
             && item.code_challenge == Challenge(sha256, verifier)
    modifies server.registry, server.codes
    ensures server.Valid()
    ensures server.codes.codes == old(server.codes.codes) - {code}
    ensures var user := server.users.users[old(server.codes.codes)[code].userEmail];
            token == TokenRoute.Issued(IssueAccessToken(issuer, user.id, user.email))
    ensures replay == TokenRoute.BadRequest("invalid_code")
  {
    ghost var item := server.codes.codes[code];
    ghost var user := server.users.users[item.userEmail];
    var params := TokenRequest(clientId, callback, code, verifier);
    TokenRequestFields(clientId, callback, code, verifier);
    TokenRequestClient(clientId, callback, code, verifier);
    FirstEntryDecides([], Client(clientId, [callback]), [], callback);
    token := server.Token(params, sha256, issuer);
    TokenRoute.RedeemIssues(item, clientId, callback, verifier, [Client(clientId, [callback])],
                            sha256, server.users, issuer, user);
    replay := server.Token(params, sha256, issuer);
  }

  /**
    The second leg with a verifier whose challenge is not the bound one: the
    exchange is `invalid_verifier`, and the code is burned all the same, so a
    retry with the right verifier is `invalid_code`.
  */
  method ExchangeWithWrongVerifier(server: AuthServer, clientId: string, callback: string, code: string,
                                   verifier: string, wrong: string, sha256: Sha256, issuer: Issuer)
    returns (first: TokenRoute.Response, retry: TokenRoute.Response)
    requires server.Valid()
    requires server.registry.configured == [Client(clientId, [callback])]
    requires code in server.codes.codes
    requires var item := server.codes.codes[code];
             item.client_id == clientId && item.redirect_uri == callback
             && item.code_challenge == Challenge(sha256, verifier)
    requires Challenge(sha256, wrong) != Challenge(sha256, verifier)
    modifies server.registry, server.codes
    ensures server.Valid()
    ensures server.codes.codes == old(server.codes.codes) - {code}
    ensures first == TokenRoute.BadRequest("invalid_verifier")
    ensures retry == TokenRoute.BadRequest("invalid_code")
  {
    var attempt := TokenRequest(clientId, callback, code, wrong);
    TokenRequestFields(clientId, callback, code, wrong);
    TokenRequestClient(clientId, callback, code, wrong);
    FirstEntryDecides([], Client(clientId, [callback]), [], callback);
    first := server.Token(attempt, sha256, issuer);
    var params := TokenRequest(clientId, callback, code, verifier);
    TokenRequestFields(clientId, callback, code, verifier);
    retry := server.Token(params, sha256, issuer);
  }

  /** The client's last step: /userinfo with the issued token in the Bearer header form. */
  method FetchProfile(body: TokenResponse, issuer: Issuer, verify: string -> Option<Claims>,
                      sub: string, email: string)
    returns (info: UserInfo.Response)
    requires issuer.ttl > 0 && SoundKeys(issuer.sign, verify, issuer.now)
    requires body == IssueAccessToken(issuer, sub, email)
    ensures info == UserInfo.Profile(sub, email)
  {
    UserInfo.IssuedTokenYieldsProfile(issuer, verify, sub, email);
    info := UserInfo.Get(Some("Bearer " + body.access_token), verify);
  }

  /**
    The whole flow on a fresh server: a user registers and logs in, the
    client starts /authorize with a fresh PKCE pair, exchanges the code with
    the right verifier and calls /userinfo with the token; presenting the
    same code a second time is refused.
  */
  method SignInFlow(clientId: string, callback: string, hashPassword: string -> string, sha256: Sha256,
                    email: string, password: string, userId: string, sid: string,
                    random: seq<byte>, state: string, freshCode: string, now: int,
                    issuer: Issuer, verify: string -> Option<Claims>)
    returns (token: TokenRoute.Response, info: UserInfo.Response, replay: TokenRoute.Response)
    requires |random| == 64 && sid != "" && state != ""
    requires issuer.ttl > 0 && SoundKeys(issuer.sign, verify, issuer.now)
    ensures token == TokenRoute.Issued(IssueAccessToken(issuer, userId, email))
    ensures token.body.token_type == "Bearer"
    ensures info == UserInfo.Profile(userId, email)
    ensures replay == TokenRoute.BadRequest("invalid_code")
  {
    var server := Enrol(clientId, callback, hashPassword, email, password, userId, sid, now);
    var verifier, challenge := Pkce.CreatePkcePair(sha256, random);
    var redirect := StartAuthorization(server, clientId, callback, challenge, state, sid, freshCode, now);
    assert server.codes.codes[freshCode].userEmail == email;
    token, replay := ExchangeCode(server, clientId, callback, freshCode, verifier, sha256, issuer);
    assert token.body == IssueAccessToken(issuer, userId, email);
    info := FetchProfile(token.body, issuer, verify, userId, email);
  }

  /**
    The same flow with a verifier that does not hash to the challenge sent
    to /authorize: the exchange fails with `invalid_verifier` and the code
    cannot be retried even with the right verifier.
  */
  method WrongVerifierFlow(clientId: string, callback: string, hashPassword: string -> string, sha256: Sha256,
                           email: string, password: string, userId: string, sid: string,
                           random: seq<byte>, state: string, wrong: string, freshCode: string, now: int,
                           issuer: Issuer)
    returns (first: TokenRoute.Response, retry: TokenRoute.Response)
    requires |random| == 64 && sid != "" && state != ""
    requires Challenge(sha256, wrong) != Challenge(sha256, Pkce.RandomString(random))
    ensures first == TokenRoute.BadRequest("invalid_verifier")
    ensures retry == TokenRoute.BadRequest("invalid_code")
  {
    var server := Enrol(clientId, callback, hashPassword, email, password, userId, sid, now);
    var verifier, challenge := Pkce.CreatePkcePair(sha256, random);
    var redirect := StartAuthorization(server, clientId, callback, challenge, state, sid, freshCode, now);
    first, retry := ExchangeWithWrongVerifier(server, clientId, callback, freshCode, verifier, wrong,
                                              sha256, issuer);
  }
}
