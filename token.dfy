/**
  The token endpoint, `POST /token` (server/app/token/route.ts): the access
  token request of section 4.1.3 of RFC 6749 with the verifier check of
  section 4.6 of RFC 7636. The checks run in order and the first failure
  wins; the code is deleted from the store before any check after the grant
  type runs, so a presented code is spent whatever the outcome.
*/
module Token {
  import opened Wrappers
  import opened SearchParams
  import opened Base64Url
  import opened AuthCodes
  import opened Clients
  import opened Users
  import opened Tokens

  datatype Response =
    /** 200 with the token envelope. */
    | Issued(body: TokenResponse)
    /** 400 with a JSON `{error}` body. */
    | BadRequest(error: string)
    /**
      `getUserByEmail(...)!` found no user: reading `user.id` throws and the
      framework answers 500.
    */
    | ServerError

  /** The string form parameters (missing ones read as ""). */
  function Code(params: Params): string { GetOrEmpty(params, "code") }
  function RedirectUri(params: Params): string { GetOrEmpty(params, "redirect_uri") }
  function ClientId(params: Params): string { GetOrEmpty(params, "client_id") }
  function CodeVerifier(params: Params): string { GetOrEmpty(params, "code_verifier") }

  predicate GrantTypeOk(params: Params)
  {
    SearchParams.Get(params, "grant_type") == Some("authorization_code")
  }

  /** The redirect check: registered for the client AND equal to the one bound to the code. */
  predicate RedirectOk(item: AuthCode, clients: seq<Client>, client_id: string, redirect_uri: string)
  {
    ValidRedirect(clients, client_id, redirect_uri) && item.redirect_uri == redirect_uri
  }

  /**
    The checks after the code has been consumed (lines 26 to 41), in their
    order, on the record the code was bound to. The verifier passes exactly
    when its S256 transform is the stored challenge, and success issues a
    token for the id and email of the user bound into the code.
  */
  function Redeem(item: AuthCode, client_id: string, redirect_uri: string, code_verifier: string,
                  clients: seq<Client>, sha256: Sha256, users: UserStore, issuer: Issuer): (r: Response)
    reads users
    ensures r == BadRequest("client_mismatch") <==> item.client_id != client_id
    ensures r == BadRequest("redirect_mismatch") <==>
              item.client_id == client_id && !RedirectOk(item, clients, client_id, redirect_uri)
    ensures r == BadRequest("invalid_verifier") <==>
              item.client_id == client_id && RedirectOk(item, clients, client_id, redirect_uri)
              && Challenge(sha256, code_verifier) != item.code_challenge
    ensures r.Issued? || r.ServerError? <==>
              item.client_id == client_id && RedirectOk(item, clients, client_id, redirect_uri)
              && Challenge(sha256, code_verifier) == item.code_challenge
    ensures r.ServerError? ==> item.userEmail !in users.users
    ensures r.Issued? ==>
              item.userEmail in users.users
              && var user := users.users[item.userEmail];
                 r.body == IssueAccessToken(issuer, user.id, user.email)
  {
    if item.client_id != client_id then BadRequest("client_mismatch")
    else if !ValidRedirect(clients, client_id, redirect_uri) || item.redirect_uri != redirect_uri then
      BadRequest("redirect_mismatch")
    else
      var expected := item.code_challenge;
      var actual := Challenge(sha256, code_verifier);
      if expected != actual then BadRequest("invalid_verifier")
      else
        match users.GetUserByEmail(item.userEmail)
        case None => ServerError
        case Some(user) => Issued(IssueAccessToken(issuer, user.id, user.email))
  }

  /** A record whose every check passes, for a registered user, issues that user's token. */
  lemma RedeemIssues(item: AuthCode, client_id: string, redirect_uri: string, code_verifier: string,
                     clients: seq<Client>, sha256: Sha256, users: UserStore, issuer: Issuer, user: User)
    requires item.client_id == client_id && item.redirect_uri == redirect_uri
    requires ValidRedirect(clients, client_id, redirect_uri)
    requires Challenge(sha256, code_verifier) == item.code_challenge
    requires item.userEmail in users.users && users.users[item.userEmail] == user
    ensures Redeem(item, client_id, redirect_uri, code_verifier, clients, sha256, users, issuer)
            == Issued(IssueAccessToken(issuer, user.id, user.email))
  {
  }

  /**
    The `POST` handler over the decoded form body. A wrong grant type is
    refused before the store is touched; after it, the presented code is gone
    from the store whatever follows, an unknown code is `invalid_code`, and a
    known one is judged by Redeem on the record it was bound to.
  */
  method Post(params: Params, registry: Registry, store: CodeStore, users: UserStore,
              sha256: Sha256, issuer: Issuer)
    returns (res: Response)
    requires registry.Valid() && store.Valid()
    modifies registry, store
    ensures registry.Valid() && store.Valid()
    ensures !GrantTypeOk(params) ==>
              res == BadRequest("unsupported_grant_type")
              && store.codes == old(store.codes) && registry.clients == old(registry.clients)
    ensures GrantTypeOk(params) ==> store.codes == old(store.codes) - {Code(params)}
    ensures GrantTypeOk(params) && Code(params) !in old(store.codes) ==>
              res == BadRequest("invalid_code") && registry.clients == old(registry.clients)
    ensures GrantTypeOk(params) && Code(params) in old(store.codes) ==>
              res == Redeem(old(store.codes)[Code(params)], ClientId(params), RedirectUri(params),
                            CodeVerifier(params), registry.configured, sha256, users, issuer)
    ensures GrantTypeOk(params) && Code(params) in old(store.codes) ==>
              if old(store.codes)[Code(params)].client_id == ClientId(params)
              then registry.clients == registry.configured
              else registry.clients == old(registry.clients)
  {
    var grant_type := SearchParams.Get(params, "grant_type");
    var code := Code(params);
    var redirect_uri := RedirectUri(params);
    var client_id := ClientId(params);
    var code_verifier := CodeVerifier(params);

    if grant_type != Some("authorization_code") {
      return BadRequest("unsupported_grant_type");
    }

    var item := store.ConsumeCode(code);
    if item.None? {
      return BadRequest("invalid_code");
    }
    if item.value.client_id != client_id {
      return BadRequest("client_mismatch");
    }
    var valid := registry.ValidateRedirect(client_id, redirect_uri);
    if !valid || item.value.redirect_uri != redirect_uri {
      return BadRequest("redirect_mismatch");
    }

    var expected := item.value.code_challenge;
    var actual := Challenge(sha256, code_verifier);
    if expected != actual {
      return BadRequest("invalid_verifier");
    }

    var user := users.GetUserByEmail(item.value.userEmail);
    if user.None? {
      return ServerError;
    }
    res := Issued(IssueAccessToken(issuer, user.value.id, user.value.email));
  }

  /**
    A replay: whatever the first exchange of a code returned (a token or any
    later-check error), a second request presenting the same code, with any
    other parameters, is `invalid_code`.
  */
  method PostReplay(params: Params, again: Params, registry: Registry, store: CodeStore, users: UserStore,
                    sha256: Sha256, issuer: Issuer)
    returns (first: Response, second: Response)
    requires registry.Valid() && store.Valid()
    requires GrantTypeOk(params) && GrantTypeOk(again) && Code(again) == Code(params)
    modifies registry, store
    ensures registry.Valid() && store.Valid()
    ensures Code(params) !in old(store.codes) ==> first == BadRequest("invalid_code")
    ensures Code(params) in old(store.codes) ==>
              first == Redeem(old(store.codes)[Code(params)], ClientId(params), RedirectUri(params),
                              CodeVerifier(params), registry.configured, sha256, users, issuer)
    ensures second == BadRequest("invalid_code")
    ensures store.codes == old(store.codes) - {Code(params)}
  {
    first := Post(params, registry, store, users, sha256, issuer);
    second := Post(again, registry, store, users, sha256, issuer);
  }
}
