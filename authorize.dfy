/**
  The authorization endpoint, `GET /authorize` (server/app/authorize/route.ts):
  the request and response step of sections 4.1.1 and 4.1.2 of RFC 6749 with
  the PKCE parameters of section 4.3 of RFC 7636. Three hard gates run in
  order; then a request without a session is sent to log in, and one with a
  session gets a fresh code bound to its parameters and identity.
*/
module Authorize {
  import opened Wrappers
  import opened SearchParams
  import opened AuthCodes
  import opened Clients
  import opened Sessions

  /** The request URL: its path, its raw query (`?...` or empty) and the decoded pairs. */
  datatype Request = Request(pathname: string, search: string, params: Params)

  datatype Response =
    /** 400 with a JSON `{error}` body. */
    | BadRequest(error: string)
    /** 302 to the login page with `returnTo` set to the original path and query. */
    | RedirectToLogin(returnTo: string)
    /** 302 to the client's redirect URI with `code`, and `state` only when one was sent. */
    | RedirectToClient(redirect_uri: string, code: string, state: Option<string>)

  /** The string form of the parameters (missing ones read as ""). */
  function ClientId(req: Request): string { GetOrEmpty(req.params, "client_id") }
  function RedirectUri(req: Request): string { GetOrEmpty(req.params, "redirect_uri") }
  function State(req: Request): string { GetOrEmpty(req.params, "state") }
  function CodeChallenge(req: Request): string { GetOrEmpty(req.params, "code_challenge") }
  function ChallengeMethod(req: Request): string { GetOrEmpty(req.params, "code_challenge_method") }

  /** Gate 1: `response_type` is "code" (a missing one is null and fails). */
  predicate ResponseTypeOk(req: Request)
  {
    SearchParams.Get(req.params, "response_type") == Some("code")
  }

  /** Gate 3: a non-empty challenge with method S256. */
  predicate PkceOk(req: Request)
  {
    CodeChallenge(req) != "" && ChallengeMethod(req) == S256
  }

  /**
    The `GET` handler. `freshCode` is the random code it would mint and `now`
    the clock. The first failing gate decides the error; only the last branch
    touches the code store, inserting exactly one record. The registry is
    loaded by the redirect check, which gate 1 may skip.
  */
  method Get(req: Request, cookie: Option<string>, registry: Registry, sessions: SessionStore,
             store: CodeStore, freshCode: string, now: int)
    returns (res: Response)
    requires registry.Valid() && store.Valid()
    modifies registry, store
    ensures registry.Valid() && store.Valid()
    ensures !ResponseTypeOk(req) ==> registry.clients == old(registry.clients)
    ensures ResponseTypeOk(req) ==> registry.clients == registry.configured
    ensures !ResponseTypeOk(req) ==> res == BadRequest("unsupported_response_type")
    ensures ResponseTypeOk(req) && !ValidRedirect(registry.configured, ClientId(req), RedirectUri(req)) ==>
              res == BadRequest("invalid_redirect")
    ensures ResponseTypeOk(req) && ValidRedirect(registry.configured, ClientId(req), RedirectUri(req))
            && !PkceOk(req) ==>
              res == BadRequest("pkce_required")
    ensures res.BadRequest? <==>
              !(ResponseTypeOk(req) && ValidRedirect(registry.configured, ClientId(req), RedirectUri(req))
                && PkceOk(req))
    ensures res.RedirectToLogin? <==> !res.BadRequest? && sessions.GetCurrentSession(cookie) == None
    ensures res.RedirectToLogin? ==> res.returnTo == req.pathname + req.search
    ensures !res.RedirectToClient? ==> store.codes == old(store.codes)
    ensures res.RedirectToClient? ==>
              var session := sessions.GetCurrentSession(cookie).value;
              && res.redirect_uri == RedirectUri(req)
              && res.code == freshCode
              && (res.state.Some? <==> State(req) != "")
              && (res.state.Some? ==> res.state.value == State(req))
              && store.codes == old(store.codes)[freshCode := AuthCode(
                   freshCode, ClientId(req), RedirectUri(req), CodeChallenge(req), S256,
                   session.userEmail, now)]
  {
    var client_id := ClientId(req);
    var redirect_uri := RedirectUri(req);
    var response_type := SearchParams.Get(req.params, "response_type");
    var state := State(req);
    var code_challenge := CodeChallenge(req);
    var code_challenge_method := ChallengeMethod(req);

    if response_type != Some("code") {
      return BadRequest("unsupported_response_type");
    }
    var valid := registry.ValidateRedirect(client_id, redirect_uri);
    if !valid {
      return BadRequest("invalid_redirect");
    }
    if code_challenge == "" || code_challenge_method != S256 {
      return BadRequest("pkce_required");
    }

    var session := sessions.GetCurrentSession(cookie);
    if session.None? {
      return RedirectToLogin(req.pathname + req.search);
    }

    var code := store.CreateCode(
      CodeInput(client_id, redirect_uri, code_challenge, S256, session.value.userEmail),
      freshCode, now);
    res := RedirectToClient(redirect_uri, code.code, if state != "" then Some(state) else None);
  }
}
