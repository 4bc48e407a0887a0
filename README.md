# OAuth 2.0 authorization-code provider with PKCE, in Dafny

This project models the protocol core of a small OAuth 2.0 provider and its
relying party's PKCE helper:

- the authorization-code grant of section 4.1 of RFC 6749;
- Proof Key for Code Exchange (RFC 7636) with the S256 method;
- bearer tokens in the `Authorization` header form of section 2.1 of RFC 6750.

The provider keeps four in-memory stores:

- the authorization codes;
- the registered clients, loaded lazily from configuration;
- the users, keyed by email, with a hashed password;
- the sessions, keyed by the `sid` cookie.

Three routes work on those stores:

- `GET /authorize` runs three hard gates in order: response type, then client and redirect URI, then PKCE. It then either redirects to login or mints a code bound to the session's user and redirects back to the client.
- `POST /token` checks the grant type, then burns the presented code. After that it compares client, redirect URI and verifier in order; the first failure wins. On success it issues a token.
- `GET /userinfo` matches `Bearer <token>` case-insensitively, verifies the token and returns its `sub` and `email`.

## Structure

Each module follows one source file. Each module-level `Map` or list the
source mutates becomes a field of a class, with `modifies` clauses on the
operations that change it.

- `wrappers.dfy`: `Option` and `Result`.
- `search_params.dfy`: `URLSearchParams.get` over decoded name/value pairs.
- `base64url.dfy`: base64url without padding (section 5 of RFC 4648) and the S256 transform.
- `pkce.dfy`: the client helper: the binary-string loop, `btoa` and the URL-safe rewrite, the hex verifier, and `createPkcePair`.
- `authcodes.dfy`: `CodeStore`.
- `clients.dfy`: `Registry`.
- `users.dfy`: `UserStore`.
- `sessions.dfy`: `SessionStore`.
- `tokens.dfy`: the token service, kept abstract.
- `authorize.dfy`, `token.dfy`, `userinfo.dfy`: the three routes.
- `provider.dfy`: the stores built once and shared, plus the register and login composition. Its invariant says every session and every stored code names a registered user, so the non-null assertion on the user lookup in `/token` always holds. It also holds the end-to-end flows.

External effects become parameters:

- randomness: the generated code, the session id, the user id and the PKCE random bytes;
- the clock: `createdAt` and the token issue time;
- SHA-256: a function to 32-byte digests;
- the password hash: a function fixed when the user store is built;
- JWT signing and verification: functions, tied together only by the `Tokens.SoundKeys` assumption;
- the configured client list and the token lifetime.

The server's `sha256Base64Url` (Node `crypto` plus `Buffer` `base64url`) and
the client's `btoa` pipeline are the same function in the model:
`Pkce.ClientEncodingIsBase64Url` proves that the client's pipeline computes
`Base64Url.Encode`.

The model follows the code in details an informal description of the flow
would state differently:

- `state` is echoed only when it is non-empty, not whenever the parameter is present.
- A duplicate registration fails with the message `"exists"`.
- A second `consumeCode` misses because the first call deleted the key, not because of any atomic primitive.

The record field `method` of an authorization code is called
`challengeMethod` here, because `method` is a Dafny keyword.

## Model

| member | source | states |
|---|---|---|
| SearchParams.Get | server/app/authorize/route.ts:8-13 | `get(name)` is none exactly when no pair has that name. Otherwise it is the value of the first pair with that name. |
| SearchParams.GetOrEmptyValue | server/app/token/route.ts:15-18 | `get(name) \|\| ""` reads "" when no pair has that name, and otherwise the value of the first pair with that name. |
| Base64Url.Sextets | client/lib/pkce.ts:9 | The four 6-bit groups of a 3-byte group, read most-significant first, have the same 24-bit value as the three bytes. |
| Base64Url.UrlChar | client/lib/pkce.ts:9 | Every 6-bit value is encoded by a character of the URL-safe alphabet `[A-Za-z0-9_-]`. |
| Base64Url.UrlChars | client/lib/pkce.ts:9 | One alphabet character per 6-bit group, in order. |
| Base64Url.Encode | client/lib/pkce.ts:9 | Unpadded base64url of n bytes has ⌈4n/3⌉ characters, all from the URL-safe alphabet; no `=` appears. |
| Base64Url.Challenge | server/app/token/route.ts:33-34 | The S256 challenge of any verifier is 43 URL-safe characters with no `=`. |
| Pkce.Latin1 | client/lib/pkce.ts:5-8 | The binary string of a byte sequence has one character per byte and is acceptable input for `btoa`. |
| Pkce.BinaryString | client/lib/pkce.ts:5-8 | The `forEach` loop builds a string with one character per digest byte, and character i has code byte i. |
| Pkce.Btoa | client/lib/pkce.ts:9 | `btoa` of a binary string has four characters per started group of three bytes. |
| Pkce.ReplaceAll | client/lib/pkce.ts:9 | `replaceAll` of one character keeps the length, turns every occurrence into the replacement, leaves every other character alone, and leaves no occurrence when the two characters differ. |
| Pkce.UrlSafe | client/lib/pkce.ts:9 | The two rewrites keep the length, leave no `+` or `/`, and keep every other character in place. |
| Pkce.StripTrailingPad | client/lib/pkce.ts:9 | `replace(/=+$/, "")` returns a prefix of its input. Everything it drops is `=`, and the result does not end in `=`. |
| Pkce.EncodeBinaryString | client/lib/pkce.ts:9 | The return expression yields a string with no `+` or `/` that does not end in `=`. |
| Pkce.UrlSafeBtoa | client/lib/pkce.ts:9 | `btoa` followed by the `+`→`-` and `/`→`_` rewrites gives the unpadded base64url encoding followed by btoa's padding for that length. |
| Pkce.StripPadding | client/lib/pkce.ts:9 | Stripping removes exactly that padding, and nothing else, from a string that does not end in `=`. |
| Pkce.ClientEncodingIsBase64Url | client/lib/pkce.ts:5-9 | For every byte sequence, the client's encoding pipeline equals base64url without padding (section 5 of RFC 4648). |
| Pkce.Sha256Base64Url | client/lib/pkce.ts:1-10 | The client's challenge is the server's S256 transform of the same string: 43 characters, no `+`, `/` or `=`. |
| Pkce.HexDigit | client/lib/pkce.ts:15 | `toString(16)` of a value below 16 is one lower-case hex digit. |
| Pkce.ToString16 | client/lib/pkce.ts:15 | `x.toString(16)` of a byte is one lower-case hex digit below 16 and two otherwise, has no leading zero unless x is 0, and reads back as x. |
| Pkce.HexByte | client/lib/pkce.ts:15 | `("0" + x.toString(16)).slice(-2)` is always the two digits of x's high and low nibbles, zero-padded. |
| Pkce.RandomString | client/lib/pkce.ts:12-16 | `randomString` of n bytes has exactly 2n characters, all in `[0-9a-f]`. |
| Pkce.HexRoundTrip | client/lib/pkce.ts:15 | Decoding the hex digits pair by pair gives back the random bytes. |
| Pkce.RandomStringInjective | client/lib/pkce.ts:15 | Distinct random byte arrays give distinct verifiers. |
| Pkce.CreatePkcePair | client/lib/pkce.ts:18-22 | The verifier is the hex rendering of the 64 random bytes. It has 43 to 128 unreserved characters (section 4.1 of RFC 7636), and the challenge is its S256 transform. |
| AuthCodes.CodeStore.constructor | server/lib/authcodes.ts:13 | The code store starts empty. |
| AuthCodes.CodeStore.CreateCode | server/lib/authcodes.ts:15-19 | The new record carries the input's client, redirect URI, challenge, method and user, plus the generated code and the time. The store maps that code to exactly this record, and every other key is unchanged. A colliding key is overwritten. |
| AuthCodes.CodeStore.ConsumeCode | server/lib/authcodes.ts:22-27 | A present code returns its record and is deleted. An absent code returns none and the store is unchanged. Other codes are untouched either way. |
| AuthCodes.ConsumeTwice | server/lib/authcodes.ts:22-27 | Two consumes of the same code in a row: the second returns none. |
| Clients.Find | server/lib/clients.ts:13-15 | `findClient` is none exactly when no client has the id. Otherwise it is the first client in list order with that id. |
| Clients.ValidRedirect | server/lib/clients.ts:17-21 | True exactly when the id has a first matching client and the URI is string-equal to one of that client's registered URIs. So an unknown client gives false. |
| Clients.FirstEntryDecides | server/lib/clients.ts:14-20 | With duplicated ids, only the first entry for the id counts. What follows it, even entries with the same id, is never consulted. |
| Clients.Registry.constructor | server/lib/clients.ts:3 | The client list starts empty. |
| Clients.Registry.LoadClients | server/lib/clients.ts:5-11 | An empty list is loaded from configuration. A non-empty list is kept and returned unchanged, so repeated loads are idempotent. |
| Clients.Registry.FindClient | server/lib/clients.ts:13-15 | After the load, returns the first configured client with that id, or none. |
| Clients.Registry.ValidateRedirect | server/lib/clients.ts:17-21 | After the load, the result is the exact-match check on the configured list, and the registry holds nothing but that list. |
| Users.UserStore.constructor | server/lib/users.ts:5 | The user map starts empty. |
| Users.UserStore.CreateUser | server/lib/users.ts:7-14 | A known email fails with `"exists"` and the map is unchanged. A new email stores and returns `{id, email, H(password)}` under that email, leaving other emails alone. Afterwards `verifyUser` with the same password returns that user. |
| Users.UserStore.VerifyUser | server/lib/users.ts:16-21 | Null for an unknown email. Otherwise the stored user exactly when `H(password)` equals the stored hash. |
| Users.UserStore.GetUserByEmail | server/lib/users.ts:23-25 | The stored user for the email, or null. |
| Sessions.SessionStore.constructor | server/lib/sessions.ts:6 | The session map starts empty. |
| Sessions.SessionStore.GetCurrentSession | server/lib/sessions.ts:8-13 | Null without a cookie and for an empty one. Otherwise the stored session for that sid, or null if there is none. |
| Sessions.SessionStore.RequireSession | server/lib/sessions.ts:15-19 | Fails with `"no-session"` exactly when `getCurrentSession` is null; otherwise returns the same session. |
| Sessions.SessionStore.SetSession | server/lib/sessions.ts:21-27 | Stores `{email, createdAt}` under the new sid and returns the sid as the cookie. Other sids are unchanged. A following lookup with that cookie yields that session. |
| Tokens.IssueAccessToken | server/lib/tokens.ts:6-16 | The envelope has type `"Bearer"` and `expires_in` equal to the lifetime. The token signs `{sub, email, iat = now, exp = now + ttl}`. |
| Tokens.ExpiredRejected | server/lib/tokens.ts:18-23 | Given `SoundKeys`, an expired token the signer produced is rejected, provided no other claims sign to the same token. |
| Authorize.Get | server/app/authorize/route.ts:6-44 | The gates run in order: `unsupported_response_type`, then `invalid_redirect`, then `pkce_required`; it is a 400 exactly when one fails. With no 400 and no session it redirects to login with `returnTo` = path + query. Only success changes the code store, inserting exactly one record bound to the client, redirect URI, challenge, S256 and the session's email. The redirect carries that code, and `state` only when non-empty, unchanged. The registry is loaded exactly when the first gate passes. |
| Token.Redeem | server/app/token/route.ts:26-41 | After consumption: `client_mismatch` iff the client differs. `redirect_mismatch` iff the client matches but the URI is not both registered and equal to the bound one. `invalid_verifier` iff those pass but the verifier's S256 transform differs from the bound challenge. Otherwise the result is the token for the bound user's id and email, or an error when that user is missing. |
| Token.RedeemIssues | server/app/token/route.ts:26-41 | A record that passes every check, for a registered user, yields exactly that user's token. |
| Token.Post | server/app/token/route.ts:9-42 | A wrong grant type is `unsupported_grant_type` and touches neither store. Otherwise the presented code is gone afterwards whatever the outcome. An unknown code is `invalid_code`. A known one is judged by `Redeem` on its record, and the registry is loaded exactly when the client matches. |
| Token.PostReplay | server/app/token/route.ts:20-25 | After any first exchange of a code (a token or any later-check error), a second request presenting the same code is `invalid_code`. |
| UserInfo.MatchBearer | server/app/userinfo/route.ts:7-8 | `/^Bearer (.+)$/i` matches exactly a header that starts with "bearer" in any ASCII case, then one space, then at least one character with no line terminator. Group 1 is the text after the first 7 characters. |
| UserInfo.Get | server/app/userinfo/route.ts:5-16 | An absent header, or one not of that form, is `missing_token`. A token that fails verification is `invalid_token`. A matched token that verifies yields exactly the verified claims' `sub` and `email`, and every profile comes from such a token. |
| UserInfo.ProfileOnlyForIssuedTokens | server/app/userinfo/route.ts:8-12 | Given `SoundKeys`, a profile is returned only for a token the signer produced from unexpired claims, and it carries those claims' `sub` and `email`. |
| UserInfo.BearerHeaderMatches | server/app/userinfo/route.ts:8 | The header a client builds, `"Bearer " + token`, matches with exactly that token. |
| UserInfo.IssuedTokenYieldsProfile | server/app/userinfo/route.ts:8-12 | An issued, unexpired token presented as a Bearer header yields exactly the subject and email it was issued for. |
| Provider.AuthServer.constructor | server/lib/authcodes.ts:13 | The four module-level stores are created once, empty, and shared: the code map here, the client list of server/lib/clients.ts line 3, the user map of server/lib/users.ts line 5 and the session map of server/lib/sessions.ts line 6. The registry holds the configured client list. |
| Provider.AuthServer.Register | server/app/register/route.ts:4-13 | Registration is `createUser`. It keeps the cross-store invariant, and errors and successes are as in `CreateUser`. |
| Provider.AuthServer.Login | server/app/login/route.ts:5-11 | Succeeds exactly when `verifyUser` does, then opens a session for that email under the fresh sid. Otherwise it is `"invalid"` and no session changes. |
| Provider.AuthServer.Authorize | server/app/authorize/route.ts:6-44 | `GET /authorize` on the shared stores. It keeps the invariant, and it redirects with a code exactly when all gates pass and a session exists. |
| Provider.AuthServer.Token | server/app/token/route.ts:39-41 | `POST /token` on the shared stores never reaches the missing-user case, because every stored code names a registered user. |
| Provider.Enrol | server/app/login/route.ts:5-11 | On a fresh server, register and then log in: the user is stored with the hashed password, and the cookie yields a session for that email. |
| Provider.StartAuthorization | server/app/authorize/route.ts:32-43 | On a server configured with the single client `clientId` and its one redirect URI, with a session: the start page's request (the six parameters, a non-empty `state`) redirects back with the new code and that same `state`, and binds the code to the challenge and the session's email. |
| Provider.ExchangeCode | server/app/token/route.ts:24-41 | On a server configured with the single client `clientId` and its one redirect URI, a correctly presented code issues the bound user's token and is burned, so presenting it again is `invalid_code`. |
| Provider.ExchangeWithWrongVerifier | server/app/token/route.ts:24-37 | On a server configured with the single client `clientId` and its one redirect URI, a verifier whose challenge is not the bound one is `invalid_verifier`. The code is burned anyway, so a retry with the right verifier is `invalid_code`. |
| Provider.FetchProfile | server/app/userinfo/route.ts:8-12 | `/userinfo` with the issued token returns the subject and email it was issued for. |
| Provider.SignInFlow | client/app/callback/page.tsx:41-65 | The whole flow on a fresh server configured with the one client: register, log in, a fresh PKCE pair, `/authorize`, `/token` with the right verifier, then `/userinfo`. It yields a `"Bearer"` token for the user's id and email, and a profile with that id and email; replaying the code is `invalid_code`. |
| Provider.WrongVerifierFlow | server/app/token/route.ts:24-37 | The same flow with a verifier that does not hash to the challenge: `invalid_verifier`, and the code cannot be retried with the right verifier. |

## Left out

- Token signing and verification (server/lib/tokens.ts) are abstract functions. `Tokens.SoundKeys` assumes the verifier returns the claims of every unexpired token the signer produced, and that it accepts only tokens the signer produced from claims that have not expired. HS256 and the `jose` library are not modelled, and neither is the difference between the signer's and the verifier's clocks.
- `TOKEN_EXP_SECONDS` is an integer parameter, and its default of 600 is folded into it. `Number()` of a non-numeric value (NaN) is not modelled.
- server/lib/utils.ts is not part of this model. `randomId` values are parameters. The server's `sha256Base64Url` is `Base64Url.Challenge`, the same function the client computes.
- The UTF-8 encoding of the verifier and of the password is folded into the SHA-256 and password-hash parameters.
- server/lib/cors.ts, the `OPTIONS` handlers and the `origin` header are response-header mechanics and are left out.
- The `page.tsx` files are browser UI and are not modelled. The scenarios in `Provider` build the requests the start page and the callback page send, on a server configured with that one client. They prove that the redirect echoes the `state` sent. The callback's own comparison of `state` with the stored value, `sessionStorage`, `crypto.randomUUID` (a parameter) and the percent-encoding of the query string (`Provider.QueryString` joins the pairs as they are) are not modelled.
- The register and login route handlers are modelled only as their composition, `Provider.AuthServer.Register` and `Provider.AuthServer.Login`. JSON body parsing and HTTP status codes are not modelled.
- URL parsing and serialisation are not modelled. The routes receive decoded name/value pairs, and percent-decoding is not modelled. A redirect is a value (target URI, code, optional state). `new URL(redirect_uri)` throwing and `searchParams.set` replacing an existing `code` or `state` in the client's URI are not modelled.
- `JSON.parse` of `CLIENTS_JSON` is not modelled: the configured client list is a parameter, assumed well-formed.
- The cookie store is reduced to an optional `sid` value in and the returned `sid` out. The cookie attributes (`httpOnly`, `sameSite`, `path`) are not modelled.
- Concurrency: the model is sequential, so the atomicity of `consumeCode` under simultaneous requests is not addressed.
- `btoa`'s exception on non-Latin-1 input cannot happen here (its argument is built from bytes), so it is excluded by a precondition rather than modelled.
- Provider.AuthServer.Authorize: states the registry effect only as "loaded or unchanged", weaker than `Authorize.Get`'s exact rule.
- Provider.AuthServer.Token: states the registry effect only as "loaded or unchanged", weaker than `Token.Post`'s exact rule.
- Sessions never expire and codes carry `createdAt` but are never checked for age, as in the source. No expiry is modelled.
