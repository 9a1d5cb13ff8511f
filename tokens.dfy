/** Token lifecycle: the expiry test, and the record updates made by a
    refresh and by an authorization-code exchange. */
module Tokens {
  import opened Wrappers
  import opened Text
  import opened ConfigStore

  /** A token is treated as expired this many milliseconds before its expiry instant. */
  const ExpiryBufferMs: int := 300000

  /** Every failure the credential code reports. */
  datatype AuthError =
    | NotAuthenticated                      // no record loads
    | NoAccessToken                         // the record has no access token
    | TokenExpired                          // expired and no refresh token to recover with
    | RefreshFailed(status: int)            // non-2xx from the token endpoint on refresh
    | NoCredentials                         // an authorization flow found no client credentials
    | InvalidState                          // callback with a missing or foreign state
    | OAuthError(message: string)           // callback carrying the provider's `error`
    | AuthTimeout                           // no settling callback before the timer
    | ExchangeFailed(status: int, body: string)  // non-2xx from the token endpoint on exchange
    | MalformedTokenResponse                // a 2xx whose body has no fields to read
    | NoUrlProvided                         // nothing pasted in the manual flow
    | InvalidRedirectUrl(url: string)       // pasted URL unparsable or failing the state/code gate

  /** What the token endpoint answered. `readable` says the body parses as
      JSON other than `null`, so that its fields can be read; otherwise
      `response.json()` or the first field access throws. A field the body
      lacks is the empty string, which the code treats exactly as it treats
      `undefined`. */
  datatype TokenResponse = TokenResponse(
    ok: bool, status: int, body: string, readable: bool,
    accessToken: string, refreshToken: string, expiresIn: int)

  /** A 2xx answer whose fields can be read: the only answer that gets saved. */
  predicate Accepted(resp: TokenResponse) {
    resp.ok && resp.readable
  }

  /** The form POSTed to the token endpoint, authenticated with HTTP Basic
      credentials built from the client id and secret. */
  datatype TokenRequest =
    | RefreshGrant(clientId: string, clientSecret: string, refreshToken: string)
    | CodeGrant(clientId: string, clientSecret: string, code: string, redirectUri: string)

  /** The expiry test of `getValidToken`: an expiry is set and non-zero and
      the clock is strictly past five minutes before it. */
  predicate IsExpired(expiry: Option<int>, now: int) {
    expiry.Some? && expiry.value != 0 && now > expiry.value - ExpiryBufferMs
  }

  /** `now + expires_in * 1000`. */
  function ExpiryAt(now: int, expiresIn: int): int {
    now + expiresIn * 1000
  }

  /** The record after a successful refresh: the new access token always,
      the new refresh token only when the response carries one, a new
      expiry; credentials and redirect URI untouched. A token that lives more
      than five minutes is not expired at the instant it was obtained. */
  function Refreshed(c: Config, now: int, resp: TokenResponse): (r: Config)
    ensures r.clientId == c.clientId && r.clientSecret == c.clientSecret && r.redirectUri == c.redirectUri
    ensures r.accessToken == Some(resp.accessToken)
    ensures r.refreshToken == if resp.refreshToken != "" then Some(resp.refreshToken) else c.refreshToken
    ensures r.tokenExpiry == Some(ExpiryAt(now, resp.expiresIn))
    ensures resp.expiresIn > ExpiryBufferMs / 1000 ==> !IsExpired(r.tokenExpiry, now)
  {
    var c1 := c.(accessToken := Some(resp.accessToken));
    var c2 := if resp.refreshToken != "" then c1.(refreshToken := Some(resp.refreshToken)) else c1;
    c2.(tokenExpiry := Some(ExpiryAt(now, resp.expiresIn)))
  }

  /** The record after a successful code exchange: both tokens taken from
      the response as they are (an absent refresh token included) and a new
      expiry; credentials and redirect URI untouched. */
  function Exchanged(c: Config, now: int, resp: TokenResponse): (r: Config)
    ensures r.clientId == c.clientId && r.clientSecret == c.clientSecret && r.redirectUri == c.redirectUri
    ensures r.accessToken == Some(resp.accessToken) && r.refreshToken == Some(resp.refreshToken)
    ensures r.tokenExpiry == Some(ExpiryAt(now, resp.expiresIn))
    ensures resp.expiresIn > ExpiryBufferMs / 1000 ==> !IsExpired(r.tokenExpiry, now)
  {
    c.(accessToken := Some(resp.accessToken), refreshToken := Some(resp.refreshToken),
       tokenExpiry := Some(ExpiryAt(now, resp.expiresIn)))
  }

  /** Refresh, then load: the credentials and redirect URI are unchanged,
      the access token is the response's (the old one survives in the store
      if the response's is empty), the refresh token is replaced only by a
      non-empty one, and the expiry is the new one. */
  lemma LoadAfterRefresh(st: Stores, now: int, resp: TokenResponse)
    requires Load(st).Some?
    ensures var c := Load(st).value;
      Load(Saved(st, Refreshed(c, now, resp))) == Some(c.(
        accessToken := if resp.accessToken != "" then NonBlank(Trim(resp.accessToken)) else c.accessToken,
        refreshToken := if resp.refreshToken != "" then NonBlank(Trim(resp.refreshToken)) else c.refreshToken,
        tokenExpiry := Some(ExpiryAt(now, resp.expiresIn))))
  {
    var c := Load(st).value;
    TrimOfTrimmed(c.clientId);
    TrimOfTrimmed(c.clientSecret);
    if c.refreshToken.Some? { TrimOfTrimmed(c.refreshToken.value); }
    LoadAfterSave(st, Refreshed(c, now, resp));
  }

  /** Exchange, then load: as for a refresh, and a response without a
      refresh token leaves the previously stored one in place, because the
      save skips the empty value. */
  lemma LoadAfterExchange(st: Stores, now: int, resp: TokenResponse)
    requires Load(st).Some?
    ensures var c := Load(st).value;
      Load(Saved(st, Exchanged(c, now, resp))) == Some(c.(
        accessToken := if resp.accessToken != "" then NonBlank(Trim(resp.accessToken)) else c.accessToken,
        refreshToken := if resp.refreshToken != "" then NonBlank(Trim(resp.refreshToken)) else c.refreshToken,
        tokenExpiry := Some(ExpiryAt(now, resp.expiresIn))))
  {
    var c := Load(st).value;
    TrimOfTrimmed(c.clientId);
    TrimOfTrimmed(c.clientSecret);
    LoadAfterSave(st, Exchanged(c, now, resp));
  }
}
