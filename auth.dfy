/** The credential lifecycle over the two persistent stores: save, token
    validation and refresh, credential setup, the two authorization flows
    and logout. */
module Auth {
  import opened Wrappers
  import opened Text
  import opened ConfigStore
  import opened Tokens
  import opened AuthFlow

  /** The stores after `logout`: with a record, both token secrets are gone
      and the metadata keeps only the redirect URI; without one, nothing
      changes. */
  function LoggedOut(st: Stores): (r: Stores)
    ensures Load(st).None? ==> r == st
    ensures Load(st).Some? ==> r.secrets == st.secrets - {AccessTokenKey, RefreshTokenKey}
    ensures Load(st).Some? ==> r.meta == Parsed(Metadata(None, Load(st).value.redirectUri))
  {
    match Load(st)
    case None => st
    case Some(c) => Stores(st.secrets - {AccessTokenKey, RefreshTokenKey}, Parsed(Metadata(None, c.redirectUri)))
  }

  /** Logout keeps the client credentials and the redirect URI and drops
      both tokens and the expiry; without a record there is still none. */
  lemma LoadAfterLogout(st: Stores)
    ensures Load(LoggedOut(st)) == match Load(st)
      case None => None
      case Some(c) => Some(c.(accessToken := None, refreshToken := None, tokenExpiry := None))
  {
    if Load(st).Some? {
      var r := LoggedOut(st);
      assert ClientIdKey in r.secrets && r.secrets[ClientIdKey] == st.secrets[ClientIdKey];
      assert ClientSecretKey in r.secrets && r.secrets[ClientSecretKey] == st.secrets[ClientSecretKey];
    }
  }

  /** Logging out twice leaves the stores as logging out once. */
  lemma LogoutIdempotent(st: Stores)
    ensures LoggedOut(LoggedOut(st)) == LoggedOut(st)
  {
    LoadAfterLogout(st);
    if Load(st).Some? {
      var once := LoggedOut(st);
      assert once.secrets - {AccessTokenKey, RefreshTokenKey} == once.secrets;
    }
  }

  /** The stores after `setupCredentials`: the loaded record (or an empty one)
      with the new id and secret and the default redirect URI, saved. */
  function SetUp(st: Stores, clientId: string, clientSecret: string): Stores {
    var base := match Load(st)
      case Some(c) => c
      case None => Config("", "", None, None, None, None);
    Saved(st, base.(clientId := clientId, clientSecret := clientSecret, redirectUri := Some(DefaultRedirectUri)))
  }

  /** After setup the new credentials load (trimmed), the redirect URI is the
      default, the tokens are whatever the store held, and the expiry is the
      previous record's, if there was one. */
  lemma LoadAfterSetUp(st: Stores, clientId: string, clientSecret: string)
    requires Trim(clientId) != "" && Trim(clientSecret) != ""
    ensures Load(SetUp(st, clientId, clientSecret)) == Some(Config(
      Trim(clientId), Trim(clientSecret),
      Stored(st.secrets, AccessTokenKey), Stored(st.secrets, RefreshTokenKey),
      if Load(st).Some? then Load(st).value.tokenExpiry else None,
      Some(DefaultRedirectUri)))
  {
    var base := match Load(st)
      case Some(c) => c
      case None => Config("", "", None, None, None, None);
    var c := base.(clientId := clientId, clientSecret := clientSecret, redirectUri := Some(DefaultRedirectUri));
    assert SetUp(st, clientId, clientSecret) == Saved(st, c);
    RereadKeepsStored(c.accessToken, st.secrets, AccessTokenKey);
    RereadKeepsStored(c.refreshToken, st.secrets, RefreshTokenKey);
    LoadAfterSave(st, c);
  }

  /** Writing back a token just loaded changes nothing a later load sees. */
  lemma RereadKeepsStored(v: Option<string>, secrets: map<string, string>, key: string)
    requires v.None? || v == Stored(secrets, key)
    ensures Reread(v, secrets, key) == Stored(secrets, key)
  {
    if v.Some? {
      TrimOfTrimmed(v.value);
    }
  }

  /** The secret store and the metadata file of one user. */
  class AuthStore {
    var secrets: map<string, string>
    var meta: MetaFile

    /** Both stores as one value. */
    function State(): Stores
      reads this
    {
      Stores(secrets, meta)
    }

    constructor (initial: Stores)
      ensures State() == initial
    {
      secrets := initial.secrets;
      meta := initial.meta;
    }

    /** `saveConfig`: rewrites the metadata, then sets each truthy secret in turn. */
    method SaveConfig(c: Config)
      modifies this
      ensures State() == Saved(old(State()), c)
      ensures old(secrets).Keys <= secrets.Keys
    {
      meta := Parsed(Metadata(c.tokenExpiry, c.redirectUri));
      if c.clientId != "" {
        secrets := secrets[ClientIdKey := c.clientId];
      }
      if c.clientSecret != "" {
        secrets := secrets[ClientSecretKey := c.clientSecret];
      }
      if Truthy(c.accessToken) {
        secrets := secrets[AccessTokenKey := c.accessToken.value];
      }
      if Truthy(c.refreshToken) {
        secrets := secrets[RefreshTokenKey := c.refreshToken.value];
      }
    }

    /** `refreshAccessToken`: one POST; a failure changes nothing; a success
        updates the record in place, saves it and returns the new token. */
    method RefreshAccessToken(c: Config, now: int, resp: TokenResponse) returns (r: Result<string, AuthError>, sent: TokenRequest)
      requires c.refreshToken.Some?
      modifies this
      ensures sent == RefreshGrant(c.clientId, c.clientSecret, c.refreshToken.value)
      ensures !resp.ok ==> r == Failure(RefreshFailed(resp.status)) && State() == old(State())
      ensures resp.ok && !resp.readable ==> r == Failure(MalformedTokenResponse) && State() == old(State())
      ensures Accepted(resp) ==> r == Success(resp.accessToken) && State() == Saved(old(State()), Refreshed(c, now, resp))
    {
      sent := RefreshGrant(c.clientId, c.clientSecret, c.refreshToken.value);
      if !resp.ok {
        return Failure(RefreshFailed(resp.status)), sent;
      }
      if !resp.readable {
        return Failure(MalformedTokenResponse), sent;
      }
      var config := c;
      config := config.(accessToken := Some(resp.accessToken));
      if resp.refreshToken != "" {
        config := config.(refreshToken := Some(resp.refreshToken));
      }
      config := config.(tokenExpiry := Some(ExpiryAt(now, resp.expiresIn)));
      SaveConfig(config);
      r := Success(config.accessToken.value);
    }

    /** `getValidToken`: fails when nothing is configured, then when there is
        no access token, then when the token is expired with no refresh
        token; a token that is not expired is returned as stored, with no
        request and no change; an expired one is refreshed. */
    method GetValidToken(now: int, resp: TokenResponse) returns (r: Result<string, AuthError>, sent: Option<TokenRequest>)
      modifies this
      ensures var loaded := Load(old(State()));
        loaded.None? ==> r == Failure(NotAuthenticated) && sent.None? && State() == old(State())
      ensures var loaded := Load(old(State()));
        loaded.Some? && loaded.value.accessToken.None? ==>
          r == Failure(NoAccessToken) && sent.None? && State() == old(State())
      ensures var loaded := Load(old(State()));
        loaded.Some? && loaded.value.accessToken.Some? && !IsExpired(loaded.value.tokenExpiry, now) ==>
          r == Success(loaded.value.accessToken.value) && sent.None? && State() == old(State())
      ensures var loaded := Load(old(State()));
        loaded.Some? && loaded.value.accessToken.Some? && IsExpired(loaded.value.tokenExpiry, now) && loaded.value.refreshToken.None? ==>
          r == Failure(TokenExpired) && sent.None? && State() == old(State())
      ensures var loaded := Load(old(State()));
        loaded.Some? && loaded.value.accessToken.Some? && IsExpired(loaded.value.tokenExpiry, now) && loaded.value.refreshToken.Some? ==>
          var c := loaded.value;
          && sent == Some(RefreshGrant(c.clientId, c.clientSecret, c.refreshToken.value))
          && (!resp.ok ==> r == Failure(RefreshFailed(resp.status)) && State() == old(State()))
          && (resp.ok && !resp.readable ==> r == Failure(MalformedTokenResponse) && State() == old(State()))
          && (Accepted(resp) ==> r == Success(resp.accessToken) && State() == Saved(old(State()), Refreshed(c, now, resp)))
    {
      var loaded := Load(State());
      if loaded.None? {
        return Failure(NotAuthenticated), None;
      }
      var config := loaded.value;
      if !Truthy(config.accessToken) {
        return Failure(NoAccessToken), None;
      }
      if IsExpired(config.tokenExpiry, now) {
        if Truthy(config.refreshToken) {
          var request;
          r, request := RefreshAccessToken(config, now, resp);
          return r, Some(request);
        }
        return Failure(TokenExpired), None;
      }
      return Success(config.accessToken.value), None;
    }

    /** `checkAuth`: true exactly when `getValidToken` would succeed. */
    method CheckAuth(now: int, resp: TokenResponse) returns (ok: bool)
      modifies this
      ensures var loaded := Load(old(State()));
        ok <==> (loaded.Some? && loaded.value.accessToken.Some? &&
          (!IsExpired(loaded.value.tokenExpiry, now) || (loaded.value.refreshToken.Some? && Accepted(resp))))
      ensures var loaded := Load(old(State()));
        if loaded.Some? && loaded.value.accessToken.Some? && IsExpired(loaded.value.tokenExpiry, now)
          && loaded.value.refreshToken.Some? && Accepted(resp)
        then State() == Saved(old(State()), Refreshed(loaded.value, now, resp))
        else State() == old(State())
    {
      var r, _ := GetValidToken(now, resp);
      ok := r.Success?;
    }

    /** `setupCredentials`. */
    method SetupCredentials(clientId: string, clientSecret: string)
      modifies this
      ensures State() == SetUp(old(State()), clientId, clientSecret)
    {
      var loaded := Load(State());
      var config := if loaded.Some? then loaded.value else Config("", "", None, None, None, None);
      config := config.(clientId := clientId);
      config := config.(clientSecret := clientSecret);
      config := config.(redirectUri := Some(DefaultRedirectUri));
      SaveConfig(config);
    }

    /** The exchange step both flows end with: one POST; a failure changes
        nothing; a success stores the response's tokens and a new expiry. */
    method ExchangeCode(c: Config, code: string, redirectUri: string, now: int, resp: TokenResponse)
      returns (r: Result<(), AuthError>, sent: TokenRequest)
      modifies this
      ensures sent == CodeGrant(c.clientId, c.clientSecret, code, redirectUri)
      ensures !resp.ok ==> r == Failure(ExchangeFailed(resp.status, resp.body)) && State() == old(State())
      ensures resp.ok && !resp.readable ==> r == Failure(MalformedTokenResponse) && State() == old(State())
      ensures Accepted(resp) ==> r == Success(()) && State() == Saved(old(State()), Exchanged(c, now, resp))
    {
      sent := CodeGrant(c.clientId, c.clientSecret, code, redirectUri);
      if !resp.ok {
        return Failure(ExchangeFailed(resp.status, resp.body)), sent;
      }
      if !resp.readable {
        return Failure(MalformedTokenResponse), sent;
      }
      var config := c;
      config := config.(accessToken := Some(resp.accessToken));
      config := config.(refreshToken := Some(resp.refreshToken));
      config := config.(tokenExpiry := Some(ExpiryAt(now, resp.expiresIn)));
      SaveConfig(config);
      r := Success(());
    }

    /** `authenticate`: needs client credentials; presents the authorization
        URL; answers the requests reaching the listener until one settles or
        the timer fires; exchanges a code only when a callback carried the
        generated state. */
    method Authenticate(reqs: seq<Request>, random: seq<byte>, now: int, resp: TokenResponse)
      returns (r: Result<(), AuthError>, url: string, replies: seq<int>, sent: Option<TokenRequest>)
      requires |random| == StateBytes
      modifies this
      ensures Load(old(State())).None? ==>
        r == Failure(NoCredentials) && replies == [] && sent.None? && State() == old(State())
      ensures var loaded := Load(old(State()));
        loaded.Some? ==>
          var c := loaded.value;
          var state := GenerateState(random);
          var heard := Listen(reqs, state);
          && url == AuthorizeUrl(c.clientId, state, OrDefault(c.redirectUri))
          && replies == heard.replies
          && (heard.outcome.Failure? ==> r == Failure(heard.outcome.error) && sent.None? && State() == old(State()))
          && (heard.outcome.Success? ==>
                && sent == Some(CodeGrant(c.clientId, c.clientSecret, heard.outcome.value, OrDefault(c.redirectUri)))
                && (!resp.ok ==> r == Failure(ExchangeFailed(resp.status, resp.body)) && State() == old(State()))
                && (resp.ok && !resp.readable ==> r == Failure(MalformedTokenResponse) && State() == old(State()))
                && (Accepted(resp) ==> r == Success(()) && State() == Saved(old(State()), Exchanged(c, now, resp))))
      ensures sent.Some? ==> exists i :: (0 <= i < |reqs| && reqs[i].path == "/" &&
        StateMatches(reqs[i].query, GenerateState(random)) && Param(reqs[i].query, "code") == sent.value.code)
    {
      url, replies := "", [];
      var loaded := Load(State());
      if loaded.None? {
        return Failure(NoCredentials), url, replies, None;
      }
      var config := loaded.value;
      var redirectUri := OrDefault(config.redirectUri);
      var state := GenerateState(random);
      url := AuthorizeUrl(config.clientId, state, redirectUri);
      var heard := Listen(reqs, state);
      replies := heard.replies;
      if heard.outcome.Failure? {
        return Failure(heard.outcome.error), url, replies, None;
      }
      ListenGated(reqs, state);
      var request;
      r, request := ExchangeCode(config, heard.outcome.value, redirectUri, now, resp);
      sent := Some(request);
    }

    /** `authenticateManual`: needs client credentials; presents the
        authorization URL; reads the pasted line; exchanges a code only when
        the pasted URL passes the state and code gate. */
    method AuthenticateManual(chunks: seq<string>, random: seq<byte>, parse: string -> Option<Query>, now: int, resp: TokenResponse)
      returns (r: Result<(), AuthError>, url: string, sent: Option<TokenRequest>)
      requires |random| == StateBytes
      modifies this
      ensures Load(old(State())).None? ==>
        r == Failure(NoCredentials) && sent.None? && State() == old(State())
      ensures var loaded := Load(old(State()));
        loaded.Some? ==>
          var c := loaded.value;
          var state := GenerateState(random);
          var gate := PasteGate(Concat(chunks[..LineEnd(chunks)]), state, parse);
          && url == AuthorizeUrl(c.clientId, state, OrDefault(c.redirectUri))
          && (gate.Failure? ==> r == Failure(gate.error) && sent.None? && State() == old(State()))
          && (gate.Success? ==>
                && sent == Some(CodeGrant(c.clientId, c.clientSecret, gate.value, OrDefault(c.redirectUri)))
                && (!resp.ok ==> r == Failure(ExchangeFailed(resp.status, resp.body)) && State() == old(State()))
                && (resp.ok && !resp.readable ==> r == Failure(MalformedTokenResponse) && State() == old(State()))
                && (Accepted(resp) ==> r == Success(()) && State() == Saved(old(State()), Exchanged(c, now, resp))))
    {
      url := "";
      var loaded := Load(State());
      if loaded.None? {
        return Failure(NoCredentials), url, None;
      }
      var config := loaded.value;
      var redirectUri := OrDefault(config.redirectUri);
      var state := GenerateState(random);
      url := AuthorizeUrl(config.clientId, state, redirectUri);
      var input := ReadInput(chunks);
      var gate := PasteGate(input, state, parse);
      if gate.Failure? {
        return Failure(gate.error), url, None;
      }
      var request;
      r, request := ExchangeCode(config, gate.value, redirectUri, now, resp);
      sent := Some(request);
    }

    /** `logout`: with a record, deletes both token secrets and rewrites the
        metadata with the redirect URI alone; otherwise does nothing. */
    method Logout()
      modifies this
      ensures State() == LoggedOut(old(State()))
    {
      var loaded := Load(State());
      if loaded.Some? {
        secrets := secrets - {AccessTokenKey};
        secrets := secrets - {RefreshTokenKey};
        meta := Parsed(Metadata(None, loaded.value.redirectUri));
      }
    }
  }
}
