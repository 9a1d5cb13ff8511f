/** Runs of the credential lifecycle, each following one scenario the
    system is expected to handle, checked against the contracts alone. The
    client id, secret and tokens are any values the secret store hands back
    unchanged (such as `abc` and `xyz`). */
module Scenarios {
  import opened Wrappers
  import opened Text
  import opened ConfigStore
  import opened Tokens
  import opened AuthFlow
  import opened Auth

  /** Credentials but no tokens: not authenticated, no access token. */
  method NoTokensYet(id: string, secret: string, now: int, resp: TokenResponse)
    requires Clean(id) && Clean(secret)
  {
    KeysDistinct();
    var before := Stores(map[ClientIdKey := id, ClientSecretKey := secret], Unreadable);
    LoadClean(before, id, secret, None, None);
    var store := new AuthStore(before);
    var ok := store.CheckAuth(now, resp);
    assert !ok && store.State() == before;
    var r, sent := store.GetValidToken(now, resp);
    assert r == Failure(NoAccessToken) && sent.None?;
  }

  /** Expired some time ago, with a refresh token, and the endpoint answers
      a new access token for an hour without a new refresh token: the new
      token is returned and stored, the refresh token is kept, and the
      expiry is an hour ahead. */
  method RefreshWhenExpired(id: string, secret: string, access: string, refresh: string, renewed: string, expiry: int, now: int)
    requires Clean(id) && Clean(secret) && Clean(access) && Clean(refresh) && Clean(renewed)
    requires 0 < expiry < now
  {
    KeysDistinct();
    var before := Stores(map[ClientIdKey := id, ClientSecretKey := secret, AccessTokenKey := access, RefreshTokenKey := refresh],
      Parsed(Metadata(Some(expiry), None)));
    LoadClean(before, id, secret, Some(access), Some(refresh));
    var store := new AuthStore(before);
    var resp := TokenResponse(true, 200, "", true, renewed, "", 3600);
    var r, sent := store.GetValidToken(now, resp);
    assert sent == Some(RefreshGrant(id, secret, refresh));
    assert r == Success(renewed);
    RenewedLoad(before, id, secret, refresh, renewed, now);
    assert Load(store.State()) == Some(Config(id, secret, Some(renewed), Some(refresh), Some(now + 3600000), Some(DefaultRedirectUri)));
  }

  /** Reading back the store after that refresh. */
  lemma RenewedLoad(before: Stores, id: string, secret: string, refresh: string, renewed: string, now: int)
    requires Clean(renewed)
    requires Load(before).Some?
    requires var c := Load(before).value;
      c.clientId == id && c.clientSecret == secret && c.refreshToken == Some(refresh) && c.redirectUri == Some(DefaultRedirectUri)
    ensures var resp := TokenResponse(true, 200, "", true, renewed, "", 3600);
      Load(Saved(before, Refreshed(Load(before).value, now, resp)))
        == Some(Config(id, secret, Some(renewed), Some(refresh), Some(now + 3600000), Some(DefaultRedirectUri)))
  {
    var resp := TokenResponse(true, 200, "", true, renewed, "", 3600);
    LoadAfterRefresh(before, now, resp);
    TrimOfTrimmed(renewed);
  }

  /** A token that expires in an hour is handed out as stored, with no request. */
  method FreshTokenNoRequest(id: string, secret: string, access: string, now: int, resp: TokenResponse)
    requires Clean(id) && Clean(secret) && Clean(access)
  {
    KeysDistinct();
    var before := Stores(map[ClientIdKey := id, ClientSecretKey := secret, AccessTokenKey := access],
      Parsed(Metadata(Some(now + 3600000), None)));
    LoadClean(before, id, secret, Some(access), None);
    var store := new AuthStore(before);
    var r, sent := store.GetValidToken(now, resp);
    assert r == Success(access) && sent.None? && store.State() == before;
  }

  /** A callback `/?code=XYZ&state=S1` meant for another attempt is refused
      with 400 and an invalid-state failure, and nothing is exchanged. */
  method ForgedCallback(id: string, secret: string, random: seq<byte>, now: int, resp: TokenResponse)
    requires Clean(id) && Clean(secret)
    requires |random| == StateBytes
  {
    KeysDistinct();
    var before := Stores(map[ClientIdKey := id, ClientSecretKey := secret], Unreadable);
    LoadClean(before, id, secret, None, None);
    var store := new AuthStore(before);
    var forged := Request("/", map["code" := "XYZ", "state" := "S1"]);
    assert Param(forged.query, "state") == "S1" != GenerateState(random);
    ForgedIsRefused(forged, GenerateState(random));
    var r, url, replies, sent := store.Authenticate([forged], random, now, resp);
    assert r == Failure(InvalidState) && replies == [400] && sent.None? && store.State() == before;
  }

  /** A callback on `/` carrying another attempt's state is answered 400
      and ends the flow with an invalid-state failure, whatever its code. */
  lemma ForgedIsRefused(forged: Request, state: string)
    requires forged.path == "/" && Param(forged.query, "state") != state
    ensures Listen([forged], state) == Listened([400], Failure(InvalidState))
  {
    assert [forged][1..] == [];
  }

  /** A pasted URL with the right state but no code fails with the single
      invalid-redirect-URL error, and nothing is exchanged. */
  method PastedUrlWithoutCode(id: string, secret: string, pasted: string, random: seq<byte>, now: int, resp: TokenResponse)
    requires Clean(id) && Clean(secret) && Clean(pasted)
    requires |random| == StateBytes
  {
    KeysDistinct();
    var state := GenerateState(random);
    var parse := (s: string) => if s == pasted then Some(map["state" := state]) else None;
    var before := Stores(map[ClientIdKey := id, ClientSecretKey := secret], Unreadable);
    LoadClean(before, id, secret, None, None);
    var store := new AuthStore(before);
    var chunks := [pasted + "\n"];
    PastedLineFails(pasted, state, parse);
    var r, url, sent := store.AuthenticateManual(chunks, random, parse, now, resp);
    assert r == Failure(InvalidRedirectUrl(pasted)) && sent.None? && store.State() == before;
  }

  /** The pasted line, read up to its newline and carrying only the
      state, fails the gate with the invalid-redirect-URL error. */
  lemma PastedLineFails(pasted: string, state: string, parse: string -> Option<Query>)
    requires Clean(pasted)
    requires parse(pasted) == Some(map["state" := state])
    ensures var chunks := [pasted + "\n"];
      PasteGate(Concat(chunks[..LineEnd(chunks)]), state, parse) == Failure(InvalidRedirectUrl(pasted))
  {
    var chunks := [pasted + "\n"];
    assert LineEnd(chunks) == 1;
    assert chunks[..1] == chunks;
    assert Concat(chunks) == pasted + "\n";
    TrimStripsNewline(pasted);
    assert Param(map["state" := state], "code") == "";
  }

  /** A line ending in a newline is trimmed down to the line. */
  lemma TrimStripsNewline(s: string)
    requires Clean(s)
    ensures Trim(s + "\n") == s
  {
    var t := s + "\n";
    assert LeadingBlanks(t) == 0;
    assert t[..|s|] == s;
    TrimEndOfTrimmed(s);
  }

  /** Logging out twice keeps the credentials and leaves no tokens and no expiry. */
  method LogoutTwice(id: string, secret: string, access: string, refresh: string, redirectUri: string, expiry: int)
    requires Clean(id) && Clean(secret) && Clean(access) && Clean(refresh) && redirectUri != ""
  {
    KeysDistinct();
    var before := Stores(map[ClientIdKey := id, ClientSecretKey := secret, AccessTokenKey := access, RefreshTokenKey := refresh],
      Parsed(Metadata(Some(expiry), Some(redirectUri))));
    LoadClean(before, id, secret, Some(access), Some(refresh));
    var store := new AuthStore(before);
    store.Logout();
    var once := store.State();
    store.Logout();
    LogoutIdempotent(before);
    assert store.State() == once;
    LoadAfterLogout(before);
    assert Load(once) == Some(Config(id, secret, None, None, None, Some(redirectUri)));
  }
}
