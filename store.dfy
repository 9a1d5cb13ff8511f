/** The config store: one logical credential record split across the
    secret store (client id, client secret, access token, refresh token) and
    a JSON metadata file (token expiry, redirect URI). */
module ConfigStore {
  import opened Wrappers
  import opened Text

  /** Names of the four secrets, under the `ticktick-cli` namespace of the secret store. */
  const ClientIdKey: string := "ticktick-cli/client-id"
  const ClientSecretKey: string := "ticktick-cli/client-secret"
  const AccessTokenKey: string := "ticktick-cli/access-token"
  const RefreshTokenKey: string := "ticktick-cli/refresh-token"
  const SecretKeys: set<string> := {ClientIdKey, ClientSecretKey, AccessTokenKey, RefreshTokenKey}

  const DefaultRedirectUri: string := "http://localhost:8080"

  /** The contents of the metadata file; absent fields are `None`. */
  datatype Metadata = Metadata(tokenExpiry: Option<int>, redirectUri: Option<string>)

  /** The metadata file as a read sees it: a missing, unreadable or
      unparsable file is `Unreadable`; a file holding the JSON literal
      `null` is `NullJson`, on which reading a field throws; any other JSON
      value is `Parsed`, with the fields it lacks absent. */
  datatype MetaFile = Unreadable | NullJson | Parsed(json: Metadata)

  /** Both persistent stores. */
  datatype Stores = Stores(secrets: map<string, string>, meta: MetaFile)

  /** The in-memory credential record. */
  datatype Config = Config(
    clientId: string,
    clientSecret: string,
    accessToken: Option<string>,
    refreshToken: Option<string>,
    tokenExpiry: Option<int>,
    redirectUri: Option<string>)

  /** JavaScript truthiness of an optional string: present and non-empty. */
  predicate Truthy(o: Option<string>) {
    o.Some? && o.value != ""
  }

  /** A value the secret store hands back unchanged: non-empty, no surrounding whitespace. */
  predicate Clean(s: string) {
    s != "" && Trimmed(s)
  }

  /** The shape of every record a load produces. */
  predicate WellFormed(c: Config) {
    && Clean(c.clientId) && Clean(c.clientSecret)
    && (c.accessToken.Some? ==> Clean(c.accessToken.value))
    && (c.refreshToken.Some? ==> Clean(c.refreshToken.value))
    && Truthy(c.redirectUri)
  }

  /** The raw value stored under `key`, if any. */
  function Raw(secrets: map<string, string>, key: string): Option<string> {
    if key in secrets then Some(secrets[key]) else None
  }

  /** A read of one secret: the stored value with surrounding whitespace
      removed; a missing key (or a failing read) is absent. */
  function SecretGet(secrets: map<string, string>, key: string): (r: Option<string>)
    ensures r.Some? <==> key in secrets
    ensures r.Some? ==> r.value == Trim(secrets[key]) && Trimmed(r.value)
  {
    if key in secrets then Some(Trim(secrets[key])) else None
  }

  /** `Some(s)` unless `s` is empty. */
  function NonBlank(s: string): Option<string> {
    if s == "" then None else Some(s)
  }

  /** What a load yields for an optional secret: the trimmed value, if non-empty. */
  function Stored(secrets: map<string, string>, key: string): (r: Option<string>)
    ensures r.Some? ==> Clean(r.value)
    ensures r.Some? <==> key in secrets && Trim(secrets[key]) != ""
  {
    match SecretGet(secrets, key)
    case None => None
    case Some(v) => NonBlank(v)
  }

  /** The metadata a load works with: an unreadable file counts as `{}`
      (a `null` one never gets this far). */
  function MetaOf(f: MetaFile): Metadata {
    match f
    case Unreadable => Metadata(None, None)
    case NullJson => Metadata(None, None)
    case Parsed(m) => m
  }

  /** `redirectUri || DEFAULT_REDIRECT_URI`. */
  function OrDefault(uri: Option<string>): (r: string)
    ensures r != ""
    ensures Truthy(uri) ==> r == uri.value
  {
    if Truthy(uri) then uri.value else DefaultRedirectUri
  }

  /** `loadConfig`: no record unless both client credentials read back
      non-empty, nor when the metadata file holds `null` (reading its
      `tokenExpiry` throws inside the outer `try`); otherwise a well-formed record whose optional tokens are
      present exactly when their secrets are non-blank, whose expiry is the
      metadata's, and whose redirect URI is the metadata's when non-empty and
      the default otherwise. */
  function Load(st: Stores): (r: Option<Config>)
    ensures r.None? <==>
      || ClientIdKey !in st.secrets || Trim(st.secrets[ClientIdKey]) == ""
      || ClientSecretKey !in st.secrets || Trim(st.secrets[ClientSecretKey]) == ""
      || st.meta.NullJson?
    ensures r.Some? ==> WellFormed(r.value)
    ensures r.Some? ==>
      && r.value.clientId == Trim(st.secrets[ClientIdKey])
      && r.value.clientSecret == Trim(st.secrets[ClientSecretKey])
    ensures r.Some? ==>
      && (r.value.accessToken.Some? <==> AccessTokenKey in st.secrets && Trim(st.secrets[AccessTokenKey]) != "")
      && (r.value.accessToken.Some? ==> r.value.accessToken.value == Trim(st.secrets[AccessTokenKey]))
      && (r.value.refreshToken.Some? <==> RefreshTokenKey in st.secrets && Trim(st.secrets[RefreshTokenKey]) != "")
      && (r.value.refreshToken.Some? ==> r.value.refreshToken.value == Trim(st.secrets[RefreshTokenKey]))
    ensures r.Some? && st.meta.Parsed? ==> r.value.tokenExpiry == st.meta.json.tokenExpiry
    ensures r.Some? && st.meta.Unreadable? ==> r.value.tokenExpiry.None? && r.value.redirectUri == Some(DefaultRedirectUri)
    ensures r.Some? && st.meta.Parsed? ==>
      r.value.redirectUri == Some(if Truthy(st.meta.json.redirectUri) then st.meta.json.redirectUri.value else DefaultRedirectUri)
  {
    var id := SecretGet(st.secrets, ClientIdKey);
    var secret := SecretGet(st.secrets, ClientSecretKey);
    if !Truthy(id) || !Truthy(secret) then None
    else if st.meta.NullJson? then None
    else
      var json := MetaOf(st.meta);
      Some(Config(
        id.value, secret.value,
        Stored(st.secrets, AccessTokenKey), Stored(st.secrets, RefreshTokenKey),
        json.tokenExpiry, Some(OrDefault(json.redirectUri))))
  }

  /** What a save writes to the metadata file: the expiry and the redirect URI, nothing secret. */
  function MetadataOf(c: Config): Metadata {
    Metadata(c.tokenExpiry, c.redirectUri)
  }

  /** One conditional `passSet`: written only when the value is truthy. */
  function Put(secrets: map<string, string>, key: string, v: Option<string>): map<string, string> {
    if Truthy(v) then secrets[key := v.value] else secrets
  }

  /** `saveConfig`: the metadata file is replaced by the record's expiry and
      redirect URI; each of the four secrets is overwritten when the record's
      field is non-empty and otherwise keeps its old value; no key is ever
      removed and no other key is touched. */
  function Saved(st: Stores, c: Config): (r: Stores)
    ensures r.meta == Parsed(Metadata(c.tokenExpiry, c.redirectUri))
    ensures st.secrets.Keys <= r.secrets.Keys <= st.secrets.Keys + SecretKeys
    ensures Raw(r.secrets, ClientIdKey) == if c.clientId != "" then Some(c.clientId) else Raw(st.secrets, ClientIdKey)
    ensures Raw(r.secrets, ClientSecretKey) == if c.clientSecret != "" then Some(c.clientSecret) else Raw(st.secrets, ClientSecretKey)
    ensures Raw(r.secrets, AccessTokenKey) == if Truthy(c.accessToken) then c.accessToken else Raw(st.secrets, AccessTokenKey)
    ensures Raw(r.secrets, RefreshTokenKey) == if Truthy(c.refreshToken) then c.refreshToken else Raw(st.secrets, RefreshTokenKey)
    ensures forall k :: k !in SecretKeys ==> Raw(r.secrets, k) == Raw(st.secrets, k)
  {
    var s0 := Put(st.secrets, ClientIdKey, Some(c.clientId));
    var s1 := Put(s0, ClientSecretKey, Some(c.clientSecret));
    var s2 := Put(s1, AccessTokenKey, c.accessToken);
    var s3 := Put(s2, RefreshTokenKey, c.refreshToken);
    Stores(s3, Parsed(MetadataOf(c)))
  }

  /** The four secret names are distinct. */
  lemma KeysDistinct()
    ensures |SecretKeys| == 4
    ensures ClientIdKey != ClientSecretKey && ClientIdKey != AccessTokenKey && ClientIdKey != RefreshTokenKey
    ensures ClientSecretKey != AccessTokenKey && ClientSecretKey != RefreshTokenKey && AccessTokenKey != RefreshTokenKey
  {
    assert ClientSecretKey[13] != RefreshTokenKey[13];
    assert AccessTokenKey[13] != ClientIdKey[13];
  }

  /** Loading stores whose secrets are already in the form a load returns. */
  lemma LoadClean(st: Stores, id: string, secret: string, access: Option<string>, refresh: Option<string>)
    requires Clean(id) && Clean(secret)
    requires access.Some? ==> Clean(access.value)
    requires refresh.Some? ==> Clean(refresh.value)
    requires Raw(st.secrets, ClientIdKey) == Some(id) && Raw(st.secrets, ClientSecretKey) == Some(secret)
    requires Raw(st.secrets, AccessTokenKey) == access && Raw(st.secrets, RefreshTokenKey) == refresh
    requires !st.meta.NullJson?
    ensures Load(st) == Some(Config(id, secret, access, refresh,
      MetaOf(st.meta).tokenExpiry, Some(OrDefault(MetaOf(st.meta).redirectUri))))
  {
    TrimOfTrimmed(id);
    TrimOfTrimmed(secret);
    if access.Some? { TrimOfTrimmed(access.value); }
    if refresh.Some? { TrimOfTrimmed(refresh.value); }
  }

  /** A metadata file holding `null` makes the whole load fail, whatever the
      secret store holds. */
  lemma NullMetadataLoadsNothing(secrets: map<string, string>)
    ensures Load(Stores(secrets, NullJson)).None?
  {
  }

  /** An unreadable metadata file reads exactly like an empty one. */
  lemma UnreadableIsEmpty(secrets: map<string, string>)
    ensures Load(Stores(secrets, Unreadable)) == Load(Stores(secrets, Parsed(Metadata(None, None))))
  {
  }

  /** What a load after a save yields for an optional token: the saved value
      (trimmed, if that leaves anything) when it was written, otherwise
      whatever the store already held. */
  function Reread(v: Option<string>, before: map<string, string>, key: string): Option<string> {
    if Truthy(v) then NonBlank(Trim(v.value)) else Stored(before, key)
  }

  lemma RereadStored(before: map<string, string>, after: map<string, string>, key: string, v: Option<string>)
    requires Raw(after, key) == if Truthy(v) then v else Raw(before, key)
    ensures Stored(after, key) == Reread(v, before, key)
  {
  }

  /** Save, then load: the client credentials come back trimmed, each token
      comes back as saved (trimmed) or, when the record had none, as the
      store held it, and the expiry and redirect URI (or its default) come
      back from the metadata just written. */
  lemma LoadAfterSave(st: Stores, c: Config)
    requires Trim(c.clientId) != "" && Trim(c.clientSecret) != ""
    ensures Load(Saved(st, c)) == Some(Config(
      Trim(c.clientId), Trim(c.clientSecret),
      Reread(c.accessToken, st.secrets, AccessTokenKey),
      Reread(c.refreshToken, st.secrets, RefreshTokenKey),
      c.tokenExpiry, Some(OrDefault(c.redirectUri))))
  {
    var after := Saved(st, c);
    assert SecretGet(after.secrets, ClientIdKey) == Some(Trim(c.clientId)) by {
      assert Raw(after.secrets, ClientIdKey) == Some(c.clientId);
    }
    assert SecretGet(after.secrets, ClientSecretKey) == Some(Trim(c.clientSecret)) by {
      assert Raw(after.secrets, ClientSecretKey) == Some(c.clientSecret);
    }
    RereadStored(st.secrets, after.secrets, AccessTokenKey, c.accessToken);
    RereadStored(st.secrets, after.secrets, RefreshTokenKey, c.refreshToken);
    assert MetaOf(after.meta) == Metadata(c.tokenExpiry, c.redirectUri);
  }

  /** The save/load round trip for a well-formed record: it comes back field
      for field, except that a token the record lacks is taken from the store,
      since a save never deletes a secret. */
  lemma SaveLoadRoundTrip(st: Stores, c: Config)
    requires WellFormed(c)
    ensures Load(Saved(st, c)) == Some(c.(
      accessToken := if c.accessToken.Some? then c.accessToken else Stored(st.secrets, AccessTokenKey),
      refreshToken := if c.refreshToken.Some? then c.refreshToken else Stored(st.secrets, RefreshTokenKey)))
  {
    TrimOfTrimmed(c.clientId);
    TrimOfTrimmed(c.clientSecret);
    if c.accessToken.Some? { TrimOfTrimmed(c.accessToken.value); }
    if c.refreshToken.Some? { TrimOfTrimmed(c.refreshToken.value); }
    LoadAfterSave(st, c);
  }

  /** Saving the record just loaded, unchanged, loads the same record again. */
  lemma LoadSaveFixpoint(st: Stores)
    requires Load(st).Some?
    ensures Load(Saved(st, Load(st).value)) == Load(st)
  {
    SaveLoadRoundTrip(st, Load(st).value);
  }
}
