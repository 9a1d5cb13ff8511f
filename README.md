# TickTick CLI credential lifecycle, in Dafny

This project models the authentication core of the TickTick command-line
client (`ticktick/scripts/auth.ts`): how one logical credential record is
split across a secret store (`client-id`, `client-secret`, `access-token`,
`refresh-token` under the `ticktick-cli` namespace) and a JSON metadata file
(`tokenExpiry`, `redirectUri`); how `getValidToken` decides whether the access
token is still good (five-minute buffer) and refreshes it; how both
authorization flows (local callback and manual paste) gate the code on the
anti-forgery state and persist the exchanged tokens; and how `logout` and
`setupCredentials` change the stores.

Every side effect is a value: the two stores are fields of the class
`Auth.AuthStore` (a `map<string, string>` of secrets and a `MetaFile`), the
clock is an `int` of milliseconds, the token endpoint's answer is a
`TokenResponse` argument and the request the code would POST is returned as a
`TokenRequest`, the random bytes of the state are an argument, the requests
reaching the local listener are a sequence, the pasted input is a sequence of
chunks, and URL parsing is a function argument returning the query
parameters.

Files:

- `wrappers.dfy` — `Option` and `Result`.
- `text.dfy` — JavaScript `trim` (with the exact ECMAScript whitespace set) and hex rendering.
- `uri.dfy` — `encodeURIComponent` (UTF-8 percent-encoding) and splitting at a delimiter.
- `store.dfy` — the config store: `Load` (`loadConfig`), `Saved` (`saveConfig`) and their round trips.
- `tokens.dfy` — the expiry test and the record updates of refresh and code exchange.
- `flow.dfy` — the state token, the authorization URL, the callback handler, the input loop and the paste gate.
- `auth.dfy` — the class holding both stores and the operations that change them.
- `scenarios.dfy` — runs of the class through typical situations (no tokens yet, refresh on expiry, a fresh token, a forged callback, a pasted URL without code, logging out twice), stated against the contracts.

Points where the behaviour of the code is easy to misread:

- In the manual flow the throws at `auth.ts:407-415` carry distinct
  messages, but the `catch` at `auth.ts:417-418` replaces them all with
  one "Invalid redirect URL" error (`AuthFlow.ExtractCode` keeps the
  causes apart, `AuthFlow.PasteGate` collapses them).
- A metadata file holding the JSON literal `null` parses without error
  at `auth.ts:92`, but reading its `tokenExpiry` at `auth.ts:100` then
  throws inside the outer `try`, so `loadConfig` returns no record even
  with both credentials stored.
- A 2xx token answer whose body is not JSON, or is `null`, throws at
  `auth.ts:196`, `:322` or `:448`, and nothing is saved.
- A secret read back is trimmed, and a value that is empty after trimming
  counts as absent; so a load after a save returns trimmed values.
- "Expired" is strict (`now > expiry - 300000`), and an expiry of `0` counts
  as unset.
- A refresh or exchange response with an empty access token or without a
  refresh token leaves the previously stored secret in place, because the
  save writes only truthy fields.

## Model

| member | source | states |
|---|---|---|
| `Text.Trim` | ticktick/scripts/auth.ts:30 | the result is a slice of the input with only JavaScript whitespace cut from either end, and has none at its own ends |
| `Text.TrimIdempotent` | ticktick/scripts/auth.ts:30 | trimming a value read back from the store again changes nothing |
| `Text.HexRoundTrip` | ticktick/scripts/auth.ts:20 | the hex rendering of the random bytes can be read back to the bytes |
| `Uri.EncodeUriComponent` | ticktick/scripts/auth.ts:278 | the encoded component holds only unreserved characters and `%`, so no `&`, `=` or `#` |
| `Uri.EncodeUnreserved` | ticktick/scripts/auth.ts:278 | a string of unreserved characters is encoded as itself |
| `ConfigStore.SecretGet` | ticktick/scripts/auth.ts:25-34 | a read of a secret is absent exactly when the key is missing, and otherwise the stored value trimmed |
| `ConfigStore.KeysDistinct` | ticktick/scripts/auth.ts:82-110 | the four secret names under `ticktick-cli/` are pairwise distinct, so writing one never overwrites another |
| `ConfigStore.LoadClean` | ticktick/scripts/auth.ts:79-119 | a store holding already-trimmed, non-blank credentials and tokens loads as exactly those values, with the metadata's expiry and redirect URI or the default |
| `ConfigStore.Load` | ticktick/scripts/auth.ts:79-119 | no record iff the client id or secret is missing or blank or the metadata file holds `null`; otherwise a well-formed record with the trimmed credentials, each token present iff its secret is non-blank, the metadata's expiry, and the metadata's non-empty redirect URI or `http://localhost:8080` |
| `ConfigStore.NullMetadataLoadsNothing` | ticktick/scripts/auth.ts:88-117 | a metadata file holding `null` makes the load fail whatever the secrets are |
| `ConfigStore.UnreadableIsEmpty` | ticktick/scripts/auth.ts:88-95 | a missing, unreadable or unparsable metadata file loads exactly like an empty one |
| `ConfigStore.Saved` | ticktick/scripts/auth.ts:121-146 | the metadata becomes the record's expiry and redirect URI; each secret is overwritten only by a non-empty field; no secret key is ever removed and no other key changes |
| `ConfigStore.LoadAfterSave` | ticktick/scripts/auth.ts:121-146 | a load after a save returns the saved credentials (trimmed), each saved token or else the one already stored, the saved expiry, and the saved redirect URI or the default |
| `ConfigStore.SaveLoadRoundTrip` | ticktick/scripts/auth.ts:79-146 | a well-formed record survives save then load field for field, a token it lacks being taken from the store |
| `ConfigStore.LoadSaveFixpoint` | ticktick/scripts/auth.ts:79-146 | saving the record just loaded and loading again yields the same record |
| `Tokens.Refreshed` | ticktick/scripts/auth.ts:196-202 | a refresh sets the access token, replaces the refresh token only by a truthy one, sets expiry to `now + expires_in*1000`, keeps credentials and redirect URI; a token living over five minutes is not expired at once |
| `Tokens.Exchanged` | ticktick/scripts/auth.ts:322-326 | an exchange takes both tokens from the response and sets the new expiry, keeping credentials and redirect URI |
| `Tokens.LoadAfterRefresh` | ticktick/scripts/auth.ts:196-204 | after a refresh is saved, a load shows the new access token, the new refresh token only if one was supplied, the new expiry, and unchanged credentials and redirect URI |
| `Tokens.LoadAfterExchange` | ticktick/scripts/auth.ts:322-328 | after an exchange is saved, a load shows the new tokens and expiry; with no refresh token in the response the stored one survives |
| `AuthFlow.GenerateState` | ticktick/scripts/auth.ts:19-21 | the state is `ticktick-cli-` followed by two hex digits per random byte, never empty |
| `AuthFlow.StateDeterminesBytes` | ticktick/scripts/auth.ts:19-21 | distinct random bytes give distinct states |
| `AuthFlow.StateIsUrlSafe` | ticktick/scripts/auth.ts:278 | encoding the state for the URL leaves it unchanged |
| `AuthFlow.AuthorizeQueryParameters` | ticktick/scripts/auth.ts:372 | whatever the id and redirect URI hold, the authorization URL's query splits into exactly scope, client_id, state, redirect_uri and response_type, in order |
| `AuthFlow.HandleCallback` | ticktick/scripts/auth.ts:234-275 | on `/`, a missing or foreign state gives 400 and "Invalid OAuth state" whatever else is present, then a non-empty `error` gives 400 and the OAuth error, then a non-empty `code` gives 200 and success with that code; anything else is 404 and does not settle |
| `AuthFlow.Listen` | ticktick/scripts/auth.ts:233-295 | requests are answered in order; the first that settles ends the flow with its outcome after only 404s; if none settles the flow times out |
| `AuthFlow.ListenGated` | ticktick/scripts/auth.ts:237-270 | the automatic flow obtains a code only from a request on `/` that carried the generated state |
| `AuthFlow.LineEnd` | ticktick/scripts/auth.ts:387-393 | the input loop consumes chunks up to and including the first holding a newline, or all of them |
| `AuthFlow.ReadInput` | ticktick/scripts/auth.ts:387-393 | the accumulated input is the concatenation of exactly the chunks the stopping rule consumes |
| `AuthFlow.ExtractCode` | ticktick/scripts/auth.ts:404-416 | a code is extracted iff the URL parses, its state is present and equal to the generated one, and its code is non-empty |
| `AuthFlow.PasteGate` | ticktick/scripts/auth.ts:396-419 | blank input fails with "No URL provided"; every other failure is the single "Invalid redirect URL" error naming the trimmed text; a code passes iff state matches and code is non-empty |
| `Scenarios.TrimStripsNewline` | ticktick/scripts/auth.ts:396 | a pasted line with its newline trims down to the line |
| `Scenarios.PastedLineFails` | ticktick/scripts/auth.ts:387-419 | a pasted line that carries the right state but no code fails the gate with "Invalid redirect URL" naming the line |
| `Scenarios.ForgedIsRefused` | ticktick/scripts/auth.ts:237-248 | a lone callback on `/` with a foreign state gets 400 and ends the flow with "Invalid OAuth state", whatever code it carries |
| `Scenarios.RenewedLoad` | ticktick/scripts/auth.ts:196-204 | after a refresh that returns a new access token for an hour and no refresh token, a load shows the new token, the old refresh token and an expiry one hour ahead |
| `Auth.LoggedOut` | ticktick/scripts/auth.ts:341-359 | with a record, both token secrets are removed and the metadata keeps only the redirect URI; without one, nothing changes |
| `Auth.LoadAfterLogout` | ticktick/scripts/auth.ts:341-359 | after logout a load keeps the credentials and redirect URI and has no tokens and no expiry |
| `Auth.LogoutIdempotent` | ticktick/scripts/auth.ts:341-359 | a second logout leaves the same stores as the first |
| `Auth.LoadAfterSetUp` | ticktick/scripts/auth.ts:208-218 | after setup the new id and secret load, the redirect URI is the default, the tokens are those already stored, and the expiry is kept |
| `Auth.AuthStore.SaveConfig` | ticktick/scripts/auth.ts:121-146 | the stores become `Saved` of the old stores and the record; no secret key disappears |
| `Auth.AuthStore.RefreshAccessToken` | ticktick/scripts/auth.ts:173-206 | sends one refresh grant; a non-ok answer fails with its status and changes nothing; an ok answer without readable fields fails and changes nothing; an ok, readable answer saves the refreshed record and returns the new access token |
| `Auth.AuthStore.GetValidToken` | ticktick/scripts/auth.ts:148-171 | fails in order: not configured, no access token, expired without refresh token; a token not expired is returned unchanged with no request and no state change; an expired one with a refresh token is refreshed, with the refresh's three outcomes |
| `Auth.AuthStore.CheckAuth` | ticktick/scripts/auth.ts:332-339 | true iff `getValidToken` succeeds: a record with an access token that is not expired, or is expired but refreshed with an ok, readable answer |
| `Auth.AuthStore.SetupCredentials` | ticktick/scripts/auth.ts:208-218 | the stores become `SetUp` of the old stores and the new credentials |
| `Auth.AuthStore.ExchangeCode` | ticktick/scripts/auth.ts:297-328 | sends one code grant; a non-ok answer fails with status and body and changes nothing; an ok answer without readable fields fails and changes nothing; an ok, readable answer saves the exchanged record |
| `Auth.AuthStore.Authenticate` | ticktick/scripts/auth.ts:220-330 | without credentials fails and does nothing; otherwise presents the authorization URL, answers requests as `Listen` does, and exchanges only a code from a callback carrying the generated state |
| `Auth.AuthStore.AuthenticateManual` | ticktick/scripts/auth.ts:361-456 | without credentials fails and does nothing; otherwise presents the authorization URL, reads the pasted line and exchanges only a code that passes the paste gate |
| `Auth.AuthStore.Logout` | ticktick/scripts/auth.ts:341-359 | the stores become `LoggedOut` of the old stores |

## Left out

- The secret-store subprocess (`pass show`, `pass insert`, `pass rm` through `execSync`): the store is an in-memory map. A failing write, which would propagate mid-save and leave the record partly written, is not modelled; reads that fail are absent, deletes never fail.
- Directory creation and the permission modes of the configuration directory and file: best-effort hardening with no effect on the record.
- The token endpoint (`fetch`): its answer is an argument, whose `readable` flag says whether the body parses as JSON other than `null`. A field missing from the JSON body is the empty string, which the code treats like `undefined` everywhere except that `getValidToken` would then return `undefined` rather than `""`. The status text in the refresh error message is not modelled; errors are constructors, not message strings.
- The HTTP server, `listen`, opening the browser and the timer: the listener is modelled as answering the requests that arrive before the timer fires, the end of that sequence standing for the timeout. The listen port derived from the redirect URI is not modelled, and so neither is `authenticate` throwing when the configured redirect URI is not a parsable URL (`auth.ts:229`).
- Streaming standard input and `TextDecoder`: the input arrives as already decoded string chunks.
- WHATWG URL parsing: a function argument that yields the first value of each query parameter, or nothing for an unparsable URL; the callback's request path and query arrive parsed.
- `crypto.randomBytes`: the sixteen bytes are an argument. `encodeURIComponent` throwing on a lone surrogate is not representable, since a Dafny `char` is a Unicode scalar value.
- The clock: `now` is one argument, read once. In the refresh path the code reads `Date.now()` twice, at `auth.ts:163` for the expiry test and at `auth.ts:202` after the POST, so the model's new expiry is computed from the earlier instant.
- Floating-point time: instants and `expires_in * 1000` are unbounded integers, so a `NaN` expiry from a missing `expires_in` is not modelled; nor is a `tokenExpiry` of a non-numeric JSON type.
- The caller's record object being updated in place by refresh and exchange: no caller reads it afterwards, so the methods take the record as a value.
- Console output and the unused `API_BASE` constant.
