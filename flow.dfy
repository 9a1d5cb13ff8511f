/** The pure decisions of the two authorization flows: the anti-forgery
    state, the authorization URL, the local callback handler, and the
    reading and gating of a pasted redirect URL. */
module AuthFlow {
  import opened Wrappers
  import opened Text
  import opened Uri
  import opened Tokens

  const OAuthBase: string := "https://ticktick.com/oauth"
  const StatePrefix: string := "ticktick-cli-"
  /** The number of random bytes behind one state token. */
  const StateBytes: nat := 16

  /** `generateState`: the prefix followed by the hex of the random bytes. */
  function GenerateState(random: seq<byte>): (r: string)
    ensures |r| == |StatePrefix| + 2 * |random|
    ensures r[..|StatePrefix|] == StatePrefix
    ensures UnHex(r[|StatePrefix|..]) == Some(random)
    ensures r != ""
  {
    HexRoundTrip(random);
    assert (StatePrefix + Hex(random))[|StatePrefix|..] == Hex(random);
    StatePrefix + Hex(random)
  }

  /** Distinct random bytes give distinct state tokens: the state carries
      all of its randomness. */
  lemma StateDeterminesBytes(a: seq<byte>, b: seq<byte>)
    requires GenerateState(a) == GenerateState(b)
    ensures a == b
  {
    assert Hex(a) == GenerateState(a)[|StatePrefix|..];
    assert Hex(b) == GenerateState(b)[|StatePrefix|..];
    HexRoundTrip(a);
    HexRoundTrip(b);
  }

  /** A state token needs no escaping: `encodeURIComponent` leaves it as it is. */
  lemma StateIsUrlSafe(random: seq<byte>)
    ensures EncodeUriComponent(GenerateState(random)) == GenerateState(random)
  {
    var s := GenerateState(random);
    HexAlphabet(random);
    forall i | 0 <= i < |s| ensures IsUnreserved(s[i]) {
      if i >= |StatePrefix| {
        assert s[i] == Hex(random)[i - |StatePrefix|];
      }
    }
    EncodeUnreserved(s);
  }

  const Scope: string := "tasks:read%20tasks:write"

  /** The query string of the authorization URL. */
  function AuthorizeQuery(clientId: string, state: string, redirectUri: string): string {
    "scope=" + Scope + "&" + (
      "client_id=" + EncodeUriComponent(clientId) + "&" + (
        "state=" + EncodeUriComponent(state) + "&" + (
          "redirect_uri=" + EncodeUriComponent(redirectUri) + "&" +
            "response_type=code")))
  }

  /** The URL the user is sent to in both flows. */
  function AuthorizeUrl(clientId: string, state: string, redirectUri: string): string {
    OAuthBase + "/authorize?" + AuthorizeQuery(clientId, state, redirectUri)
  }

  lemma EncodedHasNoAmpersand(s: string)
    ensures '&' !in EncodeUriComponent(s)
  {
    var e := EncodeUriComponent(s);
    assert forall i :: 0 <= i < |e| ==> e[i] != '&';
  }

  /** Joins two query fragments with the parameter delimiter. */
  function Amp(a: string, b: string): string {
    a + "&" + b
  }

  lemma AuthorizeQueryShape(clientId: string, state: string, redirectUri: string)
    ensures AuthorizeQuery(clientId, state, redirectUri) ==
      Amp("scope=" + Scope, Amp("client_id=" + EncodeUriComponent(clientId),
        Amp("state=" + EncodeUriComponent(state),
          Amp("redirect_uri=" + EncodeUriComponent(redirectUri), "response_type=code"))))
  {
  }

  /** Splitting `a & b` when `a` holds no delimiter. */
  lemma SplitAmp(a: string, b: string)
    requires '&' !in a
    ensures Split(Amp(a, b), '&') == [a] + Split(b, '&')
  {
    SplitCons(a, '&', b);
  }

  /** A parameter `name=value` whose value came out of `encodeURIComponent`
      holds no delimiter, as long as its name holds none. */
  lemma ParamHasNoAmpersand(name: string, value: string)
    requires '&' !in name
    ensures '&' !in name + EncodeUriComponent(value)
  {
    EncodedHasNoAmpersand(value);
  }

  /** Whatever the client id and redirect URI contain, the authorization URL
      carries exactly five parameters, in order, each value encoded. */
  lemma AuthorizeQueryParameters(clientId: string, state: string, redirectUri: string)
    ensures Split(AuthorizeQuery(clientId, state, redirectUri), '&') == [
      "scope=" + Scope,
      "client_id=" + EncodeUriComponent(clientId),
      "state=" + EncodeUriComponent(state),
      "redirect_uri=" + EncodeUriComponent(redirectUri),
      "response_type=code"]
  {
    var p0 := "scope=" + Scope;
    var p1 := "client_id=" + EncodeUriComponent(clientId);
    var p2 := "state=" + EncodeUriComponent(state);
    var p3 := "redirect_uri=" + EncodeUriComponent(redirectUri);
    var p4 := "response_type=code";
    AuthorizeQueryShape(clientId, state, redirectUri);
    ParamHasNoAmpersand("client_id=", clientId);
    ParamHasNoAmpersand("state=", state);
    ParamHasNoAmpersand("redirect_uri=", redirectUri);
    LiteralParts();
    SplitFive(p0, p1, p2, p3, p4);
  }

  /** Five delimiter-free fragments joined with `&` split back into themselves. */
  lemma SplitFive(a: string, b: string, c: string, d: string, e: string)
    requires '&' !in a && '&' !in b && '&' !in c && '&' !in d && '&' !in e
    ensures Split(Amp(a, Amp(b, Amp(c, Amp(d, e)))), '&') == [a, b, c, d, e]
  {
    SplitNone(e, '&');
    SplitAmp(d, e);
    SplitAmp(c, Amp(d, e));
    SplitAmp(b, Amp(c, Amp(d, e)));
    SplitAmp(a, Amp(b, Amp(c, Amp(d, e))));
  }

  lemma LiteralParts()
    ensures '&' !in "scope=" + Scope
    ensures '&' !in "response_type=code"
  {
  }

  // ---- The local callback -------------------------------------------------

  /** Query parameters of a parsed URL, first value per name. */
  type Query = map<string, string>

  /** One request reaching the local listener, already parsed. */
  datatype Request = Request(path: string, query: Query)

  /** The HTTP status answered, and the outcome the request settles the flow with, if any. */
  datatype Reply = Reply(status: int, settled: Option<Result<string, AuthError>>)

  /** `url.searchParams.get(name)`, with the empty string standing in for
      `null` where only truthiness is tested. */
  function Param(q: Query, name: string): string {
    if name in q then q[name] else ""
  }

  /** The callback carries the state generated for this attempt. */
  predicate StateMatches(q: Query, state: string) {
    Param(q, "state") != "" && Param(q, "state") == state
  }

  /** The request handler of `authenticate`: on `/`, the state is checked
      first, then `error`, then `code`; anything else is a 404 that leaves
      the flow waiting. A code is accepted only together with the right
      state. */
  function HandleCallback(req: Request, state: string): (r: Reply)
    ensures r.status == 404 <==> r.settled.None?
    ensures req.path != "/" ==> r.status == 404
    ensures req.path == "/" && !StateMatches(req.query, state) ==> r == Reply(400, Some(Failure(InvalidState)))
    ensures req.path == "/" && StateMatches(req.query, state) && Param(req.query, "error") != "" ==>
      r == Reply(400, Some(Failure(OAuthError(Param(req.query, "error")))))
    ensures r.status == 200 <==> r.settled.Some? && r.settled.value.Success?
    ensures r.status == 200 ==>
      && req.path == "/" && StateMatches(req.query, state) && Param(req.query, "error") == ""
      && r.settled.value.value == Param(req.query, "code") != ""
    ensures req.path == "/" && StateMatches(req.query, state) && Param(req.query, "error") == "" ==>
      r == (if Param(req.query, "code") != "" then Reply(200, Some(Success(Param(req.query, "code")))) else Reply(404, None))
    ensures r.status in {200, 400, 404}
  {
    if req.path == "/" && !StateMatches(req.query, state) then
      Reply(400, Some(Failure(InvalidState)))
    else if req.path == "/" && Param(req.query, "error") != "" then
      Reply(400, Some(Failure(OAuthError(Param(req.query, "error")))))
    else if req.path == "/" && Param(req.query, "code") != "" then
      Reply(200, Some(Success(Param(req.query, "code"))))
    else
      Reply(404, None)
  }

  /** The statuses answered, and how the flow ended. */
  datatype Listened = Listened(replies: seq<int>, outcome: Result<string, AuthError>)

  /** The listener facing the requests that arrive before the timer fires:
      each is answered in turn; the first that settles ends the flow and
      closes the listener; if none does, the timeout ends it. */
  function Listen(reqs: seq<Request>, state: string): (r: Listened)
    ensures |r.replies| <= |reqs|
    ensures r.outcome == Failure(AuthTimeout) ==>
      && |r.replies| == |reqs|
      && forall i :: 0 <= i < |reqs| ==> r.replies[i] == 404 && HandleCallback(reqs[i], state).settled.None?
    ensures r.outcome != Failure(AuthTimeout) ==>
      && 0 < |r.replies|
      && (forall i :: 0 <= i < |r.replies| - 1 ==> r.replies[i] == 404 && HandleCallback(reqs[i], state).settled.None?)
      && HandleCallback(reqs[|r.replies| - 1], state) == Reply(r.replies[|r.replies| - 1], Some(r.outcome))
  {
    if reqs == [] then Listened([], Failure(AuthTimeout))
    else
      var reply := HandleCallback(reqs[0], state);
      if reply.settled.Some? then Listened([reply.status], reply.settled.value)
      else
        var rest := Listen(reqs[1..], state);
        Listened([404] + rest.replies, rest.outcome)
  }

  /** The automatic flow obtains a code only from a request that carried the
      generated state, on `/`, with no `error`. */
  lemma ListenGated(reqs: seq<Request>, state: string)
    requires Listen(reqs, state).outcome.Success?
    ensures exists i :: (0 <= i < |reqs| && reqs[i].path == "/" && StateMatches(reqs[i].query, state) &&
      Param(reqs[i].query, "code") == Listen(reqs, state).outcome.value)
  {
    var r := Listen(reqs, state);
    var k := |r.replies| - 1;
    assert HandleCallback(reqs[k], state).status == 200;
  }

  // ---- The manual paste ---------------------------------------------------

  /** The chunks joined in order. */
  function Concat(chunks: seq<string>): string {
    if chunks == [] then "" else Concat(chunks[..|chunks| - 1]) + chunks[|chunks| - 1]
  }

  /** How many chunks the input loop consumes: up to and including the first
      one that holds a newline, or all of them when the stream ends first. */
  function LineEnd(chunks: seq<string>): (n: nat)
    ensures n <= |chunks|
    ensures forall j :: 0 <= j < n - 1 ==> '\n' !in chunks[j]
    ensures n == |chunks| || (0 < n && '\n' in chunks[n - 1])
  {
    if chunks == [] then 0
    else if '\n' in chunks[0] then 1
    else 1 + LineEnd(chunks[1..])
  }

  /** The accumulation loop of `authenticateManual`: reads chunks until the
      accumulated input holds a newline or the stream is done. */
  method ReadInput(chunks: seq<string>) returns (input: string)
    ensures input == Concat(chunks[..LineEnd(chunks)])
  {
    input := "";
    var i := 0;
    while true
      invariant i <= |chunks|
      invariant input == Concat(chunks[..i])
      invariant '\n' !in input
      invariant forall j :: 0 <= j < i ==> '\n' !in chunks[j]
      decreases |chunks| - i
    {
      if i == |chunks| {
        break;
      }
      assert chunks[..i + 1][..i] == chunks[..i];
      input := input + chunks[i];
      i := i + 1;
      if '\n' in input {
        assert '\n' in chunks[i - 1];
        LineEndAt(chunks, i);
        return;
      }
    }
    LineEndAt(chunks, i);
  }

  /** The consumed count is the only one that fits the loop's stopping rule. */
  lemma LineEndAt(chunks: seq<string>, i: nat)
    requires i <= |chunks|
    requires forall j :: 0 <= j < i - 1 ==> '\n' !in chunks[j]
    requires (0 < i && '\n' in chunks[i - 1]) || (i == |chunks| && (i == 0 || '\n' !in chunks[i - 1]))
    ensures LineEnd(chunks) == i
  {
  }

  /** Why a pasted URL yields no code, before the causes are collapsed. */
  datatype UrlProblem = Unparsable | MissingState | StateMismatch | MissingCode

  /** The checks inside the `try` of `authenticateManual`, in their order. */
  function ExtractCode(parsed: Option<Query>, state: string): (r: Result<string, UrlProblem>)
    ensures r.Success? <==> parsed.Some? && StateMatches(parsed.value, state) && Param(parsed.value, "code") != ""
    ensures r.Success? ==> r.value == Param(parsed.value, "code")
    ensures parsed.Some? && Param(parsed.value, "state") == "" ==> r == Failure(MissingState)
  {
    match parsed
    case None => Failure(Unparsable)
    case Some(q) =>
      if Param(q, "state") == "" then Failure(MissingState)
      else if Param(q, "state") != state then Failure(StateMismatch)
      else if Param(q, "code") == "" then Failure(MissingCode)
      else Success(Param(q, "code"))
  }

  /** The gate on the pasted text: blank input is "No URL provided"; every
      other failure, whatever its cause, is the one "Invalid redirect URL"
      error naming the trimmed text; a code passes only with the right
      state. */
  function PasteGate(input: string, state: string, parse: string -> Option<Query>): (r: Result<string, AuthError>)
    ensures Trim(input) == "" <==> r == Failure(NoUrlProvided)
    ensures Trim(input) != "" && r.Failure? ==> r.error == InvalidRedirectUrl(Trim(input))
    ensures r.Success? <==>
      && Trim(input) != "" && parse(Trim(input)).Some?
      && StateMatches(parse(Trim(input)).value, state)
      && Param(parse(Trim(input)).value, "code") != ""
    ensures r.Success? ==> r.value == Param(parse(Trim(input)).value, "code")
  {
    var url := Trim(input);
    if url == "" then Failure(NoUrlProvided)
    else match ExtractCode(parse(url), state)
      case Success(code) => Success(code)
      case Failure(_) => Failure(InvalidRedirectUrl(url))
  }
}
