/** Channels: credentials and their masks, key pools, and the validation that guards them. */
module Channel {
  import opened Wrappers
  import opened Core
  import opened Modular
  import Utf8

  // --------------------------------------------------------------- credentials

  predicate IsWhitespace(c: char) {
    Utf8.IsWhiteSpace(c as int)
  }

  function TrimStart(s: string): string {
    if s != "" && IsWhitespace(s[0]) then TrimStart(s[1..]) else s
  }

  function TrimEnd(s: string): string {
    if s != "" && IsWhitespace(s[|s| - 1]) then TrimEnd(s[..|s| - 1]) else s
  }

  function Trim(s: string): string {
    TrimEnd(TrimStart(s))
  }

  const BULLET: char := '\U{2022}'
  const ELLIPSIS: char := '\U{2026}'

  datatype Credential = Credential(secret: string) {
    predicate IsEmpty() {
      Trim(secret) == ""
    }

    /** The form shown to administrators, like `sk-a…9f2c`. */
    function Masked(): string {
      var s := Trim(secret);
      if |s| <= 8 then seq(|s|, _ => BULLET) else s[..4] + [ELLIPSIS] + s[|s| - 4..]
    }
  }

  predicate AllWhitespace(s: string) {
    forall i :: 0 <= i < |s| ==> IsWhitespace(s[i])
  }

  lemma {:induction false} TrimStartMeans(s: string) returns (front: string)
    ensures AllWhitespace(front) && s == front + TrimStart(s)
    ensures TrimStart(s) != "" ==> !IsWhitespace(TrimStart(s)[0])
  {
    if s != "" && IsWhitespace(s[0]) {
      var others := TrimStartMeans(s[1..]);
      front := [s[0]] + others;
      assert s == [s[0]] + s[1..];
    } else {
      front := "";
    }
  }

  lemma {:induction false} TrimEndMeans(s: string) returns (back: string)
    ensures AllWhitespace(back) && s == TrimEnd(s) + back
    ensures TrimEnd(s) != "" ==> !IsWhitespace(TrimEnd(s)[|TrimEnd(s)| - 1])
  {
    if s != "" && IsWhitespace(s[|s| - 1]) {
      var others := TrimEndMeans(s[..|s| - 1]);
      back := others + [s[|s| - 1]];
      assert s == s[..|s| - 1] + [s[|s| - 1]];
    } else {
      back := "";
    }
  }

  /** Trimming cuts white space off both ends, nothing else, and leaves none there. */
  lemma TrimMeans(s: string) returns (front: string, back: string)
    ensures AllWhitespace(front) && AllWhitespace(back) && s == front + Trim(s) + back
    ensures Trim(s) != "" ==> !IsWhitespace(Trim(s)[0]) && !IsWhitespace(Trim(s)[|Trim(s)| - 1])
  {
    front := TrimStartMeans(s);
    back := TrimEndMeans(TrimStart(s));
    assert Trim(s) != "" ==> Trim(s)[0] == TrimStart(s)[0];
  }

  /** What a mask looks like: a bullet for every character of a short secret, else its ends around an ellipsis. */
  lemma MaskShows(c: Credential)
    ensures var s, mask := Trim(c.secret), c.Masked();
            if |s| <= 8 then |mask| == |s| && forall i :: 0 <= i < |mask| ==> mask[i] == '\U{2022}'
            else |mask| == 9 && mask[..4] == s[..4] && mask[4] == '\U{2026}' && mask[5..] == s[|s| - 4..]
  {
  }

  /**
   What a mask tells: of a secret of up to eight characters only the length, of a longer one only the
   first four and the last four characters. These are exactly the secrets that masks confuse.
   */
  lemma MaskTellsEndsOnly(a: Credential, b: Credential)
    ensures a.Masked() == b.Masked()
       <==> var s, t := Trim(a.secret), Trim(b.secret);
            if |s| <= 8 then |s| == |t| else |t| > 8 && s[..4] == t[..4] && s[|s| - 4..] == t[|t| - 4..]
  {
    var s, t := Trim(a.secret), Trim(b.secret);
    assert |s| > 8 ==> a.Masked()[..4] == s[..4] && a.Masked()[5..] == s[|s| - 4..];
    assert |t| > 8 ==> b.Masked()[..4] == t[..4] && b.Masked()[5..] == t[|t| - 4..];
  }

  // ----------------------------------------------------------------- key pools

  datatype KeyStrategy = Sticky | RoundRobin | Random

  datatype KeyPool = Single(key: Credential) | Pool(first: Credential, rest: seq<Credential>, strategy: KeyStrategy) {
    function Len(): (n: nat)
      ensures n >= 1
    {
      if Single? then 1 else |rest| + 1
    }

    function Strategy(): KeyStrategy {
      if Single? then RoundRobin else strategy
    }

    /** The key at a position; positions past the end wrap around. */
    function KeyAt(index: nat): Credential {
      match this
      case Single(key) => key
      case Pool(first, rest, _) =>
        var i := index % (|rest| + 1);
        if i == 0 then first else rest[i - 1]
    }
  }

  // ------------------------------------------------------------------ channels

  datatype UpstreamAddress = UpstreamAddress(unofficial: bool, baseUrl: Option<string>) {
    predicate BaseUrlMissing() {
      baseUrl.None? || Trim(baseUrl.value) == ""
    }
  }

  datatype ModelEntry = ModelEntry(name: string, upstream: Option<string>)

  datatype Endpoint = Endpoint(
    protocol: Protocol,
    credential: Option<Credential>,
    accepted: set<Protocol>,
    models: seq<ModelEntry>,
    address: UpstreamAddress)

  /** `native` is the protocol of a single-protocol channel; an aggregate has none. */
  datatype Channel = Channel(
    name: string,
    native: Option<Protocol>,
    credential: Credential,
    credentials: seq<Credential>,
    keyStrategy: KeyStrategy,
    address: UpstreamAddress,
    endpoints: seq<Endpoint>,
    extraHeaders: seq<(string, string)>,
    retryWindowSecs: Option<nat>,
    retryMax: Option<nat>)

  /** Endpoint override, then the default key with the pool behind it, then the bare pool. */
  function KeyPoolOf(channel: Channel, ep: Endpoint): KeyPool {
    if ep.credential.Some? && !ep.credential.value.IsEmpty() then Single(ep.credential.value)
    else if !channel.credential.IsEmpty() then
      if channel.credentials == [] then Single(channel.credential)
      else Pool(channel.credential, channel.credentials, channel.keyStrategy)
    else if channel.credentials == [] then Single(channel.credential)
    else Pool(channel.credentials[0], channel.credentials[1..], channel.keyStrategy)
  }

  datatype ChannelError =
    | EmptyName
    | NoEndpoints
    | EmptyPoolCredential
    | SingleMustHaveOneEndpoint(count: nat)
    | EndpointProtocolMismatch(expected: Protocol, actual: Protocol)
    | DuplicateProtocol(protocol: Protocol)
    | SelfTranscode(protocol: Protocol)
    | MissingCredential(protocol: Protocol)
    | EmptyModelName(protocol: Protocol)
    | EmptyUpstreamMapping(name: string)
    | MissingUnofficialBaseUrl(protocol: Protocol)
    | MissingDefaultUnofficialBaseUrl
    | InvalidExtraHeader(name: string)
    | ForbiddenExtraHeader(name: string)
    | InvalidExtraHeaderValue(name: string)
    | InvalidEmptyResponseRetry

  predicate LacksKey(channel: Channel, ep: Endpoint) {
    && (ep.credential.None? || ep.credential.value.IsEmpty())
    && channel.credential.IsEmpty() && channel.credentials == []
  }

  predicate GoodModel(m: ModelEntry) {
    Trim(m.name) != "" && (m.upstream.Some? ==> Trim(m.upstream.value) != "")
  }

  function ToLower(s: string): string {
    seq(|s|, i requires 0 <= i < |s| => if 'A' <= s[i] <= 'Z' then s[i] - 'A' + 'a' else s[i])
  }

  predicate IsHeaderName(s: string) {
    s != "" && forall i :: 0 <= i < |s| ==> '!' <= s[i] <= '~'
  }

  predicate IsManagedHeader(s: string) {
    s == "authorization" || s == "host" || s == "content-length" || s == "content-type" || s == "x-api-key"
  }

  predicate GoodHeader(header: (string, string)) {
    var normalized := ToLower(Trim(header.0));
    IsHeaderName(normalized) && !IsManagedHeader(normalized) && '\r' !in header.1 && '\n' !in header.1
  }

  /** The same character, or the same letter in the other case. */
  predicate SameLetter(a: char, b: char) {
    || a == b
    || ('A' <= a <= 'Z' && b as int == a as int + 32)
    || ('A' <= b <= 'Z' && a as int == b as int + 32)
  }

  predicate SameIgnoringCase(s: string, t: string) {
    |s| == |t| && forall i :: 0 <= i < |s| ==> SameLetter(s[i], t[i])
  }

  /** A name without upper-case letters. */
  predicate IsLower(s: string) {
    forall i :: 0 <= i < |s| ==> !('A' <= s[i] <= 'Z')
  }

  lemma LowerIsSame(s: string, t: string)
    requires IsLower(t)
    ensures ToLower(s) == t <==> SameIgnoringCase(s, t)
  {
    if SameIgnoringCase(s, t) {
      forall i | 0 <= i < |s|
        ensures ToLower(s)[i] == t[i]
      {
        assert SameLetter(s[i], t[i]);
      }
    }
    if ToLower(s) == t {
      forall i | 0 <= i < |s|
        ensures SameLetter(s[i], t[i])
      {
        assert ToLower(s)[i] == t[i];
      }
    }
  }

  /** The headers that the gateway sets itself, in any spelling. */
  predicate NamesManaged(name: string) {
    || SameIgnoringCase(name, "authorization") || SameIgnoringCase(name, "host")
    || SameIgnoringCase(name, "content-length") || SameIgnoringCase(name, "content-type")
    || SameIgnoringCase(name, "x-api-key")
  }

  /**
   Which extra headers are allowed: the name, less white space around it, is visible ASCII and none
   of the gateway's own up to letter case, and the value breaks no line.
   */
  lemma HeaderIsGoodIff(name: string, value: string)
    ensures var bare := Trim(name);
            GoodHeader((name, value))
            <==> bare != "" && (forall i :: 0 <= i < |bare| ==> 33 <= bare[i] as int <= 126)
                 && !NamesManaged(bare) && '\n' !in value && '\r' !in value
  {
    var bare := Trim(name);
    LowerIsSame(bare, "authorization");
    LowerIsSame(bare, "host");
    LowerIsSame(bare, "content-length");
    LowerIsSame(bare, "content-type");
    LowerIsSame(bare, "x-api-key");
    LowerKeepsVisible(bare);
  }

  lemma LowerKeepsVisible(s: string)
    ensures IsHeaderName(ToLower(s)) <==> s != "" && forall i :: 0 <= i < |s| ==> 33 <= s[i] as int <= 126
  {
    forall i | 0 <= i < |s|
      ensures '!' <= ToLower(s)[i] <= '~' <==> 33 <= s[i] as int <= 126
    {
    }
    assert |ToLower(s)| == |s|;
  }

  predicate GoodEndpoint(channel: Channel, ep: Endpoint) {
    && ep.protocol !in ep.accepted
    && !LacksKey(channel, ep)
    && (forall i :: 0 <= i < |ep.models| ==> GoodModel(ep.models[i]))
    && !(ep.address.unofficial && ep.address.BaseUrlMissing())
  }

  predicate UniqueProtocols(endpoints: seq<Endpoint>) {
    forall i, j :: 0 <= i < j < |endpoints| ==> endpoints[i].protocol != endpoints[j].protocol
  }

  /** What storage relies on. */
  predicate WellFormed(channel: Channel) {
    && Trim(channel.name) != ""
    && channel.endpoints != []
    && (forall i :: 0 <= i < |channel.credentials| ==> !channel.credentials[i].IsEmpty())
    && (channel.native.Some? ==> |channel.endpoints| == 1 && channel.endpoints[0].protocol == channel.native.value)
    && UniqueProtocols(channel.endpoints)
    && (forall i :: 0 <= i < |channel.endpoints| ==> GoodEndpoint(channel, channel.endpoints[i]))
    && !(channel.address.unofficial && channel.address.BaseUrlMissing())
    && (forall i :: 0 <= i < |channel.extraHeaders| ==> GoodHeader(channel.extraHeaders[i]))
    && (channel.retryWindowSecs.Some? ==> channel.retryWindowSecs.value <= 3600)
    && (channel.retryMax.Some? ==> channel.retryMax.value <= 100)
  }

  predicate EndpointHas(channel: Channel, ep: Endpoint, problem: ChannelError) {
    match problem
    case SelfTranscode(protocol) => ep.protocol == protocol && protocol in ep.accepted
    case MissingCredential(protocol) => ep.protocol == protocol && LacksKey(channel, ep)
    case EmptyModelName(protocol) =>
      ep.protocol == protocol && exists i :: 0 <= i < |ep.models| && Trim(ep.models[i].name) == ""
    case EmptyUpstreamMapping(name) =>
      exists i :: 0 <= i < |ep.models| && ep.models[i].name == name
                  && ep.models[i].upstream.Some? && Trim(ep.models[i].upstream.value) == ""
    case MissingUnofficialBaseUrl(protocol) =>
      ep.protocol == protocol && ep.address.unofficial && ep.address.BaseUrlMissing()
    case _ => false
  }

  predicate HeaderHas(header: (string, string), problem: ChannelError) {
    match problem
    case InvalidExtraHeader(name) => header.0 == name && !IsHeaderName(ToLower(Trim(name)))
    case ForbiddenExtraHeader(name) => ToLower(Trim(header.0)) == name && IsManagedHeader(name)
    case InvalidExtraHeaderValue(name) => header.0 == name && ('\r' in header.1 || '\n' in header.1)
    case _ => false
  }

  /** What an error says of the channel, where it says it. */
  predicate Has(channel: Channel, problem: ChannelError) {
    match problem
    case EmptyName => Trim(channel.name) == ""
    case NoEndpoints => channel.endpoints == []
    case EmptyPoolCredential => exists i :: 0 <= i < |channel.credentials| && channel.credentials[i].IsEmpty()
    case SingleMustHaveOneEndpoint(count) => channel.native.Some? && count == |channel.endpoints| != 1
    case EndpointProtocolMismatch(expected, actual) =>
      channel.native == Some(expected) && expected != actual
      && |channel.endpoints| == 1 && channel.endpoints[0].protocol == actual
    case DuplicateProtocol(protocol) =>
      exists i, j :: 0 <= i < j < |channel.endpoints|
                     && channel.endpoints[i].protocol == channel.endpoints[j].protocol == protocol
    case MissingDefaultUnofficialBaseUrl => channel.address.unofficial && channel.address.BaseUrlMissing()
    case InvalidEmptyResponseRetry =>
      (channel.retryWindowSecs.Some? && channel.retryWindowSecs.value > 3600)
      || (channel.retryMax.Some? && channel.retryMax.value > 100)
    case _ =>
      || (exists i :: 0 <= i < |channel.endpoints| && EndpointHas(channel, channel.endpoints[i], problem))
      || (exists i :: 0 <= i < |channel.extraHeaders| && HeaderHas(channel.extraHeaders[i], problem))
  }

  /** Checks that a channel may be stored: an error exactly when it is not well-formed, and a true one. */
  method Validate(channel: Channel) returns (problem: Option<ChannelError>)
    ensures problem.None? <==> WellFormed(channel)
    ensures problem.Some? ==> Has(channel, problem.value)
  {
    if Trim(channel.name) == "" {
      return Some(EmptyName);
    }
    if channel.endpoints == [] {
      return Some(NoEndpoints);
    }
    if exists i :: 0 <= i < |channel.credentials| && channel.credentials[i].IsEmpty() {
      return Some(EmptyPoolCredential);
    }
    if channel.native.Some? {
      if |channel.endpoints| != 1 {
        return Some(SingleMustHaveOneEndpoint(|channel.endpoints|));
      }
      if channel.endpoints[0].protocol != channel.native.value {
        return Some(EndpointProtocolMismatch(channel.native.value, channel.endpoints[0].protocol));
      }
    }
    problem := ValidateEndpoints(channel);
    if problem.Some? {
      return;
    }
    if channel.address.unofficial && channel.address.BaseUrlMissing() {
      return Some(MissingDefaultUnofficialBaseUrl);
    }
    problem := ValidateHeaders(channel.extraHeaders);
    if problem.Some? {
      return;
    }
    if (channel.retryWindowSecs.Some? && channel.retryWindowSecs.value > 3600)
       || (channel.retryMax.Some? && channel.retryMax.value > 100) {
      return Some(InvalidEmptyResponseRetry);
    }
    return None;
  }

  predicate EndpointsHave(channel: Channel, problem: ChannelError) {
    if problem.DuplicateProtocol? then Has(channel, problem)
    else exists i :: 0 <= i < |channel.endpoints| && EndpointHas(channel, channel.endpoints[i], problem)
  }

  method ValidateEndpoints(channel: Channel) returns (problem: Option<ChannelError>)
    ensures problem.None?
       <==> UniqueProtocols(channel.endpoints)
            && forall i :: 0 <= i < |channel.endpoints| ==> GoodEndpoint(channel, channel.endpoints[i])
    ensures problem.Some? ==> EndpointsHave(channel, problem.value)
  {
    var seen: set<Protocol> := {};
    for k := 0 to |channel.endpoints|
      invariant forall p :: p in seen <==> exists i :: 0 <= i < k && channel.endpoints[i].protocol == p
      invariant UniqueProtocols(channel.endpoints[..k])
      invariant forall i :: 0 <= i < k ==> GoodEndpoint(channel, channel.endpoints[i])
    {
      var ep := channel.endpoints[k];
      if ep.protocol in seen {
        return Some(DuplicateProtocol(ep.protocol));
      }
      seen := seen + {ep.protocol};
      problem := ValidateEndpoint(channel, ep);
      if problem.Some? {
        return;
      }
    }
    assert channel.endpoints[..|channel.endpoints|] == channel.endpoints;
    return None;
  }

  method ValidateHeaders(headers: seq<(string, string)>) returns (problem: Option<ChannelError>)
    ensures problem.None? <==> forall i :: 0 <= i < |headers| ==> GoodHeader(headers[i])
    ensures problem.Some? ==> exists i :: 0 <= i < |headers| && HeaderHas(headers[i], problem.value)
  {
    for k := 0 to |headers|
      invariant forall i :: 0 <= i < k ==> GoodHeader(headers[i])
    {
      var (name, value) := headers[k];
      var normalized := ToLower(Trim(name));
      if !IsHeaderName(normalized) {
        return Some(InvalidExtraHeader(name));
      }
      if IsManagedHeader(normalized) {
        return Some(ForbiddenExtraHeader(normalized));
      }
      if '\r' in value || '\n' in value {
        return Some(InvalidExtraHeaderValue(name));
      }
    }
    return None;
  }

  method ValidateEndpoint(channel: Channel, ep: Endpoint) returns (problem: Option<ChannelError>)
    ensures problem.None? <==> GoodEndpoint(channel, ep)
    ensures problem.Some? ==> EndpointHas(channel, ep, problem.value)
  {
    if ep.protocol in ep.accepted {
      return Some(SelfTranscode(ep.protocol));
    }
    if LacksKey(channel, ep) {
      return Some(MissingCredential(ep.protocol));
    }
    for k := 0 to |ep.models|
      invariant forall i :: 0 <= i < k ==> GoodModel(ep.models[i])
    {
      if Trim(ep.models[k].name) == "" {
        return Some(EmptyModelName(ep.protocol));
      }
      if ep.models[k].upstream.Some? && Trim(ep.models[k].upstream.value) == "" {
        return Some(EmptyUpstreamMapping(ep.models[k].name));
      }
    }
    if ep.address.unofficial && ep.address.BaseUrlMissing() {
      return Some(MissingUnofficialBaseUrl(ep.protocol));
    }
    return None;
  }

  /** An address that is marked unofficial names its base. */
  predicate NamesItsBase(address: UpstreamAddress) {
    address.unofficial ==> address.baseUrl.Some? && Trim(address.baseUrl.value) != ""
  }

  /** An endpoint has some key to use: its own, the default one, or the pool's. */
  predicate HasSomeKey(channel: Channel, ep: Endpoint) {
    || (ep.credential.Some? && Trim(ep.credential.value.secret) != "")
    || Trim(channel.credential.secret) != "" || |channel.credentials| > 0
  }

  predicate IsServable(channel: Channel, ep: Endpoint) {
    && ep.protocol !in ep.accepted && HasSomeKey(channel, ep) && NamesItsBase(ep.address)
    && forall i :: 0 <= i < |ep.models| ==>
         Trim(ep.models[i].name) != ""
         && (ep.models[i].upstream.Some? ==> Trim(ep.models[i].upstream.value) != "")
  }

  lemma EndpointIsGoodIff(channel: Channel, ep: Endpoint)
    ensures GoodEndpoint(channel, ep) <==> IsServable(channel, ep)
  {
    if IsServable(channel, ep) {
      assert forall i :: 0 <= i < |ep.models| ==> GoodModel(ep.models[i]);
    }
    if GoodEndpoint(channel, ep) {
      forall i | 0 <= i < |ep.models|
        ensures Trim(ep.models[i].name) != ""
                && (ep.models[i].upstream.Some? ==> Trim(ep.models[i].upstream.value) != "")
      {
        assert GoodModel(ep.models[i]);
      }
    }
  }

  /** What a channel needs to be stored, and all that it needs. */
  lemma WellFormedIff(channel: Channel)
    ensures WellFormed(channel)
       <==> && Trim(channel.name) != "" && |channel.endpoints| >= 1
            && (channel.native.Some? ==>
                  |channel.endpoints| == 1 && channel.endpoints[0].protocol == channel.native.value)
            && (forall i, j :: 0 <= i < j < |channel.endpoints| ==>
                  channel.endpoints[i].protocol != channel.endpoints[j].protocol)
            && (forall i :: 0 <= i < |channel.credentials| ==> Trim(channel.credentials[i].secret) != "")
            && (forall i :: 0 <= i < |channel.endpoints| ==> IsServable(channel, channel.endpoints[i]))
            && NamesItsBase(channel.address)
            && (forall i :: 0 <= i < |channel.extraHeaders| ==> GoodHeader(channel.extraHeaders[i]))
            && (channel.retryWindowSecs.Some? ==> channel.retryWindowSecs.value <= 3600)
            && (channel.retryMax.Some? ==> channel.retryMax.value <= 100)
  {
    forall i | 0 <= i < |channel.endpoints|
      ensures GoodEndpoint(channel, channel.endpoints[i]) <==> IsServable(channel, channel.endpoints[i])
    {
      EndpointIsGoodIff(channel, channel.endpoints[i]);
    }
    forall i | 0 <= i < |channel.credentials|
      ensures channel.credentials[i].IsEmpty() <==> Trim(channel.credentials[i].secret) == ""
    {
    }
  }

  /** The keys of a pool in the order of their positions. */
  function KeysInOrder(pool: KeyPool): seq<Credential> {
    seq(pool.Len(), i requires i >= 0 => pool.KeyAt(i))
  }

  /** An endpoint's own key shuts out all others; else the default key, if any, comes before the pool rows. */
  lemma PoolHoldsConfiguredKeys(channel: Channel, ep: Endpoint)
    ensures KeysInOrder(KeyPoolOf(channel, ep))
         == if ep.credential.Some? && !ep.credential.value.IsEmpty() then [ep.credential.value]
            else if channel.credential.IsEmpty() && channel.credentials != [] then channel.credentials
            else [channel.credential] + channel.credentials
  {
    var pool := KeyPoolOf(channel, ep);
    var keys := KeysInOrder(pool);
    forall i | 0 <= i < pool.Len()
      ensures keys[i] == if pool.Single? then pool.key else ([pool.first] + pool.rest)[i]
    {
      ModSmall(i, pool.Len());
    }
  }

  /** In a stored channel no position of any endpoint's key pool yields an empty key. */
  lemma StoredPoolsHaveNoEmptyKey(channel: Channel, ep: Endpoint, index: nat)
    requires WellFormed(channel) && ep in channel.endpoints
    ensures !KeyPoolOf(channel, ep).KeyAt(index).IsEmpty()
  {
    var i :| 0 <= i < |channel.endpoints| && channel.endpoints[i] == ep;
    assert GoodEndpoint(channel, channel.endpoints[i]);
    var pool := KeyPoolOf(channel, ep);
    if pool.Pool? {
      var k := index % (|pool.rest| + 1);
      if k > 0 {
        var shift := if channel.credential.IsEmpty() then 0 else 1;
        assert pool.rest[k - 1] == channel.credentials[k - shift];
      }
    }
  }
}
