/**
 The channel-affinity cache: identity values pinned to channels, with a sliding TTL, a capacity
 bound with least-recently-used eviction, statistics and hot reload. Every locked method of the
 source is one step that reads the clock once; regexes and JSON documents are given as functions.
 */
module Affinity {
  import opened Wrappers
  import opened Core

  /** Instants count nanoseconds. */
  const SECOND: nat := 1_000_000_000

  const NUL: char := '\0'

  // ------------------------------------------------------------------ matching

  datatype KeySource = ApiKeyId | Header(name: string) | Body(path: string)

  /** What a JSON Pointer leads to, with numbers in their printed form. */
  datatype JsonValue = JsonString(s: string) | JsonNumber(text: string) | JsonBool(b: bool) | JsonOther

  datatype RequestContext = RequestContext(
    model: string,
    path: string,
    apiKeyId: Option<string>,
    headers: map<string, string>,
    body: Option<map<string, JsonValue>>)

  datatype CompiledRule = CompiledRule(
    name: string,
    modelRe: Option<string -> bool>,
    pathRe: Option<string -> bool>,
    sources: seq<KeySource>,
    valueRe: Option<string -> bool>,
    ttlSecs: nat,
    includeModel: bool,
    skipRetryOnFailure: bool)

  datatype Decision = Decision(
    ruleName: string,
    cacheKey: string,
    binding: Option<ChannelId>,
    skipRetryOnFailure: bool,
    ttlSecs: nat)

  function JsonPointerScalar(body: map<string, JsonValue>, pointer: string): Option<string> {
    if pointer == "" || pointer !in body then None
    else
      match body[pointer]
      case JsonString(s) => if s == "" then None else Some(s)
      case JsonNumber(text) => Some(text)
      case JsonBool(b) => Some(if b then "true" else "false")
      case JsonOther => None
  }

  function SourceValue(source: KeySource, ctx: RequestContext): Option<string> {
    match source
    case ApiKeyId => ctx.apiKeyId
    case Header(name) => if name in ctx.headers && ctx.headers[name] != "" then Some(ctx.headers[name]) else None
    case Body(path) => if ctx.body.Some? then JsonPointerScalar(ctx.body.value, path) else None
  }

  /** The value of the first source that has one. */
  function ExtractValue(sources: seq<KeySource>, ctx: RequestContext): Option<string> {
    if sources == [] then None
    else if SourceValue(sources[0], ctx).Some? then SourceValue(sources[0], ctx)
    else ExtractValue(sources[1..], ctx)
  }

  function ModelPart(includeModel: bool, model: string): string {
    if includeModel then model else ""
  }

  function BuildCacheKey(ruleName: string, includeModel: bool, model: string, value: string): string {
    ruleName + [NUL] + ModelPart(includeModel, model) + [NUL] + value
  }

  predicate Accepts(re: Option<string -> bool>, text: string) {
    re.Some? ==> re.value(text)
  }

  function MatchRule(rule: CompiledRule, ctx: RequestContext): Option<Decision> {
    if !Accepts(rule.modelRe, ctx.model) || !Accepts(rule.pathRe, ctx.path) then None
    else
      var value := ExtractValue(rule.sources, ctx);
      if value.None? || !Accepts(rule.valueRe, value.value) then None
      else Some(Decision(rule.name, BuildCacheKey(rule.name, rule.includeModel, ctx.model, value.value),
                         None, rule.skipRetryOnFailure, rule.ttlSecs))
  }

  /** The first rule that yields an identity decides. */
  function FirstMatch(rules: seq<CompiledRule>, ctx: RequestContext): Option<Decision> {
    if rules == [] then None
    else if MatchRule(rules[0], ctx).Some? then MatchRule(rules[0], ctx)
    else FirstMatch(rules[1..], ctx)
  }

  // --------------------------------------------------------------------- state

  datatype Entry = Entry(channel: ChannelId, expiresAt: nat, lastUsed: nat)

  datatype Stats = Stats(hits: nat, misses: nat, records: nat, forgets: nat, evictions: nat, entries: nat)

  datatype EngineState = EngineState(
    enabled: bool,
    switchOnSuccess: bool,
    keepOnChannelDisabled: bool,
    rules: seq<CompiledRule>,
    maxEntries: nat,
    entries: map<string, Entry>,
    stats: Stats)

  const NEW_ENGINE := EngineState(false, false, false, [], 0, map[], Stats(0, 0, 0, 0, 0, 0))

  function Written(channel: ChannelId, now: nat, ttlSecs: nat): Entry {
    Entry(channel, now + ttlSecs * SECOND, now)
  }

  function Unexpired(entries: map<string, Entry>, now: nat): map<string, Entry> {
    map key | key in entries && entries[key].expiresAt > now :: entries[key]
  }

  function NotBoundTo(entries: map<string, Entry>, channel: ChannelId): map<string, Entry> {
    map key | key in entries && entries[key].channel != channel :: entries[key]
  }

  function Gone(all: map<string, Entry>, kept: map<string, Entry>): nat {
    if |kept| <= |all| then |all| - |kept| else 0
  }

  /** The matched rule's decision with the binding the cache has for it; a hit slides the expiry. */
  function Resolved(s: EngineState, ctx: RequestContext, now: nat): (EngineState, Option<Decision>) {
    var m := FirstMatch(s.rules, ctx);
    if !s.enabled || m.None? then (s, None)
    else
      var d := m.value;
      if d.cacheKey !in s.entries then
        (s.(stats := s.stats.(misses := s.stats.misses + 1)), Some(d))
      else
        var entry := s.entries[d.cacheKey];
        if entry.expiresAt > now then
          (s.(entries := s.entries[d.cacheKey := Written(entry.channel, now, d.ttlSecs)],
              stats := s.stats.(hits := s.stats.hits + 1)),
           Some(d.(binding := Some(entry.channel))))
        else
          (s.(entries := s.entries - {d.cacheKey},
              stats := s.stats.(evictions := s.stats.evictions + 1, misses := s.stats.misses + 1)),
           Some(d))
  }

  /** `victim` is a legal choice of the eviction: an oldest survivor if they still fill the cache, nobody otherwise. */
  predicate LegalVictim(s: EngineState, now: nat, victim: Option<string>) {
    var live := Unexpired(s.entries, now);
    if |live| >= s.maxEntries && |live| > 0
    then victim.Some? && victim.value in live
         && forall key :: key in live ==> live[victim.value].lastUsed <= live[key].lastUsed
    else victim.None?
  }

  function Evicted(s: EngineState, now: nat, victim: Option<string>): EngineState {
    var live := Unexpired(s.entries, now);
    var kept := if victim.Some? then live - {victim.value} else live;
    s.(entries := kept, stats := s.stats.(evictions := s.stats.evictions + Gone(s.entries, kept)))
  }

  /** A binding to another channel is kept unless the engine switches on success. */
  predicate Refused(s: EngineState, key: string, winner: ChannelId) {
    key in s.entries && s.entries[key].channel != winner && !s.switchOnSuccess
  }

  predicate NeedsRoom(s: EngineState) {
    |s.entries| >= s.maxEntries
  }

  predicate LegalRecord(s: EngineState, key: string, winner: ChannelId, now: nat, victim: Option<string>) {
    if !Refused(s, key, winner) && NeedsRoom(s) then LegalVictim(s, now, victim) else victim.None?
  }

  function BeforeInsert(s: EngineState, now: nat, victim: Option<string>): EngineState {
    if NeedsRoom(s) then Evicted(s, now, victim) else s
  }

  function Recorded(s: EngineState, key: string, ttlSecs: nat, winner: ChannelId, now: nat, victim: Option<string>)
    : EngineState
  {
    if Refused(s, key, winner) then s
    else
      var roomy := BeforeInsert(s, now, victim);
      roomy.(entries := roomy.entries[key := Written(winner, now, ttlSecs)],
             stats := roomy.stats.(records := roomy.stats.records + 1))
  }

  function Forgotten(s: EngineState, key: string): EngineState {
    if key in s.entries
    then s.(entries := s.entries - {key}, stats := s.stats.(forgets := s.stats.forgets + 1)) else s
  }

  function ForgottenIfBoundTo(s: EngineState, key: string, channel: ChannelId): EngineState {
    if key in s.entries && s.entries[key].channel == channel then Forgotten(s, key) else s
  }

  function ChannelForgotten(s: EngineState, channel: ChannelId): EngineState {
    var kept := NotBoundTo(s.entries, channel);
    s.(entries := kept, stats := s.stats.(forgets := s.stats.forgets + Gone(s.entries, kept)))
  }

  function Cleared(s: EngineState): EngineState {
    s.(entries := map[], stats := s.stats.(forgets := s.stats.forgets + |s.entries|))
  }

  /** A statistics snapshot drops what has expired first. */
  function Swept(s: EngineState, now: nat): EngineState {
    var kept := Unexpired(s.entries, now);
    s.(entries := kept,
       stats := s.stats.(evictions := s.stats.evictions + Gone(s.entries, kept), entries := |kept|))
  }

  lemma SubmapIsSmaller(kept: map<string, Entry>, all: map<string, Entry>)
    requires kept.Keys <= all.Keys
    ensures |kept| <= |all|
  {
    var extra := all.Keys - kept.Keys;
    assert all.Keys == kept.Keys + extra;
    assert |all.Keys| == |all| && |kept.Keys| == |kept|;
  }

  lemma RemovedKeyCounts(m: map<string, Entry>, key: string)
    requires key in m
    ensures |m - {key}| == |m| - 1
  {
    var rest := m - {key};
    assert m.Keys == rest.Keys + {key};
    assert |m.Keys| == |m| && |rest.Keys| == |rest|;
  }

  lemma VictimCounts(all: map<string, Entry>, live: map<string, Entry>, victim: string)
    requires live.Keys <= all.Keys && victim in live
    ensures Gone(all, live - {victim}) == Gone(all, live) + 1
  {
    SubmapIsSmaller(live, all);
    RemovedKeyCounts(live, victim);
  }

  // ------------------------------------------------------------------ settings

  datatype AffinityRule = AffinityRule(
    name: string,
    modelRegex: string,
    pathRegex: string,
    sources: seq<KeySource>,
    valueRegex: string,
    ttlSecs: Option<nat>,
    includeModel: bool,
    skipRetryOnFailure: bool)

  datatype AffinitySettings = AffinitySettings(
    enabled: bool,
    switchOnSuccess: bool,
    keepOnChannelDisabled: bool,
    maxEntries: nat,
    defaultTtlSecs: nat,
    rules: seq<AffinityRule>)

  /** A regex compiler: no matcher for a pattern it does not accept. */
  type Compiler = string -> Option<string -> bool>

  predicate Compiles(text: string, regex: Compiler) {
    text == "" || regex(text).Some?
  }

  function EffectiveTtl(rule: AffinityRule, defaultSecs: nat): nat {
    var ttl := if rule.ttlSecs.Some? then rule.ttlSecs.value else defaultSecs;
    if ttl < 1 then 1 else ttl
  }

  function CompileRule(rule: AffinityRule, defaultSecs: nat, regex: Compiler): Option<CompiledRule> {
    if Compiles(rule.modelRegex, regex) && Compiles(rule.pathRegex, regex) && Compiles(rule.valueRegex, regex)
    then Some(CompiledRule(rule.name,
                           if rule.modelRegex == "" then None else regex(rule.modelRegex),
                           if rule.pathRegex == "" then None else regex(rule.pathRegex),
                           rule.sources,
                           if rule.valueRegex == "" then None else regex(rule.valueRegex),
                           EffectiveTtl(rule, defaultSecs), rule.includeModel, rule.skipRetryOnFailure))
    else None
  }

  /** The rules that compile, in order; a bad rule hurts only itself. */
  function CompileRules(rules: seq<AffinityRule>, defaultSecs: nat, regex: Compiler): seq<CompiledRule> {
    if rules == [] then []
    else
      var last := CompileRule(rules[|rules| - 1], defaultSecs, regex);
      CompileRules(rules[..|rules| - 1], defaultSecs, regex) + (if last.Some? then [last.value] else [])
  }

  function Loaded(s: EngineState, settings: AffinitySettings, regex: Compiler): EngineState {
    s.(enabled := settings.enabled, switchOnSuccess := settings.switchOnSuccess,
       keepOnChannelDisabled := settings.keepOnChannelDisabled, maxEntries := settings.maxEntries,
       rules := CompileRules(settings.rules, settings.defaultTtlSecs, regex))
  }

  // -------------------------------------------------------------------- engine

  class AffinityEngine {
    var enabled: bool
    var switchOnSuccess: bool
    var keepOnChannelDisabled: bool
    var rules: seq<CompiledRule>
    var maxEntries: nat
    var entries: map<string, Entry>
    var stats: Stats

    ghost function View(): EngineState
      reads this
    {
      EngineState(enabled, switchOnSuccess, keepOnChannelDisabled, rules, maxEntries, entries, stats)
    }

    constructor ()
      ensures View() == NEW_ENGINE
    {
      enabled, switchOnSuccess, keepOnChannelDisabled := false, false, false;
      rules, maxEntries := [], 0;
      entries := map[];
      stats := Stats(0, 0, 0, 0, 0, 0);
    }

    /** Replaces rules and parameters; the bindings stay. */
    method Load(settings: AffinitySettings, regex: Compiler)
      modifies this
      ensures View() == Loaded(old(View()), settings, regex)
    {
      var compiled := [];
      for i := 0 to |settings.rules|
        invariant compiled == CompileRules(settings.rules[..i], settings.defaultTtlSecs, regex)
      {
        assert settings.rules[..i + 1][..i] == settings.rules[..i];
        var rule := CompileRule(settings.rules[i], settings.defaultTtlSecs, regex);
        if rule.Some? {
          compiled := compiled + [rule.value];
        }
      }
      assert settings.rules[..|settings.rules|] == settings.rules;
      enabled := settings.enabled;
      switchOnSuccess := settings.switchOnSuccess;
      keepOnChannelDisabled := settings.keepOnChannelDisabled;
      maxEntries := settings.maxEntries;
      rules := compiled;
    }

    method Resolve(ctx: RequestContext, now: nat) returns (decision: Option<Decision>)
      modifies this
      ensures (View(), decision) == Resolved(old(View()), ctx, now)
    {
      if !enabled {
        return None;
      }
      var matched := FirstMatch(rules, ctx);
      if matched.None? {
        return None;
      }
      var d := matched.value;
      if d.cacheKey !in entries {
        stats := stats.(misses := stats.misses + 1);
        return Some(d);
      }
      var entry := entries[d.cacheKey];
      if entry.expiresAt > now {
        stats := stats.(hits := stats.hits + 1);
        entries := entries[d.cacheKey := Entry(entry.channel, now + d.ttlSecs * SECOND, now)];
        return Some(d.(binding := Some(entry.channel)));
      }
      entries := entries - {d.cacheKey};
      stats := stats.(evictions := stats.evictions + 1, misses := stats.misses + 1);
      return Some(d);
    }

    method Record(decision: Decision, winner: ChannelId, now: nat) returns (ghost victim: Option<string>)
      modifies this
      ensures LegalRecord(old(View()), decision.cacheKey, winner, now, victim)
      ensures View() == Recorded(old(View()), decision.cacheKey, decision.ttlSecs, winner, now, victim)
    {
      victim := None;
      if decision.cacheKey in entries && entries[decision.cacheKey].channel != winner && !switchOnSuccess {
        return;
      }
      if |entries| >= maxEntries {
        victim := EvictExpiredOrOldest(now);
      }
      entries := entries[decision.cacheKey := Entry(winner, now + decision.ttlSecs * SECOND, now)];
      stats := stats.(records := stats.records + 1);
    }

    /** Drops what has expired and, if the rest still fills the cache, a least recently used entry. */
    method EvictExpiredOrOldest(now: nat) returns (ghost victim: Option<string>)
      modifies this`entries, this`stats
      ensures LegalVictim(old(View()), now, victim) && View() == Evicted(old(View()), now, victim)
    {
      var before := |entries|;
      ghost var all := entries;
      entries := Unexpired(entries, now);
      ghost var live := entries;
      SubmapIsSmaller(live, all);
      assert before - |live| == Gone(all, live);
      stats := stats.(evictions := stats.evictions + (before - |entries|));
      victim := None;
      if |entries| >= maxEntries && |entries| > 0 {
        var oldest := OldestKey(entries);
        VictimCounts(all, live, oldest);
        entries := entries - {oldest};
        stats := stats.(evictions := stats.evictions + 1);
        victim := Some(oldest);
      }
    }

    /** `min_by_key` on the last use, in whatever order the hash map is iterated. */
    static method OldestKey(m: map<string, Entry>) returns (oldest: string)
      requires |m| > 0
      ensures oldest in m && forall key :: key in m ==> m[oldest].lastUsed <= m[key].lastUsed
    {
      var rest := m.Keys;
      assert |m.Keys| == |m|;
      oldest :| oldest in rest;
      rest := rest - {oldest};
      while rest != {}
        invariant rest <= m.Keys && oldest in m
        invariant forall key :: key in m && key !in rest ==> m[oldest].lastUsed <= m[key].lastUsed
        decreases rest
      {
        var key :| key in rest;
        if m[key].lastUsed < m[oldest].lastUsed {
          oldest := key;
        }
        rest := rest - {key};
      }
    }

    method Forget(cacheKey: string)
      modifies this`entries, this`stats
      ensures View() == Forgotten(old(View()), cacheKey)
    {
      if cacheKey in entries {
        entries := entries - {cacheKey};
        stats := stats.(forgets := stats.forgets + 1);
      }
    }

    method ForgetIfBoundTo(cacheKey: string, channel: ChannelId)
      modifies this`entries, this`stats
      ensures View() == ForgottenIfBoundTo(old(View()), cacheKey, channel)
    {
      if cacheKey in entries && entries[cacheKey].channel == channel {
        Forget(cacheKey);
      }
    }

    method ForgetChannel(channel: ChannelId)
      modifies this`entries, this`stats
      ensures View() == ChannelForgotten(old(View()), channel)
    {
      var before := |entries|;
      ghost var all := entries;
      entries := NotBoundTo(entries, channel);
      SubmapIsSmaller(entries, all);
      stats := stats.(forgets := stats.forgets + (before - |entries|));
    }

    method Clear() returns (n: nat)
      modifies this`entries, this`stats
      ensures View() == Cleared(old(View())) && n == |old(entries)|
    {
      n := |entries|;
      entries := map[];
      stats := stats.(forgets := stats.forgets + n);
    }

    method Snapshot(now: nat) returns (snapshot: Stats)
      modifies this`entries, this`stats
      ensures View() == Swept(old(View()), now) && snapshot == stats
    {
      var before := |entries|;
      ghost var all := entries;
      entries := Unexpired(entries, now);
      SubmapIsSmaller(entries, all);
      stats := stats.(evictions := stats.evictions + (before - |entries|), entries := |entries|);
      snapshot := stats;
    }
  }
}
