/**
 Stickiness of the affinity cache: what keeps a binding, what ends it, and how long a session is
 served the same channel, under reloads, pressure and other traffic.
 */
module AffinitySessions {
  import opened Wrappers
  import opened Core
  import opened Affinity
  import opened AffinityProofs

  // ------------------------------------------------------------------ stickiness

  /** A record of another channel, with switching on. */
  predicate Rebinds(s: EngineState, op: Op, key: string) {
    && op.Record? && op.who.CacheKey() == key && key in s.entries
    && s.entries[key].channel != op.winner && s.switchOnSuccess
  }

  /** What a step that keeps a key binds it to: only a record of another channel with switching on changes it. */
  lemma OnlyRecordRebinds(s: EngineState, op: Op, key: string)
    requires key in s.entries && key in Apply(s, op).entries
    ensures Apply(s, op).entries[key].channel != s.entries[key].channel <==> Rebinds(s, op, key)
  {
    if op.Record? {
      RecordBindings(s, op.who.CacheKey(), op.ttlSecs, op.winner, op.now, op.victim, key);
    }
  }

  /** With switching off throughout, a key that is never removed keeps its channel. */
  lemma {:induction false} NoSilentRebind(ops: seq<Op>, start: nat, key: string)
    requires start <= |ops|
    requires forall i :: start <= i <= |ops| ==> key in Run(ops[..i]).entries && !Run(ops[..i]).switchOnSuccess
    ensures Run(ops[..|ops|]).entries[key].channel == Run(ops[..start]).entries[key].channel
  {
    var n := |ops|;
    if start < n {
      var front := ops[..n - 1];
      assert forall i :: 0 <= i < n ==> front[..i] == ops[..i];
      NoSilentRebind(front, start, key);
      assert ops[..n] == ops && ops[..n - 1] == front;
      assert Run(ops[..n - 1]).entries.Keys == Run(front).entries.Keys;
      OnlyRecordRebinds(Run(front), ops[n - 1], key);
    }
  }

  /** The entry that a step writes under `key`: a record's, or the one a hit slides forward. */
  function Touch(s: EngineState, op: Op, key: string): Option<Entry> {
    match op
    case Record(who, ttlSecs, winner, now, _) =>
      if who.CacheKey() == key && !Refused(s, key, winner) then Some(Written(winner, now, ttlSecs)) else None
    case Resolve(ctx, now) =>
      var d := Resolved(s, ctx, now).1;
      if d.Some? && d.value.cacheKey == key && d.value.binding.Some?
      then Some(Written(d.value.binding.value, now, d.value.ttlSecs)) else None
    case _ => None
  }

  /** The moment of a touch and the TTL it granted, in seconds. */
  function TouchedAt(op: Op): nat
    requires op.Record? || op.Resolve?
  {
    op.now
  }

  function GrantedTtl(s: EngineState, op: Op): nat
    requires op.Record? || (op.Resolve? && Resolved(s, op.ctx, op.now).1.Some?)
  {
    if op.Record? then op.ttlSecs else Resolved(s, op.ctx, op.now).1.value.ttlSecs
  }

  lemma StepKeepsOrTouches(s: EngineState, op: Op, key: string)
    requires key in Apply(s, op).entries
    ensures Touch(s, op, key) == Some(Apply(s, op).entries[key])
         || (key in s.entries && Apply(s, op).entries[key] == s.entries[key])
  {
    if op.Record? {
      RecordBindings(s, op.who.CacheKey(), op.ttlSecs, op.winner, op.now, op.victim, key);
    }
  }

  /** Every entry is exactly what some step of the run wrote. */
  lemma {:induction false} EntryWasTouched(ops: seq<Op>, key: string)
    requires key in Run(ops).entries
    ensures exists i :: 0 <= i < |ops| && Touch(Run(ops[..i]), ops[i], key) == Some(Run(ops).entries[key])
  {
    if ops != [] {
      var n := |ops| - 1;
      var front := ops[..n];
      StepKeepsOrTouches(Run(front), ops[n], key);
      if Touch(Run(front), ops[n], key) != Some(Run(ops).entries[key]) {
        EntryWasTouched(front, key);
        var i :| 0 <= i < |front| && Touch(Run(front[..i]), front[i], key) == Some(Run(front).entries[key]);
        assert front[..i] == ops[..i] && front[i] == ops[i];
      }
    }
  }

  lemma TouchWrites(s: EngineState, op: Op, key: string)
    requires Touch(s, op, key).Some?
    ensures key in Apply(s, op).entries && Apply(s, op).entries[key] == Touch(s, op, key).value
  {
    if op.Record? {
      RecordBindings(s, key, op.ttlSecs, op.winner, op.now, op.victim, key);
    } else {
      HitIsLive(s, op.ctx, op.now);
    }
  }

  predicate Stale(entry: Entry, now: nat) {
    entry.expiresAt <= now
  }

  /** A step that is asked to drop the binding. */
  predicate Forgets(s: EngineState, op: Op, key: string)
    requires key in s.entries
  {
    match op
    case Forget(who) => who.CacheKey() == key
    case ForgetIfBoundTo(who, channel) => who.CacheKey() == key && s.entries[key].channel == channel
    case ForgetChannel(channel) => s.entries[key].channel == channel
    case Clear => true
    case _ => false
  }

  /** The ways to lose a binding: forgetting it, expiry where the cache looks at it, and eviction. */
  predicate Removes(s: EngineState, op: Op, key: string)
    requires key in s.entries
  {
    match op
    case Resolve(ctx, now) =>
      Stale(s.entries[key], now) && s.enabled
      && FirstMatch(s.rules, ctx).Some? && FirstMatch(s.rules, ctx).value.cacheKey == key
    case Record(who, _, winner, now, victim) =>
      who.CacheKey() != key && !Refused(s, who.CacheKey(), winner) && NeedsRoom(s)
      && (Stale(s.entries[key], now) || victim == Some(key))
    case Snapshot(now) => Stale(s.entries[key], now)
    case _ => Forgets(s, op, key)
  }

  /** A binding is lost in these ways and in no other. */
  lemma RemovalHasACause(s: EngineState, op: Op, key: string)
    requires key in s.entries
    ensures key !in Apply(s, op).entries <==> Removes(s, op, key)
  {
    if op.Record? {
      RecordBindings(s, op.who.CacheKey(), op.ttlSecs, op.winner, op.now, op.victim, key);
    }
  }

  predicate BoundUntil(s: EngineState, key: string, channel: ChannelId, expiry: nat) {
    key in s.entries && s.entries[key].channel == channel && s.entries[key].expiresAt >= expiry
  }

  /** The step neither removes nor rebinds the key, and no touch by it ends the binding before `expiry`. */
  predicate Keeps(s: EngineState, op: Op, key: string, expiry: nat) {
    && (key in s.entries ==> !Removes(s, op, key) && !Rebinds(s, op, key))
    && (Touch(s, op, key).Some? ==> expiry <= Touch(s, op, key).value.expiresAt)
  }

  lemma StepKeepsBound(s: EngineState, op: Op, key: string, channel: ChannelId, expiry: nat)
    requires BoundUntil(s, key, channel, expiry) && Keeps(s, op, key, expiry)
    ensures BoundUntil(Apply(s, op), key, channel, expiry)
  {
    RemovalHasACause(s, op, key);
    OnlyRecordRebinds(s, op, key);
    StepKeepsOrTouches(s, op, key);
  }

  lemma RunStep(ops: seq<Op>, j: nat)
    requires j < |ops|
    ensures Run(ops[..j + 1]) == Apply(Run(ops[..j]), ops[j])
  {
    assert ops[..j + 1][..j] == ops[..j];
  }

  predicate KeptAt(ops: seq<Op>, j: nat, key: string, expiry: nat)
    requires j < |ops|
  {
    Keeps(Run(ops[..j]), ops[j], key, expiry)
  }

  /** Between the touch at `i` and the end of the run nothing ends the binding or moves it to another channel. */
  predicate Undisturbed(ops: seq<Op>, i: nat, key: string, expiry: nat) {
    forall j :: i < j < |ops| ==> KeptAt(ops, j, key, expiry)
  }

  /** When the TTL that a touch grants is over. */
  function Expiry(s: EngineState, op: Op): nat
    requires op.Record? || (op.Resolve? && Resolved(s, op.ctx, op.now).1.Some?)
  {
    TouchedAt(op) + GrantedTtl(s, op) * 1_000_000_000
  }

  lemma TouchGrants(s: EngineState, op: Op, key: string)
    requires Touch(s, op, key).Some?
    ensures Touch(s, op, key).value.expiresAt == Expiry(s, op) && Touch(s, op, key).value.lastUsed == op.now
  {
  }

  predicate IsTouched(ops: seq<Op>, i: nat, key: string)
    requires i < |ops|
  {
    Touch(Run(ops[..i]), ops[i], key).Some?
  }

  /** The step at `i` is the last to touch the key, and the entry is of its moment and its TTL. */
  predicate IsLastTouch(ops: seq<Op>, i: nat, key: string, entry: Entry)
    requires i < |ops|
  {
    && IsTouched(ops, i, key) && (forall j :: i < j < |ops| ==> !IsTouched(ops, j, key))
    && entry.lastUsed == ops[i].now && entry.expiresAt == Expiry(Run(ops[..i]), ops[i])
  }

  lemma LastTouchExtends(ops: seq<Op>, i: nat, key: string, entry: Entry)
    requires ops != [] && i < |ops| - 1 && IsLastTouch(ops[..|ops| - 1], i, key, entry)
    requires !IsTouched(ops, |ops| - 1, key)
    ensures IsLastTouch(ops, i, key, entry)
  {
    var front := ops[..|ops| - 1];
    assert front[..i] == ops[..i];
    forall j | i < j < |ops| ensures !IsTouched(ops, j, key) {
      if j < |front| {
        assert front[..j] == ops[..j] && !IsTouched(front, j, key);
      }
    }
  }

  /** An entry dates from the last touch: it was last used at that moment and expires with the TTL granted then. */
  lemma {:induction false} LastUseIsLastTouch(ops: seq<Op>, key: string)
    requires key in Run(ops).entries
    ensures exists i :: 0 <= i < |ops| && IsLastTouch(ops, i, key, Run(ops).entries[key])
  {
    if ops != [] {
      var n := |ops| - 1;
      var front := ops[..n];
      StepKeepsOrTouches(Run(front), ops[n], key);
      if IsTouched(ops, n, key) {
        TouchWrites(Run(front), ops[n], key);
        TouchGrants(Run(front), ops[n], key);
        assert IsLastTouch(ops, n, key, Run(ops).entries[key]);
      } else {
        LastUseIsLastTouch(front, key);
        var entry := Run(front).entries[key];
        var i :| 0 <= i < |front| && IsLastTouch(front, i, key, entry);
        LastTouchExtends(ops, i, key, entry);
      }
    }
  }

  lemma TouchBinds(ops: seq<Op>, i: nat, key: string)
    requires i < |ops| && Touch(Run(ops[..i]), ops[i], key).Some?
    ensures BoundUntil(Run(ops[..i + 1]), key, Touch(Run(ops[..i]), ops[i], key).value.channel,
                       Expiry(Run(ops[..i]), ops[i]))
  {
    RunStep(ops, i);
    TouchGrants(Run(ops[..i]), ops[i], key);
    TouchWrites(Run(ops[..i]), ops[i], key);
  }

  lemma KeptStep(ops: seq<Op>, j: nat, key: string, channel: ChannelId, expiry: nat)
    requires j < |ops| && KeptAt(ops, j, key, expiry) && BoundUntil(Run(ops[..j]), key, channel, expiry)
    ensures BoundUntil(Run(ops[..j + 1]), key, channel, expiry)
  {
    RunStep(ops, j);
    StepKeepsBound(Run(ops[..j]), ops[j], key, channel, expiry);
  }

  lemma {:induction false} BindingLasts(ops: seq<Op>, i: nat, j: nat, key: string, channel: ChannelId, expiry: nat)
    requires i <= j < |ops| && Undisturbed(ops, i, key, expiry)
    requires BoundUntil(Run(ops[..i + 1]), key, channel, expiry)
    ensures BoundUntil(Run(ops[..j + 1]), key, channel, expiry)
    decreases j
  {
    if i < j {
      BindingLasts(ops, i, j - 1, key, channel, expiry);
      assert ops[..j - 1 + 1] == ops[..j];
      KeptStep(ops, j, key, channel, expiry);
    }
  }

  lemma BoundIsServed(ops: seq<Op>, ctx: RequestContext, d: Decision, channel: ChannelId, expiry: nat, now: nat)
    requires ops != [] && BoundUntil(Run(ops[..|ops| - 1 + 1]), d.cacheKey, channel, expiry) && now < expiry
    requires Run(ops).enabled && FirstMatch(Run(ops).rules, ctx) == Some(d)
    ensures Resolved(Run(ops), ctx, now).1 == Some(d.(binding := Some(channel)))
  {
    assert ops[..|ops| - 1 + 1] == ops;
    ServedIfLive(Run(ops), ctx, d, now);
  }

  /**
   Sessions stick: from a record or a hit on, over any run that neither removes nor rebinds the key
   nor cuts its TTL short, with whatever reloads and other traffic in between, every request of the
   identity within the TTL gets the same channel.
   */
  lemma SessionSticks(ops: seq<Op>, i: nat, ctx: RequestContext, d: Decision, now: nat)
    requires i < |ops| && Touch(Run(ops[..i]), ops[i], d.cacheKey).Some?
    requires var expiry := Expiry(Run(ops[..i]), ops[i]);
             Undisturbed(ops, i, d.cacheKey, expiry) && now < expiry
    requires Run(ops).enabled && FirstMatch(Run(ops).rules, ctx) == Some(d)
    ensures Resolved(Run(ops), ctx, now).1
         == Some(d.(binding := Some(Touch(Run(ops[..i]), ops[i], d.cacheKey).value.channel)))
  {
    var channel, expiry := Touch(Run(ops[..i]), ops[i], d.cacheKey).value.channel, Expiry(Run(ops[..i]), ops[i]);
    TouchBinds(ops, i, d.cacheKey);
    BindingLasts(ops, i, |ops| - 1, d.cacheKey, channel, expiry);
    BoundIsServed(ops, ctx, d, channel, expiry, now);
  }

  // ---------------------------------------------------------------- sessions in a full cache

  /** The key whose entry a step writes, if any. */
  function TouchedKey(s: EngineState, op: Op): Option<string> {
    match op
    case Record(who, _, winner, _, _) => if Refused(s, who.CacheKey(), winner) then None else Some(who.CacheKey())
    case Resolve(ctx, now) =>
      var d := Resolved(s, ctx, now).1;
      if d.Some? && d.value.binding.Some? then Some(d.value.cacheKey) else None
    case _ => None
  }

  predicate TouchesOther(ops: seq<Op>, i: nat, key: string, since: nat)
    requires i < |ops|
  {
    var touched := TouchedKey(Run(ops[..i]), ops[i]);
    touched.Some? && touched.value != key && TouchedAt(ops[i]) >= since
  }

  /** The other keys that the run touched at the moment `since` or later. */
  function OthersTouched(ops: seq<Op>, key: string, since: nat): set<string> {
    set i | 0 <= i < |ops| && TouchesOther(ops, i, key, since) :: TouchedKey(Run(ops[..i]), ops[i]).value
  }

  /** The other entries used at the moment of the last use of `key` or later. */
  function OthersInUse(s: EngineState, key: string): set<string>
    requires key in s.entries
  {
    set k | k in s.entries && k != key && s.entries[k].lastUsed >= s.entries[key].lastUsed
  }

  lemma SubsetIsSmaller(a: set<string>, b: set<string>)
    requires a <= b
    ensures |a| <= |b|
  {
    assert b == a + (b - a);
  }

  lemma UsedIsTouched(ops: seq<Op>, key: string, k: string)
    requires key in Run(ops).entries && k in OthersInUse(Run(ops), key)
    ensures k in OthersTouched(ops, key, Run(ops).entries[key].lastUsed)
  {
    EntryWasTouched(ops, k);
    var i :| 0 <= i < |ops| && Touch(Run(ops[..i]), ops[i], k) == Some(Run(ops).entries[k]);
    assert TouchesOther(ops, i, key, Run(ops).entries[key].lastUsed);
  }

  /**
   Whoever is evicted was crowded out: the capacity is filled by others used at least as recently,
   and each of them was touched by some step at the moment of its last use or later.
   */
  lemma VictimIsCrowdedOut(ops: seq<Op>, op: Op, key: string)
    requires op.Record? && Legal(Run(ops), op) && op.victim == Some(key)
    ensures var s := Run(ops);
            && key in s.entries && |OthersInUse(s, key)| + 1 >= s.maxEntries
            && OthersInUse(s, key) <= OthersTouched(ops, key, s.entries[key].lastUsed)
            && |OthersTouched(ops, key, s.entries[key].lastUsed)| + 1 >= s.maxEntries
  {
    var s := Run(ops);
    var live, others := Unexpired(s.entries, op.now), OthersInUse(s, key);
    assert |live.Keys| == |live| && live.Keys - {key} <= others;
    SubsetIsSmaller(live.Keys - {key}, others);
    forall k | k in others
      ensures k in OthersTouched(ops, key, s.entries[key].lastUsed)
    {
      UsedIsTouched(ops, key, k);
    }
    SubsetIsSmaller(others, OthersTouched(ops, key, s.entries[key].lastUsed));
  }

  predicate ReadsClock(op: Op) {
    op.Resolve? || op.Record? || op.Snapshot?
  }

  /**
   Step `j` does not ask for the binding to go, neither rebinds nor shortens it, and reads the clock
   before `expiry`.
   */
  predicate LeavesAlone(s: EngineState, op: Op, key: string, expiry: nat) {
    && (key in s.entries ==> !Forgets(s, op, key) && !Rebinds(s, op, key))
    && (Touch(s, op, key).Some? ==> expiry <= Touch(s, op, key).value.expiresAt)
    && (ReadsClock(op) ==> op.now < expiry)
  }

  /** Fewer other keys were touched since the last use of `key` than it takes to fill the cache beside it. */
  predicate Uncrowded(ops: seq<Op>, key: string) {
    key in Run(ops).entries ==>
      |OthersTouched(ops, key, Run(ops).entries[key].lastUsed)| + 1 < Run(ops).maxEntries
  }

  lemma StepSpares(ops: seq<Op>, op: Op, key: string, expiry: nat)
    requires key in Run(ops).entries && Run(ops).entries[key].expiresAt >= expiry
    requires Legal(Run(ops), op) && LeavesAlone(Run(ops), op, key, expiry)
    requires op.Record? ==> Uncrowded(ops, key)
    ensures !Removes(Run(ops), op, key)
  {
    if op.Record? && op.victim == Some(key) {
      VictimIsCrowdedOut(ops, op, key);
    }
  }

  lemma {:induction false} LegalAt(ops: seq<Op>, j: nat)
    requires LegalRun(ops) && j < |ops|
    ensures Legal(Run(ops[..j]), ops[j])
  {
    var n := |ops| - 1;
    if j < n {
      LegalAt(ops[..n], j);
      assert ops[..n][..j] == ops[..j] && ops[..n][j] == ops[j];
    }
  }

  predicate SparedAt(ops: seq<Op>, j: nat, key: string, expiry: nat)
    requires j < |ops|
  {
    LeavesAlone(Run(ops[..j]), ops[j], key, expiry) && (ops[j].Record? ==> Uncrowded(ops[..j], key))
  }

  lemma LaterStepKeepsBound(ops: seq<Op>, j: nat, key: string, channel: ChannelId, expiry: nat)
    requires LegalRun(ops) && j < |ops| && BoundUntil(Run(ops[..j]), key, channel, expiry)
    requires SparedAt(ops, j, key, expiry)
    ensures BoundUntil(Run(ops[..j + 1]), key, channel, expiry)
  {
    var before := ops[..j];
    RunStep(ops, j);
    LegalAt(ops, j);
    StepSpares(before, ops[j], key, expiry);
    StepKeepsBound(Run(before), ops[j], key, channel, expiry);
  }

  /** What the session asks of the steps after the touch at `i`. */
  predicate SessionIsSpared(ops: seq<Op>, i: nat, key: string, expiry: nat) {
    forall j :: i < j < |ops| ==> SparedAt(ops, j, key, expiry)
  }

  lemma {:induction false} StaysBound(ops: seq<Op>, i: nat, j: nat, key: string, channel: ChannelId, expiry: nat)
    requires LegalRun(ops) && i <= j < |ops| && SessionIsSpared(ops, i, key, expiry)
    requires BoundUntil(Run(ops[..i + 1]), key, channel, expiry)
    ensures BoundUntil(Run(ops[..j + 1]), key, channel, expiry)
    decreases j
  {
    if i < j {
      StaysBound(ops, i, j - 1, key, channel, expiry);
      assert ops[..j - 1 + 1] == ops[..j];
      LaterStepKeepsBound(ops, j, key, channel, expiry);
    }
  }

  /**
   A session survives in a cache under pressure: from a record or hit on, as long as nobody forgets
   or rebinds its key, no touch shortens it and, whenever something is recorded, fewer than
   capacity - 1 other keys were touched since its own last use, every request within the TTL gets
   the same channel.
   */
  lemma SessionSurvives(ops: seq<Op>, i: nat, ctx: RequestContext, d: Decision, now: nat)
    requires LegalRun(ops) && i < |ops| && Touch(Run(ops[..i]), ops[i], d.cacheKey).Some?
    requires var expiry := Expiry(Run(ops[..i]), ops[i]);
             SessionIsSpared(ops, i, d.cacheKey, expiry) && now < expiry
    requires Run(ops).enabled && FirstMatch(Run(ops).rules, ctx) == Some(d)
    ensures Resolved(Run(ops), ctx, now).1
         == Some(d.(binding := Some(Touch(Run(ops[..i]), ops[i], d.cacheKey).value.channel)))
  {
    var channel, expiry := Touch(Run(ops[..i]), ops[i], d.cacheKey).value.channel, Expiry(Run(ops[..i]), ops[i]);
    TouchBinds(ops, i, d.cacheKey);
    StaysBound(ops, i, |ops| - 1, d.cacheKey, channel, expiry);
    BoundIsServed(ops, ctx, d, channel, expiry, now);
  }

  // ------------------------------------------------------------------- freshness

  lemma RecordKeepsRules(s: EngineState, key: string, ttlSecs: nat, winner: ChannelId, now: nat, victim: Option<string>)
    ensures var r := Recorded(s, key, ttlSecs, winner, now, victim);
            r.enabled == s.enabled && r.rules == s.rules
  {
  }

  /** The first request of an identity pins it: what was recorded is served until its TTL is over. */
  lemma RecordIsServed(s: EngineState, ctx: RequestContext, d: Decision, winner: ChannelId, now: nat,
                       victim: Option<string>, later: nat)
    requires s.enabled && FirstMatch(s.rules, ctx) == Some(d) && !Refused(s, d.cacheKey, winner)
    requires now <= later < now + d.ttlSecs * 1_000_000_000
    ensures Resolved(Recorded(s, d.cacheKey, d.ttlSecs, winner, now, victim), ctx, later).1
         == Some(d.(binding := Some(winner)))
  {
    RecordBindings(s, d.cacheKey, d.ttlSecs, winner, now, victim, d.cacheKey);
    RecordKeepsRules(s, d.cacheKey, d.ttlSecs, winner, now, victim);
    ServedIfLive(Recorded(s, d.cacheKey, d.ttlSecs, winner, now, victim), ctx, d, later);
  }

  /**
   A rule without the model pins the identity, not the model: what was recorded for a request is
   served to every request with the same value that the rule decides, whatever model it asks for.
   */
  lemma ModelsShareSession(s: EngineState, rule: CompiledRule, first: RequestContext, second: RequestContext,
                           value: string, winner: ChannelId, now: nat, victim: Option<string>, later: nat)
    requires s.enabled && !rule.includeModel
    requires ExtractValue(rule.sources, first) == ExtractValue(rule.sources, second) == Some(value)
    requires FirstMatch(s.rules, first) == MatchRule(rule, first) != None
    requires FirstMatch(s.rules, second) == MatchRule(rule, second) != None
    requires !Refused(s, MatchRule(rule, first).value.cacheKey, winner) && later < now + rule.ttlSecs * 1_000_000_000
    ensures var d := FirstMatch(s.rules, first).value;
            var answer := Resolved(Recorded(s, d.cacheKey, d.ttlSecs, winner, now, victim), second, later).1;
            answer.Some? && answer.value.binding == Some(winner)
  {
    var d, e := MatchRule(rule, first).value, MatchRule(rule, second).value;
    ModelCountsIfIncluded(rule.name, rule.name, first.model, second.model, value, value);
    MatchedKey(rule, first, value);
    MatchedKey(rule, second, value);
    assert d.cacheKey == e.cacheKey && d.ttlSecs == e.ttlSecs;
    RecordBindings(s, d.cacheKey, d.ttlSecs, winner, now, victim, d.cacheKey);
    RecordKeepsRules(s, d.cacheKey, d.ttlSecs, winner, now, victim);
    ServedIfLive(Recorded(s, d.cacheKey, d.ttlSecs, winner, now, victim), second, e, later);
  }

  lemma MatchedKey(rule: CompiledRule, ctx: RequestContext, value: string)
    requires MatchRule(rule, ctx).Some? && ExtractValue(rule.sources, ctx) == Some(value)
    ensures MatchRule(rule, ctx).value.cacheKey == Identity(rule.name, rule.includeModel, ctx.model, value).CacheKey()
    ensures MatchRule(rule, ctx).value.ttlSecs == rule.ttlSecs
  {
  }

  /** A rule with the model keeps the sessions of models apart: a record for one does not touch the other's. */
  lemma ModelsSplitSession(s: EngineState, rule: CompiledRule, first: RequestContext, second: RequestContext,
                           value: string, winner: ChannelId, now: nat)
    requires rule.includeModel && first.model != second.model
    requires NUL !in rule.name && NUL !in first.model && NUL !in second.model
    requires ExtractValue(rule.sources, first) == ExtractValue(rule.sources, second) == Some(value)
    requires MatchRule(rule, first).Some? && MatchRule(rule, second).Some? && !NeedsRoom(s)
    ensures var d, key := MatchRule(rule, first).value, MatchRule(rule, second).value.cacheKey;
            var r := Recorded(s, d.cacheKey, d.ttlSecs, winner, now, None);
            && (key in r.entries <==> key in s.entries)
            && (key in s.entries ==> r.entries[key] == s.entries[key])
  {
    ModelCountsIfIncluded(rule.name, rule.name, first.model, second.model, value, value);
    MatchedKey(rule, first, value);
    MatchedKey(rule, second, value);
  }

  /** A hit keeps the session alive: asked again within the TTL it is a hit with the same decision. */
  lemma HitKeepsSessionAlive(s: EngineState, ctx: RequestContext, now: nat, later: nat)
    requires var d := Resolved(s, ctx, now).1;
             d.Some? && d.value.binding.Some? && now <= later < now + d.value.ttlSecs * 1_000_000_000
    ensures Resolved(Resolved(s, ctx, now).0, ctx, later).1 == Resolved(s, ctx, now).1
  {
    MatchHasNoBinding(s.rules, ctx);
  }

  /** What a request is pinned to is what the unbounded store holds for its identity. */
  lemma ServedBindingIsIdeal(ops: seq<Op>, id: Identity, ctx: RequestContext, now: nat)
    requires id.Separable() && NeverRefused(ops)
    requires forall i :: 0 <= i < |ops| ==> MentionsSeparable(ops[i])
    requires var d := Resolved(Run(ops), ctx, now).1;
             d.Some? && d.value.cacheKey == id.CacheKey() && d.value.binding.Some?
    ensures id.Meaning() in Ideal(ops) && Resolved(Run(ops), ctx, now).1.value.binding == Some(Ideal(ops)[id.Meaning()])
  {
    CacheIsSubmapOfIdeal(ops, id);
    HitIsLive(Run(ops), ctx, now);
  }

  /** No step that reads the clock read more than `now`. */
  predicate NothingAfter(ops: seq<Op>, now: nat) {
    forall i :: 0 <= i < |ops| && ReadsClock(ops[i]) ==> ops[i].now <= now
  }

  /**
   No stale pin: a binding served at `now` was recorded, or hit, by an earlier step that bound the
   same channel less than the TTL it granted before `now`; and not after it when the clock is ordered.
   */
  lemma ServedBindingIsFresh(ops: seq<Op>, ctx: RequestContext, now: nat)
    requires var d := Resolved(Run(ops), ctx, now).1;
             d.Some? && d.value.binding.Some?
    ensures var d := Resolved(Run(ops), ctx, now).1.value;
            exists i :: 0 <= i < |ops|
              && Touch(Run(ops[..i]), ops[i], d.cacheKey).Some?
              && Touch(Run(ops[..i]), ops[i], d.cacheKey).value.channel == d.binding.value
              && (NothingAfter(ops, now) ==> TouchedAt(ops[i]) <= now)
              && now < Expiry(Run(ops[..i]), ops[i])
  {
    var d := Resolved(Run(ops), ctx, now).1.value;
    HitIsLive(Run(ops), ctx, now);
    EntryWasTouched(ops, d.cacheKey);
    var i :| 0 <= i < |ops| && Touch(Run(ops[..i]), ops[i], d.cacheKey) == Some(Run(ops).entries[d.cacheKey]);
    TouchGrants(Run(ops[..i]), ops[i], d.cacheKey);
  }
}
