/**
 What every run of the affinity cache keeps: it may forget a binding but never invents one, its
 counters add up and its size is bounded.
 */
module AffinityProofs {
  import opened Wrappers
  import opened Core
  import opened Affinity

  // ---------------------------------------------------------------- cache keys

  /** The parts a cache key is built from. */
  datatype Identity = Identity(rule: string, includeModel: bool, model: string, value: string) {
    function CacheKey(): string {
      BuildCacheKey(rule, includeModel, model, value)
    }

    /** What the identity means: the model counts only if the rule says so. */
    function Meaning(): (string, string, string) {
      (rule, if includeModel then model else "", value)
    }

    /** Rule name and model must not contain the separator; the value may. */
    predicate Separable() {
      NUL !in rule && (includeModel ==> NUL !in model)
    }
  }

  /** Two identities share a key exactly when they mean the same. */
  lemma CacheKeyIsInjective(p: Identity, q: Identity)
    requires p.Separable() && q.Separable()
    ensures p.CacheKey() == q.CacheKey() <==> p.Meaning() == q.Meaning()
  {
    if p.CacheKey() == q.CacheKey() {
      var pm, qm := ModelPart(p.includeModel, p.model), ModelPart(q.includeModel, q.model);
      assert p.CacheKey() == p.rule + [NUL] + (pm + [NUL] + p.value);
      assert q.CacheKey() == q.rule + [NUL] + (qm + [NUL] + q.value);
      CutAtFirst(NUL, p.rule, pm + [NUL] + p.value, q.rule, qm + [NUL] + q.value);
      CutAtFirst(NUL, pm, p.value, qm, q.value);
    }
  }

  /**
   The model counts exactly if the rule says so: without it the key is the same for all models, and
   with it, when no part has a separator, keys are equal only for the same rule, model and value.
   */
  lemma ModelCountsIfIncluded(rule: string, other: string, a: string, b: string, v: string, w: string)
    ensures Identity(rule, false, a, v).CacheKey() == Identity(rule, false, b, v).CacheKey() == rule + "\0\0" + v
    ensures NUL !in rule && NUL !in other && NUL !in a && NUL !in b ==>
              (Identity(rule, true, a, v).CacheKey() == Identity(other, true, b, w).CacheKey()
               <==> rule == other && a == b && v == w)
  {
    var separators: string := "\0\0";
    assert separators == [NUL] + [] + [NUL];
    assert rule + [NUL] + [] + [NUL] == rule + separators;
    if NUL !in rule && NUL !in other && NUL !in a && NUL !in b {
      CacheKeyIsInjective(Identity(rule, true, a, v), Identity(other, true, b, w));
    }
  }

  /** A separator inside a model makes two different identities collide, whatever the rest. */
  lemma NulInModelCollides(rule: string, a: string, b: string, c: string)
    ensures var p := Identity(rule, true, a + [NUL] + b, c);
            var q := Identity(rule, true, a, b + [NUL] + c);
            p.CacheKey() == q.CacheKey() && p.Meaning() != q.Meaning()
  {
    assert rule + [NUL] + (a + [NUL] + b) + [NUL] + c == rule + [NUL] + a + [NUL] + (b + [NUL] + c);
  }

  /** So does one inside a rule name, which rule validation lets pass. */
  lemma NulInRuleCollides(a: string, b: string, includeModel: bool, model: string, c: string)
    ensures var p := Identity(a + [NUL] + b, includeModel, model, c);
            var q := Identity(a, true, b, (if includeModel then model else "") + [NUL] + c);
            p.CacheKey() == q.CacheKey() && p.Meaning() != q.Meaning()
  {
    var m := ModelPart(includeModel, model);
    assert (a + [NUL] + b) + [NUL] + m + [NUL] + c == a + [NUL] + b + [NUL] + (m + [NUL] + c);
  }

  lemma {:induction false} FirstNul(s: string) returns (x: string, rest: string)
    requires NUL in s
    ensures s == x + [NUL] + rest && NUL !in x
  {
    if s[0] == NUL {
      x, rest := [], s[1..];
    } else {
      assert s == [s[0]] + s[1..];
      var y;
      y, rest := FirstNul(s[1..]);
      x := [s[0]] + y;
      assert s == [s[0]] + (y + [NUL] + rest);
    }
  }

  /** Every key is also the key of a separable identity: the one read off at its first two separators. */
  lemma ReadBack(p: Identity) returns (q: Identity)
    ensures q.Separable() && q.CacheKey() == p.CacheKey()
  {
    var key, m := p.CacheKey(), ModelPart(p.includeModel, p.model);
    assert key[|p.rule|] == NUL && key[|p.rule| + 1 + |m|] == NUL;
    var x, rest := FirstNul(key);
    assert |x| <= |p.rule|;
    assert rest[|p.rule| + |m| - |x|] == NUL;
    var y, w := FirstNul(rest);
    q := Identity(x, true, y, w);
    assert x + [NUL] + (y + [NUL] + w) == x + [NUL] + y + [NUL] + w;
  }

  /** Separability is exactly what is needed: no separable identity of another meaning has the same key. */
  lemma SeparableIsExact(p: Identity)
    ensures p.Separable() <==> forall q: Identity :: q.Separable() && q.CacheKey() == p.CacheKey() ==>
                                                       q.Meaning() == p.Meaning()
  {
    if p.Separable() {
      forall q: Identity | q.Separable() && q.CacheKey() == p.CacheKey()
        ensures q.Meaning() == p.Meaning()
      {
        CacheKeyIsInjective(q, p);
      }
    } else {
      var q := ReadBack(p);
      assert q.Meaning() != p.Meaning();
    }
  }

  // -------------------------------------------------------------- rule selection

  /** Rules are tried in order: the decision is that of the first rule that yields an identity. */
  lemma {:induction false} FirstMatchIsFirst(rules: seq<CompiledRule>, ctx: RequestContext, d: Decision)
    ensures FirstMatch(rules, ctx) == Some(d)
       <==> exists i :: 0 <= i < |rules| && MatchRule(rules[i], ctx) == Some(d)
                        && forall j :: 0 <= j < i ==> MatchRule(rules[j], ctx).None?
  {
    if rules != [] {
      var rest := rules[1..];
      FirstMatchIsFirst(rest, ctx, d);
      if MatchRule(rules[0], ctx).None? {
        if i :| 0 <= i < |rest| && MatchRule(rest[i], ctx) == Some(d)
                && forall j :: 0 <= j < i ==> MatchRule(rest[j], ctx).None?
        {
          assert rules[i + 1] == rest[i];
          assert forall j :: 0 < j < i + 1 ==> rules[j] == rest[j - 1];
        }
        if i :| 0 <= i < |rules| && MatchRule(rules[i], ctx) == Some(d)
                && forall j :: 0 <= j < i ==> MatchRule(rules[j], ctx).None?
        {
          assert i > 0 && rest[i - 1] == rules[i];
          assert forall j :: 0 <= j < i - 1 ==> rest[j] == rules[j + 1];
        }
      } else {
        assert FirstMatch(rules, ctx) == MatchRule(rules[0], ctx);
      }
    }
  }

  /** Sources are tried in order as well. */
  lemma {:induction false} ExtractedValueIsFirst(sources: seq<KeySource>, ctx: RequestContext, value: string)
    ensures ExtractValue(sources, ctx) == Some(value)
       <==> exists i :: 0 <= i < |sources| && SourceValue(sources[i], ctx) == Some(value)
                        && forall j :: 0 <= j < i ==> SourceValue(sources[j], ctx).None?
  {
    if sources != [] {
      var rest := sources[1..];
      ExtractedValueIsFirst(rest, ctx, value);
      if SourceValue(sources[0], ctx).None? {
        if i :| 0 <= i < |rest| && SourceValue(rest[i], ctx) == Some(value)
                && forall j :: 0 <= j < i ==> SourceValue(rest[j], ctx).None?
        {
          assert sources[i + 1] == rest[i];
          assert forall j :: 0 < j < i + 1 ==> sources[j] == rest[j - 1];
        }
        if i :| 0 <= i < |sources| && SourceValue(sources[i], ctx) == Some(value)
                && forall j :: 0 <= j < i ==> SourceValue(sources[j], ctx).None?
        {
          assert i > 0 && rest[i - 1] == sources[i];
          assert forall j :: 0 <= j < i - 1 ==> rest[j] == sources[j + 1];
        }
      } else {
        assert ExtractValue(sources, ctx) == SourceValue(sources[0], ctx);
      }
    }
  }

  /** What a source yields: the key's id, a header that is not empty, or a scalar of the body, never an empty string. */
  lemma SourceValueMeans(ctx: RequestContext, name: string, path: string, v: string)
    ensures SourceValue(ApiKeyId, ctx) == ctx.apiKeyId
    ensures SourceValue(Header(name), ctx) == Some(v)
       <==> v != "" && name in ctx.headers && ctx.headers[name] == v
    ensures SourceValue(Body(path), ctx) == Some(v)
       <==> path != "" && ctx.body.Some? && path in ctx.body.value
            && match ctx.body.value[path]
               case JsonString(s) => v == s && v != ""
               case JsonNumber(text) => v == text
               case JsonBool(b) => (b && v == "true") || (!b && v == "false")
               case JsonOther => false
  {
    assert "true"[0] != "false"[0];
  }

  predicate Gate(pattern: string, regex: Compiler, text: string) {
    pattern != "" ==> regex(pattern).Some? && regex(pattern).value(text)
  }

  /**
   What a configured rule decides: all three patterns compile, model and path pass theirs, and the
   first identity value found passes its own; the entry it leads to then lives for its TTL, the
   default one if it has none, never below a second.
   */
  function Decides(rule: AffinityRule, defaultSecs: nat, regex: Compiler, ctx: RequestContext): (d: Option<Decision>)
    ensures d.Some? ==> d.value.ttlSecs == Max(1, if rule.ttlSecs.Some? then rule.ttlSecs.value else defaultSecs)
  {
    var value := ExtractValue(rule.sources, ctx);
    if Gate(rule.modelRegex, regex, ctx.model) && Gate(rule.pathRegex, regex, ctx.path)
       && value.Some? && Gate(rule.valueRegex, regex, value.value)
    then Some(Decision(rule.name, Identity(rule.name, rule.includeModel, ctx.model, value.value).CacheKey(),
                       None, rule.skipRetryOnFailure, EffectiveTtl(rule, defaultSecs)))
    else None
  }

  /** A rule that compiles decides as configured; one that does not decides nothing. */
  lemma LoadedRuleMeansSettings(rule: AffinityRule, defaultSecs: nat, regex: Compiler, ctx: RequestContext)
    ensures var compiled := CompileRule(rule, defaultSecs, regex);
            Decides(rule, defaultSecs, regex, ctx)
              == if compiled.Some? then MatchRule(compiled.value, ctx) else None
  {
  }

  lemma {:induction false} FirstMatchOfConcat(a: seq<CompiledRule>, b: seq<CompiledRule>, ctx: RequestContext)
    ensures FirstMatch(a + b, ctx) == if FirstMatch(a, ctx).Some? then FirstMatch(a, ctx) else FirstMatch(b, ctx)
  {
    if a == [] {
      assert a + b == b;
    } else {
      assert (a + b)[0] == a[0] && (a + b)[1..] == a[1..] + b;
      FirstMatchOfConcat(a[1..], b, ctx);
    }
  }

  /** What the rules of the settings decide, in their order. */
  predicate FirstDecides(rules: seq<AffinityRule>, defaultSecs: nat, regex: Compiler, ctx: RequestContext, i: nat)
    requires i < |rules|
  {
    Decides(rules[i], defaultSecs, regex, ctx).Some?
    && forall j :: 0 <= j < i ==> Decides(rules[j], defaultSecs, regex, ctx).None?
  }

  lemma OneMoreRule(rules: seq<AffinityRule>, defaultSecs: nat, regex: Compiler, ctx: RequestContext)
    requires rules != []
    ensures var front, last := rules[..|rules| - 1], rules[|rules| - 1];
            var before := FirstMatch(CompileRules(front, defaultSecs, regex), ctx);
            FirstMatch(CompileRules(rules, defaultSecs, regex), ctx)
              == if before.Some? then before else Decides(last, defaultSecs, regex, ctx)
  {
    var front, last := rules[..|rules| - 1], rules[|rules| - 1];
    var compiled := CompileRule(last, defaultSecs, regex);
    LoadedRuleMeansSettings(last, defaultSecs, regex, ctx);
    var more := if compiled.Some? then [compiled.value] else [];
    assert compiled.Some? ==> more[1..] == [];
    FirstMatchOfConcat(CompileRules(front, defaultSecs, regex), more, ctx);
  }

  predicate NoneDecides(rules: seq<AffinityRule>, defaultSecs: nat, regex: Compiler, ctx: RequestContext) {
    forall i :: 0 <= i < |rules| ==> Decides(rules[i], defaultSecs, regex, ctx).None?
  }

  lemma NoneDecidesStep(rules: seq<AffinityRule>, defaultSecs: nat, regex: Compiler, ctx: RequestContext)
    requires rules != []
    ensures NoneDecides(rules, defaultSecs, regex, ctx)
       <==> NoneDecides(rules[..|rules| - 1], defaultSecs, regex, ctx)
            && Decides(rules[|rules| - 1], defaultSecs, regex, ctx).None?
  {
    var front := rules[..|rules| - 1];
    assert forall i :: 0 <= i < |front| ==> front[i] == rules[i];
  }

  lemma {:induction false} LoadDecidesNothing(rules: seq<AffinityRule>, defaultSecs: nat, regex: Compiler,
                                              ctx: RequestContext)
    ensures FirstMatch(CompileRules(rules, defaultSecs, regex), ctx).None?
       <==> NoneDecides(rules, defaultSecs, regex, ctx)
  {
    if rules != [] {
      LoadDecidesNothing(rules[..|rules| - 1], defaultSecs, regex, ctx);
      OneMoreRule(rules, defaultSecs, regex, ctx);
      NoneDecidesStep(rules, defaultSecs, regex, ctx);
    }
  }

  lemma FirstDecidesInFront(rules: seq<AffinityRule>, defaultSecs: nat, regex: Compiler, ctx: RequestContext,
                            i: nat, n: nat)
    requires i < n <= |rules| && FirstDecides(rules, defaultSecs, regex, ctx, i)
    ensures FirstDecides(rules[..n], defaultSecs, regex, ctx, i) && rules[..n][i] == rules[i]
  {
  }

  lemma NoneDecidesBefore(rules: seq<AffinityRule>, defaultSecs: nat, regex: Compiler, ctx: RequestContext, i: nat)
    requires i < |rules| && FirstDecides(rules, defaultSecs, regex, ctx, i)
    ensures NoneDecides(rules[..i], defaultSecs, regex, ctx)
  {
  }

  lemma {:induction false} LoadDecidesFirst(rules: seq<AffinityRule>, defaultSecs: nat, regex: Compiler,
                                            ctx: RequestContext, i: nat)
    requires i < |rules| && FirstDecides(rules, defaultSecs, regex, ctx, i)
    ensures FirstMatch(CompileRules(rules, defaultSecs, regex), ctx) == Decides(rules[i], defaultSecs, regex, ctx)
  {
    var n := |rules| - 1;
    var front := rules[..n];
    OneMoreRule(rules, defaultSecs, regex, ctx);
    if i < n {
      FirstDecidesInFront(rules, defaultSecs, regex, ctx, i, n);
      LoadDecidesFirst(front, defaultSecs, regex, ctx, i);
    } else {
      NoneDecidesBefore(rules, defaultSecs, regex, ctx, i);
      LoadDecidesNothing(front, defaultSecs, regex, ctx);
    }
  }

  /**
   What a load makes of the settings: every request is decided by the first configured rule that
   compiles and yields an identity for it, and by none if there is no such rule.
   */
  lemma LoadMeansSettings(rules: seq<AffinityRule>, defaultSecs: nat, regex: Compiler, ctx: RequestContext)
    ensures var decided := FirstMatch(CompileRules(rules, defaultSecs, regex), ctx);
            && (forall i :: 0 <= i < |rules| && FirstDecides(rules, defaultSecs, regex, ctx, i) ==>
                  decided == Decides(rules[i], defaultSecs, regex, ctx))
            && (decided.None? <==> NoneDecides(rules, defaultSecs, regex, ctx))
  {
    LoadDecidesNothing(rules, defaultSecs, regex, ctx);
    forall i | 0 <= i < |rules| && FirstDecides(rules, defaultSecs, regex, ctx, i)
      ensures FirstMatch(CompileRules(rules, defaultSecs, regex), ctx) == Decides(rules[i], defaultSecs, regex, ctx)
    {
      LoadDecidesFirst(rules, defaultSecs, regex, ctx, i);
    }
  }

  /** The same for the engine after a load. */
  lemma LoadedEngineMeansSettings(s: EngineState, settings: AffinitySettings, regex: Compiler, ctx: RequestContext,
                                  now: nat, i: nat)
    requires settings.enabled && i < |settings.rules|
    requires FirstDecides(settings.rules, settings.defaultTtlSecs, regex, ctx, i)
    ensures var decision := Resolved(Loaded(s, settings, regex), ctx, now).1;
            && decision.Some?
            && decision.value.(binding := None)
                 == Decides(settings.rules[i], settings.defaultTtlSecs, regex, ctx).value.(binding := None)
  {
    LoadDecidesFirst(settings.rules, settings.defaultTtlSecs, regex, ctx, i);
  }

  // ----------------------------------------------------------------------- runs

  datatype Op =
    | Load(settings: AffinitySettings, regex: Compiler)
    | Resolve(ctx: RequestContext, now: nat)
    | Record(who: Identity, ttlSecs: nat, winner: ChannelId, now: nat, victim: Option<string>)
    | Forget(who: Identity)
    | ForgetIfBoundTo(who: Identity, channel: ChannelId)
    | ForgetChannel(channel: ChannelId)
    | Clear
    | Snapshot(now: nat)

  function Apply(s: EngineState, op: Op): EngineState {
    match op
    case Load(settings, regex) => Loaded(s, settings, regex)
    case Resolve(ctx, now) => Resolved(s, ctx, now).0
    case Record(who, ttlSecs, winner, now, victim) => Recorded(s, who.CacheKey(), ttlSecs, winner, now, victim)
    case Forget(who) => Forgotten(s, who.CacheKey())
    case ForgetIfBoundTo(who, channel) => ForgottenIfBoundTo(s, who.CacheKey(), channel)
    case ForgetChannel(channel) => ChannelForgotten(s, channel)
    case Clear => Cleared(s)
    case Snapshot(now) => Swept(s, now)
  }

  /** The eviction picks a legal victim; nothing else is nondeterministic. */
  predicate Legal(s: EngineState, op: Op) {
    op.Record? ==> LegalRecord(s, op.who.CacheKey(), op.winner, op.now, op.victim)
  }

  /** The state after a run from the empty engine. */
  function Run(ops: seq<Op>): EngineState {
    if ops == [] then NEW_ENGINE else Apply(Run(ops[..|ops| - 1]), ops[|ops| - 1])
  }

  predicate LegalRun(ops: seq<Op>) {
    ops != [] ==> LegalRun(ops[..|ops| - 1]) && Legal(Run(ops[..|ops| - 1]), ops[|ops| - 1])
  }

  // ------------------------------------------------------------ forgets, never lies

  type Store = map<(string, string, string), ChannelId>

  /** An unbounded store without expiry, after the same record or removal. */
  function Stored(store: Store, op: Op): Store {
    match op
    case Record(who, _, winner, _, _) => store[who.Meaning() := winner]
    case Forget(who) => store - {who.Meaning()}
    case ForgetIfBoundTo(who, channel) =>
      if who.Meaning() in store && store[who.Meaning()] == channel then store - {who.Meaning()} else store
    case ForgetChannel(channel) => map id | id in store && store[id] != channel :: store[id]
    case Clear => map[]
    case _ => store
  }

  function Ideal(ops: seq<Op>): Store {
    if ops == [] then map[] else Stored(Ideal(ops[..|ops| - 1]), ops[|ops| - 1])
  }

  predicate MentionsSeparable(op: Op) {
    (op.Record? || op.Forget? || op.ForgetIfBoundTo?) ==> op.who.Separable()
  }

  /** A record that is dropped because its key is bound to another channel. */
  predicate IsRefused(s: EngineState, op: Op) {
    op.Record? && Refused(s, op.who.CacheKey(), op.winner)
  }

  predicate NeverRefused(ops: seq<Op>) {
    forall i :: 0 <= i < |ops| ==> !IsRefused(Run(ops[..i]), ops[i])
  }

  predicate Agrees(s: EngineState, store: Store, id: Identity) {
    id.CacheKey() in s.entries ==> id.Meaning() in store && store[id.Meaning()] == s.entries[id.CacheKey()].channel
  }

  /** No step but a record and a removal touches what an entry is bound to. */
  lemma QuietStepKeepsBindings(s: EngineState, op: Op, key: string)
    requires op.Load? || op.Resolve? || op.Snapshot?
    ensures key in Apply(s, op).entries ==>
              key in s.entries && Apply(s, op).entries[key].channel == s.entries[key].channel
  {
  }

  lemma RecordBindings(s: EngineState, key: string, ttlSecs: nat, winner: ChannelId, now: nat,
                       victim: Option<string>, other: string)
    ensures var r := Recorded(s, key, ttlSecs, winner, now, victim);
            && (other != key && other in r.entries ==> other in s.entries && r.entries[other] == s.entries[other])
            && (!Refused(s, key, winner) ==> key in r.entries && r.entries[key] == Written(winner, now, ttlSecs))
  {
  }

  lemma RecordAgrees(s: EngineState, store: Store, op: Op, id: Identity)
    requires op.Record? && id.Separable() && MentionsSeparable(op) && Agrees(s, store, id) && !IsRefused(s, op)
    ensures Agrees(Apply(s, op), Stored(store, op), id)
  {
    CacheKeyIsInjective(op.who, id);
    RecordBindings(s, op.who.CacheKey(), op.ttlSecs, op.winner, op.now, op.victim, id.CacheKey());
  }

  lemma StepAgrees(s: EngineState, store: Store, op: Op, id: Identity)
    requires id.Separable() && MentionsSeparable(op) && Agrees(s, store, id) && !IsRefused(s, op)
    ensures Agrees(Apply(s, op), Stored(store, op), id)
  {
    match op {
      case Record(_, _, _, _, _) => RecordAgrees(s, store, op, id);
      case Forget(who) => CacheKeyIsInjective(who, id);
      case ForgetIfBoundTo(who, channel) => CacheKeyIsInjective(who, id);
      case ForgetChannel(channel) =>
      case Clear =>
      case _ => QuietStepKeepsBindings(s, op, id.CacheKey());
    }
  }

  lemma PrefixNeverRefused(ops: seq<Op>, n: nat)
    requires NeverRefused(ops) && n <= |ops|
    ensures NeverRefused(ops[..n])
  {
    forall i | 0 <= i < n
      ensures !IsRefused(Run(ops[..n][..i]), ops[..n][i])
    {
      assert ops[..n][..i] == ops[..i];
    }
  }

  /**
   The cache may forget but never lies: after any run in which no record is refused, the binding of
   every identity is the one of the unbounded, TTL-free store.
   */
  lemma {:induction false} CacheIsSubmapOfIdeal(ops: seq<Op>, id: Identity)
    requires id.Separable() && NeverRefused(ops)
    requires forall i :: 0 <= i < |ops| ==> MentionsSeparable(ops[i])
    ensures Agrees(Run(ops), Ideal(ops), id)
  {
    if ops != [] {
      var n := |ops| - 1;
      PrefixNeverRefused(ops, n);
      CacheIsSubmapOfIdeal(ops[..n], id);
      assert !IsRefused(Run(ops[..n]), ops[n]);
      StepAgrees(Run(ops[..n]), Ideal(ops[..n]), ops[n], id);
    }
  }

  /** A refused record leaves the old channel in the cache and the new one in the store. */
  lemma RefusalDisagrees(ops: seq<Op>)
    requires ops != [] && IsRefused(Run(ops[..|ops| - 1]), ops[|ops| - 1])
    ensures !Agrees(Run(ops), Ideal(ops), ops[|ops| - 1].who)
  {
  }

  /** At every moment of the run every identity has in the cache what it has in the store, or nothing. */
  ghost predicate AlwaysAgrees(ops: seq<Op>) {
    forall n, id: Identity :: 0 <= n <= |ops| && id.Separable() ==> Agrees(Run(ops[..n]), Ideal(ops[..n]), id)
  }

  /** The exact condition: the cache agrees throughout a run if and only if no record of it is refused. */
  lemma AgreesIfNeverRefused(ops: seq<Op>)
    requires forall i :: 0 <= i < |ops| ==> MentionsSeparable(ops[i])
    ensures AlwaysAgrees(ops) <==> NeverRefused(ops)
  {
    if NeverRefused(ops) {
      forall n, id: Identity | 0 <= n <= |ops| && id.Separable()
        ensures Agrees(Run(ops[..n]), Ideal(ops[..n]), id)
      {
        PrefixNeverRefused(ops, n);
        CacheIsSubmapOfIdeal(ops[..n], id);
      }
    }
    if AlwaysAgrees(ops) {
      forall i | 0 <= i < |ops|
        ensures !IsRefused(Run(ops[..i]), ops[i])
      {
        var upTo := ops[..i + 1];
        assert upTo[..i] == ops[..i] && upTo[i] == ops[i];
        assert MentionsSeparable(ops[i]);
        if IsRefused(Run(ops[..i]), ops[i]) {
          RefusalDisagrees(upTo);
        }
      }
    }
  }

  /**
   An engine that switches on success never lies: when switching is on at every record, every
   identity has at every moment of the run what the store has for it, or nothing.
   */
  lemma SwitchingNeverLies(ops: seq<Op>)
    requires forall i :: 0 <= i < |ops| ==> MentionsSeparable(ops[i])
    requires forall i :: 0 <= i < |ops| && ops[i].Record? ==> Run(ops[..i]).switchOnSuccess
    ensures AlwaysAgrees(ops)
  {
    AgreesIfNeverRefused(ops);
  }

  /** What an operator sees of it: settings that switch on success, loaded before anything else and ever after. */
  lemma {:induction false} LoadsDecideSwitching(ops: seq<Op>, n: nat)
    requires 0 < n <= |ops| && ops[0].Load?
    requires forall i :: 0 <= i < |ops| && ops[i].Load? ==> ops[i].settings.switchOnSuccess
    ensures Run(ops[..n]).switchOnSuccess
  {
    var front := ops[..n];
    assert front[..n - 1] == ops[..n - 1] && front[n - 1] == ops[n - 1];
    if n > 1 {
      LoadsDecideSwitching(ops, n - 1);
    }
  }

  lemma SwitchingSettingsNeverLie(ops: seq<Op>)
    requires ops != [] && ops[0].Load?
    requires forall i :: 0 <= i < |ops| ==> MentionsSeparable(ops[i])
    requires forall i :: 0 <= i < |ops| && ops[i].Load? ==> ops[i].settings.switchOnSuccess
    ensures AlwaysAgrees(ops)
  {
    forall i | 0 <= i < |ops| && ops[i].Record?
      ensures Run(ops[..i]).switchOnSuccess
    {
      LoadsDecideSwitching(ops, i);
    }
    SwitchingNeverLies(ops);
  }

  lemma ServedIfLive(s: EngineState, ctx: RequestContext, d: Decision, now: nat)
    requires s.enabled && FirstMatch(s.rules, ctx) == Some(d)
    requires d.cacheKey in s.entries && s.entries[d.cacheKey].expiresAt > now
    ensures Resolved(s, ctx, now).1 == Some(d.(binding := Some(s.entries[d.cacheKey].channel)))
  {
  }

  lemma {:induction false} MatchHasNoBinding(rules: seq<CompiledRule>, ctx: RequestContext)
    ensures FirstMatch(rules, ctx).Some? ==> FirstMatch(rules, ctx).value.binding.None?
  {
    if rules != [] {
      MatchHasNoBinding(rules[1..], ctx);
    }
  }

  lemma HitIsLive(s: EngineState, ctx: RequestContext, now: nat)
    requires Resolved(s, ctx, now).1.Some? && Resolved(s, ctx, now).1.value.binding.Some?
    ensures var d := Resolved(s, ctx, now).1.value;
            && d.cacheKey in s.entries && s.entries[d.cacheKey].channel == d.binding.value
            && now < s.entries[d.cacheKey].expiresAt
  {
    MatchHasNoBinding(s.rules, ctx);
  }

  lemma RunOfOneMore(ops: seq<Op>, op: Op)
    ensures Run(ops + [op]) == Apply(Run(ops), op)
    ensures LegalRun(ops + [op]) <==> LegalRun(ops) && Legal(Run(ops), op)
    ensures op.Record? ==> Ideal(ops + [op]) == Ideal(ops)[op.who.Meaning() := op.winner]
  {
    assert (ops + [op])[..|ops|] == ops;
  }

  /**
   With switching off a second winner is refused and the old channel served: whatever rules are
   loaded, for every request that they match, from the first load on.
   */
  lemma SwitchingIsNeeded(load: Op, resolve: Op, first: Op, second: Op, id: Identity, d: Decision, later: nat)
    requires load.Load? && load.settings.enabled && !load.settings.switchOnSuccess && load.settings.maxEntries > 0
    requires resolve.Resolve? && d.cacheKey == id.CacheKey()
    requires FirstMatch(Loaded(NEW_ENGINE, load.settings, load.regex).rules, resolve.ctx) == Some(d)
    requires first.Record? && second.Record? && first.who == second.who == id && first.winner != second.winner
    requires first.victim == second.victim == None && later < first.now + first.ttlSecs * SECOND
    ensures var ops := [load] + [resolve] + [first] + [second];
            && LegalRun(ops) && id.Meaning() in Ideal(ops) && Ideal(ops)[id.Meaning()] == second.winner
            && Resolved(Run(ops), resolve.ctx, later).1 == Some(d.(binding := Some(first.winner)))
  {
    EmptyIsLegal();
    RunOfOneMore([], load);
    EmptyRunConcat([load]);
    RunOfOneMore([load], resolve);
    RunOfOneMore([load] + [resolve], first);
    RunOfOneMore([load] + [resolve] + [first], second);
    var loaded := Loaded(NEW_ENGINE, load.settings, load.regex);
    SecondWinnerIsRefused(loaded, resolve, first, second, d, later);
  }

  lemma EmptyIsLegal()
    ensures LegalRun([]) && Run([]) == NEW_ENGINE
  {
  }

  lemma EmptyRunConcat(ops: seq<Op>)
    ensures [] + ops == ops
  {
  }

  lemma SecondWinnerIsRefused(s: EngineState, resolve: Op, first: Op, second: Op, d: Decision, later: nat)
    requires s.enabled && !s.switchOnSuccess && s.maxEntries > 0 && s.entries == map[]
    requires resolve.Resolve? && FirstMatch(s.rules, resolve.ctx) == Some(d)
    requires first.Record? && second.Record? && first.who.CacheKey() == second.who.CacheKey() == d.cacheKey
    requires first.winner != second.winner && later < first.now + first.ttlSecs * SECOND
    requires first.victim == second.victim == None
    ensures var asked := Apply(s, resolve);
            var one := Apply(asked, first);
            var two := Apply(one, second);
            && Legal(asked, first) && Legal(one, second)
            && Resolved(two, resolve.ctx, later).1 == Some(d.(binding := Some(first.winner)))
  {
    var asked := Apply(s, resolve);
    assert asked.entries == map[] && !NeedsRoom(asked);
    var one := Apply(asked, first);
    assert d.cacheKey in one.entries && one.entries[d.cacheKey] == Written(first.winner, first.now, first.ttlSecs);
    assert IsRefused(one, second);
    ServedIfLive(one, resolve.ctx, d, later);
  }

  /** Every key in the cache belongs to a recorded identity, so the sub-map covers all entries. */
  lemma {:induction false} EveryEntryWasRecorded(ops: seq<Op>, key: string)
    requires key in Run(ops).entries
    ensures exists i :: 0 <= i < |ops| && ops[i].Record? && ops[i].who.CacheKey() == key
  {
    if ops != [] {
      var n := |ops| - 1;
      var front := ops[..n];
      if !(ops[n].Record? && ops[n].who.CacheKey() == key) {
        if ops[n].Record? {
          var op := ops[n];
          RecordBindings(Run(front), op.who.CacheKey(), op.ttlSecs, op.winner, op.now, op.victim, key);
        }
        EveryEntryWasRecorded(front, key);
        var i :| 0 <= i < |front| && front[i].Record? && front[i].who.CacheKey() == key;
        assert ops[i] == front[i];
      }
    }
  }

  // ----------------------------------------------------------------- accounting

  /** A record that is not refused and finds no entry for its key when it inserts. */
  predicate Creates(s: EngineState, op: Op) {
    op.Record? && !Refused(s, op.who.CacheKey(), op.winner)
    && op.who.CacheKey() !in BeforeInsert(s, op.now, op.victim).entries
  }

  predicate Matches(s: EngineState, op: Op) {
    op.Resolve? && s.enabled && FirstMatch(s.rules, op.ctx).Some?
  }

  function CountCreates(ops: seq<Op>): nat {
    if ops == [] then 0
    else CountCreates(ops[..|ops| - 1]) + (if Creates(Run(ops[..|ops| - 1]), ops[|ops| - 1]) then 1 else 0)
  }

  function CountMatches(ops: seq<Op>): nat {
    if ops == [] then 0
    else CountMatches(ops[..|ops| - 1]) + (if Matches(Run(ops[..|ops| - 1]), ops[|ops| - 1]) then 1 else 0)
  }

  lemma InsertedKeyCounts(m: map<string, Entry>, key: string, entry: Entry)
    ensures |m[key := entry]| == |m| + (if key in m then 0 else 1)
  {
    var all := m[key := entry];
    assert all.Keys == m.Keys + {key};
    assert |m.Keys| == |m| && |all.Keys| == |all|;
  }

  lemma EvictionBalances(s: EngineState, now: nat, victim: Option<string>)
    ensures var e := Evicted(s, now, victim);
            |e.entries| + e.stats.evictions == |s.entries| + s.stats.evictions && |e.entries| <= |s.entries|
  {
    SubmapIsSmaller(Evicted(s, now, victim).entries, s.entries);
  }

  predicate Balanced(s: EngineState, t: EngineState, created: nat, matched: nat) {
    && |t.entries| + t.stats.forgets + t.stats.evictions == |s.entries| + s.stats.forgets + s.stats.evictions + created
    && t.stats.records >= s.stats.records + created
    && t.stats.hits + t.stats.misses == s.stats.hits + s.stats.misses + matched
  }

  lemma ResolveBalances(s: EngineState, ctx: RequestContext, now: nat)
    ensures Balanced(s, Resolved(s, ctx, now).0, 0, if s.enabled && FirstMatch(s.rules, ctx).Some? then 1 else 0)
    ensures |Resolved(s, ctx, now).0.entries| <= |s.entries|
  {
    if s.enabled && FirstMatch(s.rules, ctx).Some? {
      var d := FirstMatch(s.rules, ctx).value;
      if d.cacheKey in s.entries {
        RemovedKeyCounts(s.entries, d.cacheKey);
        InsertedKeyCounts(s.entries, d.cacheKey, Written(s.entries[d.cacheKey].channel, now, d.ttlSecs));
      }
    }
  }

  lemma RecordBalances(s: EngineState, key: string, ttlSecs: nat, winner: ChannelId, now: nat, victim: Option<string>)
    ensures var creates := !Refused(s, key, winner) && key !in BeforeInsert(s, now, victim).entries;
            Balanced(s, Recorded(s, key, ttlSecs, winner, now, victim), if creates then 1 else 0, 0)
  {
    EvictionBalances(s, now, victim);
    InsertedKeyCounts(BeforeInsert(s, now, victim).entries, key, Written(winner, now, ttlSecs));
  }

  lemma ForgetBalances(s: EngineState, key: string)
    ensures Balanced(s, Forgotten(s, key), 0, 0) && |Forgotten(s, key).entries| <= |s.entries|
  {
    if key in s.entries {
      RemovedKeyCounts(s.entries, key);
    }
  }

  lemma RemovalBalances(s: EngineState, op: Op)
    requires !op.Resolve? && !op.Record?
    ensures Balanced(s, Apply(s, op), 0, 0) && |Apply(s, op).entries| <= |s.entries|
  {
    match op {
      case Forget(who) => ForgetBalances(s, who.CacheKey());
      case ForgetIfBoundTo(who, _) => ForgetBalances(s, who.CacheKey());
      case ForgetChannel(channel) => SubmapIsSmaller(NotBoundTo(s.entries, channel), s.entries);
      case Snapshot(now) => SubmapIsSmaller(Unexpired(s.entries, now), s.entries);
      case _ =>
    }
  }

  lemma StepBalances(s: EngineState, op: Op)
    ensures Balanced(s, Apply(s, op), if Creates(s, op) then 1 else 0, if Matches(s, op) then 1 else 0)
  {
    match op {
      case Resolve(ctx, now) => ResolveBalances(s, ctx, now);
      case Record(who, ttlSecs, winner, now, victim) => RecordBalances(s, who.CacheKey(), ttlSecs, winner, now, victim);
      case _ => RemovalBalances(s, op);
    }
  }

  /** Every created entry is live, forgotten or evicted; every matched resolve is a hit or a miss. */
  lemma {:induction false} AccountingIsConserved(ops: seq<Op>)
    ensures var s := Run(ops);
            && CountCreates(ops) == |s.entries| + s.stats.forgets + s.stats.evictions
            && CountCreates(ops) <= s.stats.records
            && s.stats.hits + s.stats.misses == CountMatches(ops)
  {
    if ops != [] {
      AccountingIsConserved(ops[..|ops| - 1]);
      StepBalances(Run(ops[..|ops| - 1]), ops[|ops| - 1]);
    }
  }

  /** What a request is told: nothing without a rule for it, and the cached channel exactly while it has not expired. */
  lemma ResolveMeans(s: EngineState, ctx: RequestContext, now: nat, other: string)
    ensures var (t, answer) := Resolved(s, ctx, now);
            var matched := FirstMatch(s.rules, ctx);
            && (answer.None? <==> !s.enabled || matched.None?)
            && (answer.None? ==> t == s)
            && (answer.Some? ==>
                  var key := matched.value.cacheKey;
                  && answer.value.(binding := None) == matched.value.(binding := None)
                  && answer.value.binding == (if key in s.entries && now < s.entries[key].expiresAt
                                              then Some(s.entries[key].channel) else None)
                  && (other != key ==> (other in t.entries <==> other in s.entries)
                                       && (other in t.entries ==> t.entries[other] == s.entries[other]))
                  && (key in t.entries <==> answer.value.binding.Some?))
  {
    if s.enabled && FirstMatch(s.rules, ctx).Some? {
      MatchHasNoBinding(s.rules, ctx);
    }
  }

  // ------------------------------------------------------------------ statistics

  function Size(s: EngineState): int {
    |s.entries|
  }

  function HitsBy(s: EngineState, op: Op): int {
    if op.Resolve? && Resolved(s, op.ctx, op.now).1.Some? && Resolved(s, op.ctx, op.now).1.value.binding.Some?
    then 1 else 0
  }

  function MissesBy(s: EngineState, op: Op): int {
    if op.Resolve? && Resolved(s, op.ctx, op.now).1.Some? && Resolved(s, op.ctx, op.now).1.value.binding.None?
    then 1 else 0
  }

  function RecordsBy(s: EngineState, op: Op): int {
    if op.Record? && !IsRefused(s, op) then 1 else 0
  }

  /** Entries that went because somebody asked for it. */
  function ForgetsBy(s: EngineState, op: Op): int {
    if op.Forget? || op.ForgetIfBoundTo? || op.ForgetChannel? || op.Clear? then Size(s) - Size(Apply(s, op)) else 0
  }

  /** Entries that went for age or for room; a record makes room before it inserts. */
  function EvictionsBy(s: EngineState, op: Op): int {
    if op.Resolve? || op.Snapshot? then Size(s) - Size(Apply(s, op))
    else if op.Record? && !IsRefused(s, op) then Size(s) - Size(BeforeInsert(s, op.now, op.victim))
    else 0
  }

  /** The sum of what every step of a run contributes. */
  function Sum(ops: seq<Op>, share: (EngineState, Op) -> int): int {
    if ops == [] then 0
    else Sum(ops[..|ops| - 1], share) + share(Run(ops[..|ops| - 1]), ops[|ops| - 1])
  }

  /** What one step adds to the counters. */
  predicate Adds(s: EngineState, op: Op) {
    var t := Apply(s, op).stats;
    && t.hits == s.stats.hits + HitsBy(s, op) && t.misses == s.stats.misses + MissesBy(s, op)
    && t.evictions == s.stats.evictions + EvictionsBy(s, op)
    && t.records == s.stats.records + RecordsBy(s, op)
    && t.forgets == s.stats.forgets + ForgetsBy(s, op)
  }

  lemma ResolveStatistics(s: EngineState, ctx: RequestContext, now: nat)
    ensures Adds(s, Resolve(ctx, now))
  {
    ResolveMeans(s, ctx, now, "");
    if s.enabled && FirstMatch(s.rules, ctx).Some? {
      var d := FirstMatch(s.rules, ctx).value;
      if d.cacheKey in s.entries {
        RemovedKeyCounts(s.entries, d.cacheKey);
        InsertedKeyCounts(s.entries, d.cacheKey, Written(s.entries[d.cacheKey].channel, now, d.ttlSecs));
      }
    }
  }

  lemma RecordStatistics(s: EngineState, op: Op)
    requires op.Record?
    ensures Adds(s, op)
  {
    EvictionBalances(s, op.now, op.victim);
  }

  lemma RemovalStatistics(s: EngineState, op: Op)
    requires op.Forget? || op.ForgetIfBoundTo? || op.Clear? || op.Load?
    ensures Adds(s, op)
  {
    if op.Forget? || op.ForgetIfBoundTo? {
      ForgetCounts(s, op.who.CacheKey());
    }
  }

  lemma ChannelStatistics(s: EngineState, channel: ChannelId)
    ensures Adds(s, ForgetChannel(channel))
  {
    SubmapIsSmaller(NotBoundTo(s.entries, channel), s.entries);
  }

  lemma SweepStatistics(s: EngineState, now: nat)
    ensures Adds(s, Snapshot(now))
  {
    SubmapIsSmaller(Unexpired(s.entries, now), s.entries);
  }

  lemma ForgetCounts(s: EngineState, key: string)
    ensures Forgotten(s, key).stats.forgets - s.stats.forgets == Size(s) - Size(Forgotten(s, key))
  {
    if key in s.entries {
      RemovedKeyCounts(s.entries, key);
    }
  }

  /** Every counter counts exactly what its name says, over every run. */
  lemma {:induction false} StatisticsAreExact(ops: seq<Op>)
    ensures var stats := Run(ops).stats;
            && stats.hits == Sum(ops, HitsBy) && stats.misses == Sum(ops, MissesBy)
            && stats.records == Sum(ops, RecordsBy)
            && stats.forgets == Sum(ops, ForgetsBy) && stats.evictions == Sum(ops, EvictionsBy)
  {
    if ops != [] {
      var front, op := ops[..|ops| - 1], ops[|ops| - 1];
      StatisticsAreExact(front);
      if op.Resolve? {
        ResolveStatistics(Run(front), op.ctx, op.now);
      } else if op.Record? {
        RecordStatistics(Run(front), op);
      } else if op.ForgetChannel? {
        ChannelStatistics(Run(front), op.channel);
      } else if op.Snapshot? {
        SweepStatistics(Run(front), op.now);
      } else {
        RemovalStatistics(Run(front), op);
      }
    }
  }

  /** A snapshot counts what has not expired. */
  lemma SnapshotCountsTheLiving(s: EngineState, now: nat)
    ensures Swept(s, now).stats.entries == |set key | key in s.entries && now < s.entries[key].expiresAt|
  {
    var kept := Unexpired(s.entries, now);
    assert kept.Keys == set key | key in s.entries && now < s.entries[key].expiresAt;
    assert |kept.Keys| == |kept|;
  }

  // --------------------------------------------------------------- settings in force

  /** The settings loaded last. */
  function LastLoad(ops: seq<Op>): Option<AffinitySettings> {
    if ops == [] then None
    else if ops[|ops| - 1].Load? then Some(ops[|ops| - 1].settings)
    else LastLoad(ops[..|ops| - 1])
  }

  predicate InForce(s: EngineState, loaded: Option<AffinitySettings>) {
    match loaded
    case None => !s.enabled
    case Some(settings) =>
      && s.enabled == settings.enabled && s.switchOnSuccess == settings.switchOnSuccess
      && s.keepOnChannelDisabled == settings.keepOnChannelDisabled && s.maxEntries == settings.maxEntries
  }

  lemma OnlyLoadsSet(s: EngineState, op: Op)
    requires !op.Load?
    ensures var t := Apply(s, op);
            && t.enabled == s.enabled && t.switchOnSuccess == s.switchOnSuccess
            && t.keepOnChannelDisabled == s.keepOnChannelDisabled && t.maxEntries == s.maxEntries && t.rules == s.rules
  {
  }

  /** The engine works with the settings loaded last, whatever happened since. */
  lemma {:induction false} SettingsAreInForce(ops: seq<Op>)
    ensures InForce(Run(ops), LastLoad(ops))
  {
    if ops != [] {
      var front, op := ops[..|ops| - 1], ops[|ops| - 1];
      SettingsAreInForce(front);
      if !op.Load? {
        OnlyLoadsSet(Run(front), op);
      }
    }
  }

  /** As long as the settings leave room a record loses nothing. */
  lemma RoomIsUsed(ops: seq<Op>, op: Op, settings: AffinitySettings, other: string)
    requires LastLoad(ops) == Some(settings) && |Run(ops).entries| < settings.maxEntries
    requires op.Record? && Legal(Run(ops), op) && !IsRefused(Run(ops), op)
    ensures var s, t, key := Run(ops), Apply(Run(ops), op), op.who.CacheKey();
            && |t.entries| == |s.entries| + (if key in s.entries then 0 else 1)
            && (other in s.entries && other != key ==> other in t.entries && t.entries[other] == s.entries[other])
  {
    SettingsAreInForce(ops);
    InsertedKeyCounts(Run(ops).entries, op.who.CacheKey(), Written(op.winner, op.now, op.ttlSecs));
  }

  // ------------------------------------------------------------------- capacity

  lemma EvictionMakesRoom(s: EngineState, now: nat, victim: Option<string>)
    requires LegalVictim(s, now, victim)
    ensures var e := Evicted(s, now, victim);
            |e.entries| < Max(s.maxEntries, |s.entries|) || s.maxEntries == 0 == |s.entries|
  {
    var live := Unexpired(s.entries, now);
    SubmapIsSmaller(live, s.entries);
    if victim.Some? {
      RemovedKeyCounts(live, victim.value);
    }
  }

  /**
   A record raises the size above both the capacity and the previous size exactly when the capacity
   is zero and the cache is empty, which settings validation excludes.
   */
  lemma RecordRespectsCapacity(s: EngineState, key: string, ttlSecs: nat, winner: ChannelId, now: nat,
                               victim: Option<string>)
    requires LegalRecord(s, key, winner, now, victim)
    ensures |Recorded(s, key, ttlSecs, winner, now, victim).entries| <= Max(s.maxEntries, |s.entries|)
       <==> s.maxEntries > 0 || |s.entries| > 0
  {
    if !Refused(s, key, winner) {
      var roomy := BeforeInsert(s, now, victim);
      InsertedKeyCounts(roomy.entries, key, Written(winner, now, ttlSecs));
      if NeedsRoom(s) {
        EvictionMakesRoom(s, now, victim);
      }
    }
  }

  /** No other step adds an entry. */
  lemma OtherStepsDoNotGrow(s: EngineState, op: Op)
    requires !op.Record?
    ensures |Apply(s, op).entries| <= |s.entries|
  {
    if op.Resolve? {
      ResolveBalances(s, op.ctx, op.now);
    } else {
      RemovalBalances(s, op);
    }
  }

  /** If no load ever allows more than `capacity`, no run ever holds more. */
  lemma {:induction false} CapacityHolds(ops: seq<Op>, capacity: nat)
    requires LegalRun(ops) && capacity > 0
    requires forall i :: 0 <= i < |ops| && ops[i].Load? ==> ops[i].settings.maxEntries <= capacity
    ensures |Run(ops).entries| <= capacity && Run(ops).maxEntries <= capacity
  {
    if ops != [] {
      var n := |ops| - 1;
      var s, op := Run(ops[..n]), ops[n];
      CapacityHolds(ops[..n], capacity);
      if op.Record? {
        RecordRespectsCapacity(s, op.who.CacheKey(), op.ttlSecs, op.winner, op.now, op.victim);
        if s.maxEntries == 0 && |s.entries| == 0 {
          InsertedKeyCounts(BeforeInsert(s, op.now, op.victim).entries, op.who.CacheKey(),
                            Written(op.winner, op.now, op.ttlSecs));
          EvictionBalances(s, op.now, op.victim);
        }
      } else {
        OtherStepsDoNotGrow(s, op);
      }
    }
  }

  /** An eviction loses at most one entry that has not expired, and none of these was used less recently. */
  lemma VictimIsLeastRecentlyUsed(s: EngineState, now: nat, victim: Option<string>, lost: string)
    requires LegalVictim(s, now, victim)
    requires lost in Unexpired(s.entries, now) && lost !in Evicted(s, now, victim).entries
    ensures var live := Unexpired(s.entries, now);
            && victim == Some(lost) && Evicted(s, now, victim).entries == live - {lost}
            && |Evicted(s, now, victim).entries| == |live| - 1
            && forall key :: key in live ==> live[lost].lastUsed <= live[key].lastUsed
  {
    RemovedKeyCounts(Unexpired(s.entries, now), lost);
  }

  /**
   Room is made before the key is looked at: refreshing a binding of a full cache costs the victim,
   unless the refreshed key is the victim itself.
   */
  lemma RefreshOfFullCacheShrinksIt(s: EngineState, key: string, ttlSecs: nat, now: nat, victim: string)
    requires key in s.entries && NeedsRoom(s) && LegalVictim(s, now, Some(victim))
    requires forall k :: k in s.entries ==> s.entries[k].expiresAt > now
    ensures var r := Recorded(s, key, ttlSecs, s.entries[key].channel, now, Some(victim));
            && r.entries.Keys == s.entries.Keys - {victim} + {key}
            && |r.entries| == if victim == key then |s.entries| else |s.entries| - 1
  {
    assert Unexpired(s.entries, now) == s.entries;
    RemoveThenInsert(s.entries, victim, key, Written(s.entries[key].channel, now, ttlSecs));
  }

  lemma RemoveThenInsert(m: map<string, Entry>, victim: string, key: string, entry: Entry)
    requires victim in m && key in m
    ensures var r := (m - {victim})[key := entry];
            r.Keys == m.Keys - {victim} + {key} && |r| == if victim == key then |m| else |m| - 1
  {
    RemovedKeyCounts(m, victim);
    InsertedKeyCounts(m - {victim}, key, entry);
  }

  lemma {:induction false} LeastRecentlyUsedExists(m: map<string, Entry>, keys: set<string>) returns (oldest: string)
    requires keys <= m.Keys && keys != {}
    ensures oldest in keys && forall key :: key in keys ==> m[oldest].lastUsed <= m[key].lastUsed
    decreases |keys|
  {
    var some :| some in keys;
    oldest := some;
    if keys != {some} {
      var other := LeastRecentlyUsedExists(m, keys - {some});
      oldest := if m[other].lastUsed < m[some].lastUsed then other else some;
    }
  }

  /** What is left once the expired entries are gone still fills the cache. */
  predicate FullOfLiving(s: EngineState, now: nat) {
    var live := Unexpired(s.entries, now);
    NeedsRoom(s) && |live| >= s.maxEntries && |live| > 0
  }

  /** Recording `key` again for its own channel keeps every other binding that has not expired. */
  predicate SparesOthers(s: EngineState, key: string, ttlSecs: nat, now: nat, victim: Option<string>)
    requires key in s.entries
  {
    var r := Recorded(s, key, ttlSecs, s.entries[key].channel, now, victim).entries;
    forall k :: k in Unexpired(s.entries, now) && k != key ==> k in r && r[k] == s.entries[k]
  }

  ghost predicate AlwaysSpares(s: EngineState, key: string, ttlSecs: nat, now: nat)
    requires key in s.entries
  {
    forall victim :: LegalRecord(s, key, s.entries[key].channel, now, victim) ==>
      SparesOthers(s, key, ttlSecs, now, victim)
  }

  ghost predicate NeverSpares(s: EngineState, key: string, ttlSecs: nat, now: nat)
    requires key in s.entries
  {
    forall victim :: LegalRecord(s, key, s.entries[key].channel, now, victim) ==>
      !SparesOthers(s, key, ttlSecs, now, victim)
  }

  /** What becomes of another living binding: it is kept unless it is the victim. */
  lemma RefreshKeeps(s: EngineState, key: string, ttlSecs: nat, now: nat, victim: Option<string>, k: string)
    requires key in s.entries && k in Unexpired(s.entries, now) && k != key
    requires LegalRecord(s, key, s.entries[key].channel, now, victim)
    ensures var r := Recorded(s, key, ttlSecs, s.entries[key].channel, now, victim).entries;
            if victim == Some(k) then k !in r else k in r && r[k] == s.entries[k]
  {
    var before := BeforeInsert(s, now, victim).entries;
    assert if victim == Some(k) then k !in before else k in before && before[k] == s.entries[k];
  }

  lemma RefreshLosesVictim(s: EngineState, key: string, ttlSecs: nat, now: nat, victim: Option<string>)
    requires key in s.entries && LegalRecord(s, key, s.entries[key].channel, now, victim)
    ensures SparesOthers(s, key, ttlSecs, now, victim) <==> victim.None? || victim == Some(key)
  {
    OldestAreVictims(s, key, now, victim);
    var live := Unexpired(s.entries, now);
    forall k | k in live && k != key
      ensures var r := Recorded(s, key, ttlSecs, s.entries[key].channel, now, victim).entries;
              if victim == Some(k) then k !in r else k in r && r[k] == s.entries[k]
    {
      RefreshKeeps(s, key, ttlSecs, now, victim, k);
    }
  }

  /** A least recently used one of the living. */
  predicate IsOldest(live: map<string, Entry>, key: string) {
    key in live && forall other :: other in live ==> live[key].lastUsed <= live[other].lastUsed
  }

  lemma OldestExists(live: map<string, Entry>) returns (oldest: string)
    requires |live| > 0
    ensures IsOldest(live, oldest)
  {
    assert |live.Keys| == |live|;
    oldest := LeastRecentlyUsedExists(live, live.Keys);
  }

  /** Where room is short, exactly the oldest of the living are legal victims of a refresh. */
  lemma OldestAreVictims(s: EngineState, key: string, now: nat, victim: Option<string>)
    requires key in s.entries
    ensures LegalRecord(s, key, s.entries[key].channel, now, victim)
       <==> if FullOfLiving(s, now) then victim.Some? && IsOldest(Unexpired(s.entries, now), victim.value)
            else victim.None?
  {
  }

  /** Alone at the old end: the eviction has no other choice. */
  predicate AloneOldest(live: map<string, Entry>, key: string) {
    key in live && forall k :: k in live && k != key ==> live[key].lastUsed < live[k].lastUsed
  }

  /** If it is not, some other one is oldest. */
  lemma OtherOldest(live: map<string, Entry>, key: string) returns (other: string)
    requires |live| > 0 && !AloneOldest(live, key)
    ensures IsOldest(live, other) && other != key
  {
    other := OldestExists(live);
    if other == key {
      other :| other in live && other != key && live[other].lastUsed <= live[key].lastUsed;
    }
  }

  lemma AlwaysSparesExactly(s: EngineState, key: string, ttlSecs: nat, now: nat)
    requires key in s.entries
    ensures AlwaysSpares(s, key, ttlSecs, now)
       <==> (FullOfLiving(s, now) ==> AloneOldest(Unexpired(s.entries, now), key))
  {
    var live := Unexpired(s.entries, now);
    if FullOfLiving(s, now) && !AloneOldest(live, key) {
      var other := OtherOldest(live, key);
      OldestAreVictims(s, key, now, Some(other));
      RefreshLosesVictim(s, key, ttlSecs, now, Some(other));
    } else {
      forall victim | LegalRecord(s, key, s.entries[key].channel, now, victim)
        ensures SparesOthers(s, key, ttlSecs, now, victim)
      {
        OldestAreVictims(s, key, now, victim);
        RefreshLosesVictim(s, key, ttlSecs, now, victim);
      }
    }
  }

  lemma NeverSparesExactly(s: EngineState, key: string, ttlSecs: nat, now: nat)
    requires key in s.entries
    ensures NeverSpares(s, key, ttlSecs, now)
       <==> FullOfLiving(s, now) && !IsOldest(Unexpired(s.entries, now), key)
  {
    var live := Unexpired(s.entries, now);
    if FullOfLiving(s, now) && !IsOldest(live, key) {
      forall victim | LegalRecord(s, key, s.entries[key].channel, now, victim)
        ensures !SparesOthers(s, key, ttlSecs, now, victim)
      {
        OldestAreVictims(s, key, now, victim);
        RefreshLosesVictim(s, key, ttlSecs, now, victim);
      }
    } else {
      var victim := if FullOfLiving(s, now) then Some(key) else None;
      OldestAreVictims(s, key, now, victim);
      RefreshLosesVictim(s, key, ttlSecs, now, victim);
    }
  }

  /**
   When refreshing a binding costs another one that has not expired, told before the call: never,
   exactly if the living do not fill the cache or the refreshed key alone is least recently used
   among them; always, exactly if they do and the key is expired or some living one was used before it.
   */
  lemma RefreshCostsAnother(s: EngineState, key: string, ttlSecs: nat, now: nat)
    requires key in s.entries
    ensures var live := Unexpired(s.entries, now);
            AlwaysSpares(s, key, ttlSecs, now)
            <==> |s.entries| < s.maxEntries || |live| < s.maxEntries || |live| == 0
                 || (key in live && forall k :: k in live && k != key ==> live[key].lastUsed < live[k].lastUsed)
    ensures var live := Unexpired(s.entries, now);
            NeverSpares(s, key, ttlSecs, now)
            <==> |s.entries| >= s.maxEntries && |live| >= s.maxEntries && |live| > 0
                 && (key in live ==> exists k :: k in live && live[k].lastUsed < live[key].lastUsed)
  {
    AlwaysSparesExactly(s, key, ttlSecs, now);
    NeverSparesExactly(s, key, ttlSecs, now);
  }
}
