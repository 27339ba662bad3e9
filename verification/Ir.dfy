/** Token usage and reasoning budgets of the protocol-neutral representation. */
module Ir {
  import opened Wrappers
  import opened Core

  // -------------------------------------------------------------------- usage

  /** Token counters; each is a `u64` in the source. */
  datatype Usage = Usage(
    inputTokens: nat,
    outputTokens: nat,
    cachedInputTokens: nat,
    cacheWriteTokens: nat,
    reasoningTokens: nat)
  {
    function Total(): nat {
      inputTokens + outputTokens
    }
  }

  const NO_USAGE := Usage(0, 0, 0, 0, 0)

  function MergeMax(a: Usage, b: Usage): Usage {
    Usage(
      Max(a.inputTokens, b.inputTokens),
      Max(a.outputTokens, b.outputTokens),
      Max(a.cachedInputTokens, b.cachedInputTokens),
      Max(a.cacheWriteTokens, b.cacheWriteTokens),
      Max(a.reasoningTokens, b.reasoningTokens))
  }

  /** Anthropic counts cached input apart; billing wants it inside the input tokens. */
  function BillingNormalized(u: Usage, upstream: Protocol): Usage {
    if upstream == Messages
    then u.(inputTokens := SaturatingAdd(SaturatingAdd(u.inputTokens, u.cachedInputTokens), u.cacheWriteTokens))
    else u
  }

  /** In an Anthropic bill the input is the whole input, cached parts included, held to the counter's range. */
  lemma AnthropicInputIsWholeInput(u: Usage)
    ensures BillingNormalized(u, Messages)
         == u.(inputTokens := if u.inputTokens + u.cachedInputTokens + u.cacheWriteTokens > U64_MAX then U64_MAX
                              else u.inputTokens + u.cachedInputTokens + u.cacheWriteTokens)
    ensures forall p: Protocol :: p != Messages ==> BillingNormalized(u, p) == u
  {
  }

  /** `u` is below `bound` in every counter. */
  predicate Below(u: Usage, bound: Usage) {
    && u.inputTokens <= bound.inputTokens
    && u.outputTokens <= bound.outputTokens
    && u.cachedInputTokens <= bound.cachedInputTokens
    && u.cacheWriteTokens <= bound.cacheWriteTokens
    && u.reasoningTokens <= bound.reasoningTokens
  }

  function MaxUsage(reports: seq<Usage>): Usage {
    if reports == [] then NO_USAGE
    else MergeMax(MaxUsage(reports[..|reports| - 1]), reports[|reports| - 1])
  }

  /** The merged usage is the least one above every report: the pointwise maximum, in any order. */
  lemma {:induction false} MaxUsageIsLeast(reports: seq<Usage>, bound: Usage)
    ensures Below(MaxUsage(reports), bound) <==> forall i :: 0 <= i < |reports| ==> Below(reports[i], bound)
  {
    if reports != [] {
      var n := |reports| - 1;
      MaxUsageIsLeast(reports[..n], bound);
      assert Below(MaxUsage(reports), bound)
        <==> Below(MaxUsage(reports[..n]), bound) && Below(reports[n], bound);
    }
  }

  /** Reports may come in any order, and repeated: only the set of them matters. */
  lemma MaxUsageIgnoresOrder(a: seq<Usage>, b: seq<Usage>)
    requires forall u :: u in a <==> u in b
    ensures MaxUsage(a) == MaxUsage(b)
  {
    MaxUsageIsLeast(a, MaxUsage(a));
    MaxUsageIsLeast(b, MaxUsage(b));
    forall i | 0 <= i < |b|
      ensures Below(b[i], MaxUsage(a))
    {
      assert b[i] in a;
    }
    forall i | 0 <= i < |a|
      ensures Below(a[i], MaxUsage(b))
    {
      assert a[i] in b;
    }
    MaxUsageIsLeast(b, MaxUsage(a));
    MaxUsageIsLeast(a, MaxUsage(b));
  }

  // ---------------------------------------------------------------- reasoning

  const DEFAULT_CEILING: nat := 32_000
  const MIN_BUDGET: nat := 1_024

  datatype ReasoningConfig = ReasoningConfig(effort: Option<string>, budgetTokens: Option<nat>)
  {
    /** Token budget for protocols that want one; `ceiling * 4` wraps at 32 bits as a release build does. */
    function BudgetOrFromEffort(maxOutput: Option<nat>): Option<nat> {
      if budgetTokens.Some? then budgetTokens
      else if effort.None? then None
      else
        var ceiling := if maxOutput.Some? then maxOutput.value else DEFAULT_CEILING;
        if ceiling <= MIN_BUDGET then None
        else if effort.value == "minimal" || effort.value == "none" then None
        else if effort.value == "low" then Some(Clamp(ceiling / 5, ceiling))
        else if effort.value == "medium" then Some(Clamp(ceiling / 2, ceiling))
        else if effort.value == "high" then Some(Clamp(ceiling * 4 % U32 / 5, ceiling))
        else None
    }

    /**
     Tier for protocols that want one. The source compares an `f64` quotient of two `u32` with 0.65
     and 0.35; the nearest such quotients differ from those by far more than a rounding step, so
     the exact comparison decides the same way.
     */
    function EffortOrFromBudget(maxOutput: Option<nat>): Option<string> {
      if effort.Some? then
        Some(if effort.value == "minimal" || effort.value == "none" then "minimal"
             else if effort.value == "low" then "low"
             else if effort.value == "high" then "high"
             else "medium")
      else if budgetTokens.None? then None
      else
        var ceiling := Max(if maxOutput.Some? then maxOutput.value else DEFAULT_CEILING, 1);
        Some(if 20 * budgetTokens.value >= 13 * ceiling then "high"
             else if 20 * budgetTokens.value >= 7 * ceiling then "medium"
             else "low")
    }
  }

  function Clamp(budget: nat, ceiling: nat): nat
    requires ceiling > 0
  {
    var raised := Max(budget, MIN_BUDGET);
    if raised < ceiling - 1 then raised else ceiling - 1
  }

  predicate IsTier(effort: string) {
    effort == "low" || effort == "medium" || effort == "high"
  }

  function BudgetOf(effort: string, ceiling: nat): Option<nat> {
    ReasoningConfig(Some(effort), None).BudgetOrFromEffort(Some(ceiling))
  }

  function TierOf(budget: nat, ceiling: nat): Option<string> {
    ReasoningConfig(None, Some(budget)).EffortOrFromBudget(Some(ceiling))
  }

  /**
   The budget in numbers. A given one counts as it is. Otherwise low, medium and high are a fifth, a
   half and four fifths of the ceiling, 32000 if none is given, held between 1024 and one below the
   ceiling; other tiers, no tier, and ceilings up to 1024 have none.
   */
  lemma BudgetInNumbers(config: ReasoningConfig, maxOutput: Option<nat>)
    requires maxOutput.Some? ==> maxOutput.value < 0x1_0000_0000
    ensures var budget := config.BudgetOrFromEffort(maxOutput);
            var ceiling := if maxOutput.Some? then maxOutput.value else 32_000;
            && (config.budgetTokens.Some? ==> budget == config.budgetTokens)
            && (config.budgetTokens.None? ==>
                  && (config.effort == Some("low") && ceiling > 1024 ==>
                        budget == Some(Min(ceiling - 1, Max(1024, ceiling / 5))))
                  && (config.effort == Some("medium") && ceiling > 1024 ==>
                        budget == Some(Min(ceiling - 1, Max(1024, ceiling / 2))))
                  && (config.effort == Some("high") && 1024 < ceiling < 0x4000_0000 ==>
                        budget == Some(Min(ceiling - 1, Max(1024, 4 * ceiling / 5))))
                  && (budget.Some? <==> ceiling > 1024
                                        && config.effort in {Some("low"), Some("medium"), Some("high")}))
  {
    var ceiling := if maxOutput.Some? then maxOutput.value else 32_000;
    if ceiling < 0x4000_0000 {
      assert ceiling * 4 % U32 == 4 * ceiling;
    }
    DistinctTiers();
  }

  lemma DistinctTiers()
    ensures "low" != "medium" && "low" != "high" && "medium" != "high"
    ensures "minimal" != "low" && "minimal" != "medium" && "minimal" != "high"
    ensures "none" != "low" && "none" != "medium" && "none" != "high"
  {
    assert |"low"| == 3 && |"high"| == 4 && |"medium"| == 6 && |"minimal"| == 7 && |"none"| == 4;
    assert "none"[0] != "high"[0];
  }

  /**
   The tier in numbers. A given effort counts, unknown ones as medium; otherwise a budget is high
   from 65 and medium from 35 percent of the ceiling on, 32000 if none is given and at least 1.
   */
  lemma TierInNumbers(config: ReasoningConfig, maxOutput: Option<nat>)
    ensures var tier := config.EffortOrFromBudget(maxOutput);
            var ceiling := Max(1, if maxOutput.Some? then maxOutput.value else 32_000);
            match config.effort
            case Some(effort) =>
              tier == Some(if effort == "minimal" || effort == "none" then "minimal"
                           else if effort == "low" || effort == "high" then effort else "medium")
            case None =>
              match config.budgetTokens
              case None => tier.None?
              case Some(budget) =>
                && (tier == Some("high") <==> 100 * budget >= 65 * ceiling)
                && (tier == Some("medium") <==> 35 * ceiling <= 100 * budget < 65 * ceiling)
                && (tier == Some("low") <==> 100 * budget < 35 * ceiling)
  {
    DistinctTiers();
  }

  /** A tier has a budget exactly when the ceiling leaves room for one, and then a legal one. */
  lemma TierHasLegalBudget(effort: string, ceiling: nat)
    requires ceiling < U32
    requires IsTier(effort)
    ensures BudgetOf(effort, ceiling).Some? <==> ceiling > MIN_BUDGET
    ensures BudgetOf(effort, ceiling).Some? ==> MIN_BUDGET <= BudgetOf(effort, ceiling).value < ceiling
  {
  }

  /** Low is below medium for every ceiling, and medium below high exactly as long as the product does not wrap. */
  lemma BudgetsAreMonotone(ceiling: nat)
    requires MIN_BUDGET < ceiling < U32
    ensures BudgetOf("low", ceiling).value <= BudgetOf("medium", ceiling).value
    ensures BudgetOf("medium", ceiling).value <= BudgetOf("high", ceiling).value <==> ceiling < U32 / 4
  {
    assert ceiling / 5 <= ceiling / 2;
    if ceiling < U32 / 4 {
      assert ceiling / 2 <= ceiling * 4 / 5;
    } else {
      WrappedProduct(ceiling);
    }
  }

  /** Once it wraps, the product is at most twice the ceiling. */
  lemma WrappedProduct(ceiling: nat)
    requires U32 / 4 <= ceiling < U32
    ensures ceiling * 4 % U32 <= 2 * ceiling
  {
    var wrapped := ceiling * 4 % U32;
    var turns := ceiling * 4 / U32;
    assert 1 <= turns <= 3 && wrapped == ceiling * 4 - turns * U32;
  }

  /** All three tiers survive the way to a budget and back exactly for ceilings from 2926 to 2^30 - 1. */
  lemma TiersRoundTrip(ceiling: nat)
    requires MIN_BUDGET < ceiling < U32
    ensures (forall effort :: IsTier(effort) ==> TierOf(BudgetOf(effort, ceiling).value, ceiling) == Some(effort))
       <==> 2926 <= ceiling < U32 / 4
  {
    var low, medium := BudgetOf("low", ceiling).value, BudgetOf("medium", ceiling).value;
    var high := BudgetOf("high", ceiling).value;
    if 2926 <= ceiling < U32 / 4 {
      assert 20 * low < 7 * ceiling;
      assert 7 * ceiling <= 20 * medium < 13 * ceiling;
      assert 20 * high >= 13 * ceiling;
    } else if ceiling < 2926 {
      assert IsTier("low") && 20 * low >= 7 * ceiling;
    } else {
      WrappedHighIsNotHigh(ceiling);
      assert IsTier("high");
    }
  }

  lemma WrappedHighIsNotHigh(ceiling: nat)
    requires U32 / 4 <= ceiling < U32
    ensures 20 * BudgetOf("high", ceiling).value < 13 * ceiling
  {
    WrappedProduct(ceiling);
  }
}
