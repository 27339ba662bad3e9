/** Weighted choice among the candidates of a tier. */
module Routing {
  import opened Wrappers
  import opened Core

  /** A weight of zero still counts as one. */
  function Effective(w: nat): nat {
    if w < 1 then 1 else w
  }

  /** Sum of the effective weights. */
  function Total(weights: seq<nat>): nat {
    if weights == [] then 0 else Total(weights[..|weights| - 1]) + Effective(weights[|weights| - 1])
  }

  /** Whether a draw falls into the share of index `i`, the shares lying side by side in order. */
  predicate PicksIndex(weights: seq<nat>, point: nat, i: nat)
    requires i < |weights|
  {
    Total(weights[..i]) <= point < Total(weights[..i + 1])
  }

  /**
   The pick for a draw in the half-open range up to the total; the trailing fallback of the source
   is unreachable, as the loop's exit shows.
   */
  method WeightedPick(weights: seq<nat>, point: nat) returns (r: Option<nat>)
    requires weights != [] ==> point < Total(weights)
    ensures weights == [] <==> r.None?
    ensures r.Some? ==> r.value < |weights| && PicksIndex(weights, point, r.value)
  {
    if weights == [] {
      return None;
    }
    assert weights[..|weights|] == weights;
    r := Some(|weights| - 1);
    var left := point;
    for i := 0 to |weights|
      invariant point == Total(weights[..i]) + left
    {
      assert weights[..i + 1][..i] == weights[..i];
      var w := Effective(weights[i]);
      if left < w {
        return Some(i);
      }
      left := left - w;
    }
    assert false;
  }

  lemma {:induction false} TotalMonotone(weights: seq<nat>, i: nat, j: nat)
    requires i <= j <= |weights|
    ensures Total(weights[..i]) <= Total(weights[..j])
  {
    if i < j {
      TotalMonotone(weights, i, j - 1);
      assert weights[..j][..j - 1] == weights[..j - 1];
    }
  }

  /** Every draw picks at most one index. */
  lemma PickIsUnique(weights: seq<nat>, point: nat, i: nat, j: nat)
    requires i < |weights| && j < |weights|
    requires PicksIndex(weights, point, i) && PicksIndex(weights, point, j)
    ensures i == j
  {
    if i < j {
      TotalMonotone(weights, i + 1, j);
    } else if j < i {
      TotalMonotone(weights, j + 1, i);
    }
  }

  predicate Between(lo: nat, p: nat, hi: nat) {
    lo <= p < hi
  }

  lemma {:induction false} IntervalSize(lo: nat, hi: nat)
    requires lo <= hi
    ensures |set p: nat | p < hi && Between(lo, p, hi)| == hi - lo
    decreases hi
  {
    var all := set p: nat | p < hi && Between(lo, p, hi);
    if lo < hi {
      var last := hi - 1;
      IntervalSize(lo, last);
      assert all == (set p: nat | p < last && Between(lo, p, last)) + {last};
    } else {
      assert all == {};
    }
  }

  /** Of all draws below the total as many pick index `i` as it weighs, one if that is nothing: nobody is starved. */
  lemma PickIsProportional(weights: seq<nat>, i: nat)
    requires i < |weights|
    ensures |set point: nat | point < Total(weights) && PicksIndex(weights, point, i)|
         == if weights[i] == 0 then 1 else weights[i]
  {
    var lo, hi := Total(weights[..i]), Total(weights[..i + 1]);
    assert weights[..i + 1][..i] == weights[..i];
    TotalMonotone(weights, i + 1, |weights|);
    assert weights[..|weights|] == weights;
    IntervalSize(lo, hi);
    assert (set point: nat | point < Total(weights) && PicksIndex(weights, point, i))
        == set p: nat | p < hi && Between(lo, p, hi);
  }

  lemma {:induction false} TotalBound(weights: seq<nat>)
    requires forall i :: 0 <= i < |weights| ==> weights[i] < U32
    ensures Total(weights) <= |weights| * (U32 - 1)
  {
    if weights != [] {
      TotalBound(weights[..|weights| - 1]);
    }
  }

  /** The sum of `u32` weights fits the source's `u64` for as many candidates as a `u32` can count. */
  lemma TotalFits(weights: seq<nat>)
    requires |weights| <= U32 && forall i :: 0 <= i < |weights| ==> weights[i] < U32
    ensures Total(weights) < U64
  {
    TotalBound(weights);
    assert |weights| * (U32 - 1) <= U32 * (U32 - 1);
  }
}
