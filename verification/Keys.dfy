/**
 Scheduling over a channel's key pool: round-robin cursors, sticky bindings, and the rotator that
 walks the pool within one request when keys fail.
 */
module Keys {
  import opened Wrappers
  import opened Core
  import opened Channel
  import opened Modular

  // ------------------------------------------------------------------ selector

  datatype SelectorState = SelectorState(cursors: map<ChannelId, nat>, sticky: map<(ChannelId, nat), nat>)

  function CursorOf(s: SelectorState, channel: ChannelId): nat {
    if channel in s.cursors then s.cursors[channel] else 0
  }

  /** Cursors are `u64` and wrap. */
  function CursorAdvanced(s: SelectorState, channel: ChannelId): SelectorState {
    s.(cursors := s.cursors[channel := (CursorOf(s, channel) + 1) % U64])
  }

  /** Whether the identity holds a binding on the channel. */
  predicate IsBound(s: SelectorState, channel: ChannelId, identity: Option<nat>) {
    identity.Some? && (channel, identity.value) in s.sticky
  }

  /** First index of a request and the selector after it; `random` is the draw of the random strategy. */
  function Started(s: SelectorState, channel: ChannelId, pool: KeyPool, identity: Option<nat>, random: nat)
    : (r: (SelectorState, nat))
    ensures random < pool.Len() ==> r.1 < pool.Len()
  {
    match pool.Strategy()
    case Random => (s, random)
    case RoundRobin => (CursorAdvanced(s, channel), CursorOf(s, channel) % pool.Len())
    case Sticky =>
      if IsBound(s, channel, identity) && s.sticky[(channel, identity.value)] < pool.Len() then
        (s, s.sticky[(channel, identity.value)])
      else
        var unbound := if identity.Some? then s.(sticky := s.sticky - {(channel, identity.value)}) else s;
        (CursorAdvanced(unbound, channel), CursorOf(s, channel) % pool.Len())
  }

  function Committed(s: SelectorState, channel: ChannelId, identity: Option<nat>, index: nat): SelectorState {
    if identity.Some? then s.(sticky := s.sticky[(channel, identity.value) := index]) else s
  }

  function ChannelForgotten(s: SelectorState, channel: ChannelId): SelectorState {
    SelectorState(s.cursors - {channel}, map id | id in s.sticky && id.0 != channel :: s.sticky[id])
  }

  class KeySelector {
    var cursors: map<ChannelId, nat>
    var sticky: map<(ChannelId, nat), nat>

    function View(): SelectorState
      reads this
    {
      SelectorState(cursors, sticky)
    }

    constructor ()
      ensures View() == SelectorState(map[], map[])
    {
      cursors := map[];
      sticky := map[];
    }

    method ForgetChannel(channel: ChannelId)
      modifies this
      ensures View() == ChannelForgotten(old(View()), channel)
    {
      cursors := cursors - {channel};
      sticky := map id | id in sticky && id.0 != channel :: sticky[id];
    }

    method NextCursor(channel: ChannelId, len: nat) returns (index: nat)
      requires len > 0
      modifies this`cursors
      ensures View() == CursorAdvanced(old(View()), channel)
      ensures index == CursorOf(old(View()), channel) % len
    {
      if channel !in cursors {
        cursors := cursors[channel := 0];
      }
      index := cursors[channel] % len;
      cursors := cursors[channel := (cursors[channel] + 1) % U64];
    }

    method FirstIndex(channel: ChannelId, pool: KeyPool, identity: Option<nat>, random: nat) returns (index: nat)
      requires random < pool.Len()
      modifies this
      ensures (View(), index) == Started(old(View()), channel, pool, identity, random)
    {
      match pool.Strategy() {
        case Sticky =>
          if identity.Some? && (channel, identity.value) in sticky {
            var bound := sticky[(channel, identity.value)];
            if bound < pool.Len() {
              return bound;
            }
            sticky := sticky - {(channel, identity.value)};
          }
          assert identity.Some? ==> sticky == old(sticky) - {(channel, identity.value)};
          index := NextCursor(channel, pool.Len());
        case Random =>
          index := random;
        case RoundRobin =>
          index := NextCursor(channel, pool.Len());
      }
    }

    method CommitSticky(channel: ChannelId, identity: Option<nat>, index: nat)
      modifies this`sticky
      ensures View() == Committed(old(View()), channel, identity, index)
    {
      if identity.Some? {
        sticky := sticky[(channel, identity.value) := index];
      }
    }
  }

  // ------------------------------------------------------------------- rotator

  datatype RotatorState = RotatorState(pool: KeyPool, index: nat, tried: nat, exhausted: bool)

  function Rotated(r: RotatorState, kind: ErrorKind): (RotatorState, bool) {
    if r.exhausted || !kind.IsKeyFailure() then (r, false)
    else if r.pool.Single? || r.pool.Len() < 2 || r.tried >= r.pool.Len() then (r.(exhausted := true), false)
    else (r.(index := (r.index + 1) % r.pool.Len(), tried := r.tried + 1), true)
  }

  function PoolFailure(pool: KeyPool, last: GatewayError): GatewayError {
    GatewayError(last.kind, "all keys in channel credential pool failed: " + last.message, last.retryAfter)
  }

  class KeyRotator {
    const selector: KeySelector
    const channel: ChannelId
    const pool: KeyPool
    const identity: Option<nat>
    var index: nat
    var tried: nat
    var exhausted: bool

    function View(): RotatorState
      reads this
    {
      RotatorState(pool, index, tried, exhausted)
    }

    constructor Start(selector: KeySelector, channel: ChannelId, pool: KeyPool, identity: Option<nat>, random: nat)
      requires random < pool.Len()
      modifies selector
      ensures this.selector == selector && this.channel == channel && this.identity == identity
      ensures var (s, first) := Started(old(selector.View()), channel, pool, identity, random);
              selector.View() == s && View() == RotatorState(pool, first, 1, false)
    {
      var first := selector.FirstIndex(channel, pool, identity, random);
      this.selector := selector;
      this.channel := channel;
      this.pool := pool;
      this.identity := identity;
      this.index := first;
      this.tried := 1;
      this.exhausted := false;
    }

    method Rotate(kind: ErrorKind) returns (more: bool)
      modifies this
      ensures (View(), more) == Rotated(old(View()), kind)
    {
      if exhausted {
        return false;
      }
      if !kind.IsKeyFailure() {
        return false;
      }
      if pool.Single? || pool.Len() < 2 {
        exhausted := true;
        return false;
      }
      if tried >= pool.Len() {
        exhausted := true;
        return false;
      }
      index := (index + 1) % pool.Len();
      tried := tried + 1;
      return true;
    }

    /** The last error as it is reported: wrapped only when a real pool is used up. */
    method ExhaustedError(last: GatewayError) returns (e: GatewayError)
      ensures e == if exhausted && pool.Len() >= 2
                   then GatewayError(last.kind, "all keys in channel credential pool failed: " + last.message,
                                     last.retryAfter)
                   else last
      ensures e.kind == last.kind && e.retryAfter == last.retryAfter
    {
      if !exhausted || pool.Len() < 2 {
        return last;
      }
      return PoolFailure(pool, last);
    }

    /** After a success the sticky strategy binds the identity to the key that worked. */
    method Commit()
      modifies selector
      ensures selector.View()
           == if pool.Strategy().Sticky? then Committed(old(selector.View()), channel, identity, index)
              else old(selector.View())
    {
      if pool.Strategy().Sticky? {
        selector.CommitSticky(channel, identity, index);
      }
    }
  }

  // ------------------------------------------------------------------ coverage

  /** Failures that another key may be spared: it was not accepted, not permitted, or used up. */
  predicate BlamesKey(kind: ErrorKind) {
    kind in {Unauthenticated, PermissionDenied, RateLimited}
  }

  /** Exactly these move the rotator, or exhaust it; it then stays so. */
  lemma OnlyKeyFailuresRotate(r: RotatorState, kind: ErrorKind)
    ensures Rotated(r, kind).0 != r <==> !r.exhausted && BlamesKey(kind)
    ensures Rotated(r, kind).1 ==> BlamesKey(kind) && Rotated(r, kind).0.tried == r.tried + 1
  {
  }

  function KeyFailures(kinds: seq<ErrorKind>): (n: nat)
    ensures n <= |kinds|
  {
    if kinds == [] then 0
    else KeyFailures(kinds[..|kinds| - 1]) + (if BlamesKey(kinds[|kinds| - 1]) then 1 else 0)
  }

  function RotateAll(r: RotatorState, kinds: seq<ErrorKind>): RotatorState {
    if kinds == [] then r else Rotated(RotateAll(r, kinds[..|kinds| - 1]), kinds[|kinds| - 1]).0
  }

  /** The position `d` keys after `first`. */
  function Position(pool: KeyPool, first: nat, d: nat): (k: nat)
    ensures k < pool.Len()
  {
    (first + d) % pool.Len()
  }

  lemma PositionNext(pool: KeyPool, first: nat, d: nat)
    ensures (Position(pool, first, d) + 1) % pool.Len() == Position(pool, first, d + 1)
  {
    ModAdd(first + d, 1, pool.Len());
  }

  /**
   The rotator is a count of key failures: whatever other failures come between, after f key
   failures it stands min(f, len - 1) keys past the first one, and it is exhausted exactly when
   every key has failed, from then on for good.
   */
  lemma {:induction false} RotatorCountsKeyFailures(pool: KeyPool, first: nat, kinds: seq<ErrorKind>)
    requires first < pool.Len()
    ensures var moved := Min(KeyFailures(kinds), pool.Len() - 1);
            RotateAll(RotatorState(pool, first, 1, false), kinds)
              == RotatorState(pool, Position(pool, first, moved), moved + 1, KeyFailures(kinds) >= pool.Len())
  {
    if kinds == [] {
      ModSmall(first, pool.Len());
    } else {
      var front := kinds[..|kinds| - 1];
      RotatorCountsKeyFailures(pool, first, front);
      PositionNext(pool, first, Min(KeyFailures(front), pool.Len() - 1));
    }
  }

  /** Where a position less than a full turn ahead lands. */
  lemma PositionIs(pool: KeyPool, first: nat, d: nat)
    requires first < pool.Len() && d < pool.Len()
    ensures Position(pool, first, d) == if first + d < pool.Len() then first + d else first + d - pool.Len()
  {
    if first + d < pool.Len() {
      ModSmall(first + d, pool.Len());
    } else {
      ModDrop(first + d, pool.Len());
      ModSmall(first + d - pool.Len(), pool.Len());
    }
  }

  /** The positions the rotator has shown: the first one and every one that `Rotate` moved to. */
  function Visited(r: RotatorState, kinds: seq<ErrorKind>): seq<nat> {
    if kinds == [] then [r.index]
    else
      var front := kinds[..|kinds| - 1];
      var (next, moved) := Rotated(RotateAll(r, front), kinds[|kinds| - 1]);
      Visited(r, front) + (if moved then [next.index] else [])
  }

  lemma {:induction false} VisitedAreConsecutive(pool: KeyPool, first: nat, kinds: seq<ErrorKind>)
    requires first < pool.Len()
    ensures var visited := Visited(RotatorState(pool, first, 1, false), kinds);
            && |visited| == Min(KeyFailures(kinds), pool.Len() - 1) + 1
            && forall d :: 0 <= d < |visited| ==> visited[d] == Position(pool, first, d)
  {
    RotatorCountsKeyFailures(pool, first, kinds);
    if kinds == [] {
      ModSmall(first, pool.Len());
    } else {
      var front := kinds[..|kinds| - 1];
      VisitedAreConsecutive(pool, first, front);
      RotatorCountsKeyFailures(pool, first, front);
    }
  }

  /**
   The rotator never shows a position twice, shows only positions of the pool, and once it is
   exhausted has shown them all.
   */
  lemma RotatorCoversPool(pool: KeyPool, first: nat, kinds: seq<ErrorKind>)
    requires first < pool.Len()
    ensures var r := RotatorState(pool, first, 1, false);
            var visited := Visited(r, kinds);
            && (forall d, e :: 0 <= d < e < |visited| ==> visited[d] != visited[e])
            && (forall d :: 0 <= d < |visited| ==> visited[d] < pool.Len())
            && (RotateAll(r, kinds).exhausted ==> forall k: nat :: k < pool.Len() ==> k in visited)
  {
    var visited := Visited(RotatorState(pool, first, 1, false), kinds);
    RotatorCountsKeyFailures(pool, first, kinds);
    VisitedAreConsecutive(pool, first, kinds);
    forall d, e | 0 <= d < e < |visited|
      ensures visited[d] != visited[e]
    {
      PositionIs(pool, first, d);
      PositionIs(pool, first, e);
    }
    if KeyFailures(kinds) >= pool.Len() {
      forall k: nat | k < pool.Len()
        ensures k in visited
      {
        var d := if first <= k then k - first else k + pool.Len() - first;
        PositionIs(pool, first, d);
        assert visited[d] == k;
      }
    }
  }

  /** In a stored channel the key the rotator shows is never empty. */
  lemma RotatorShowsRealKeys(channel: Channel, ep: Endpoint, first: nat, kinds: seq<ErrorKind>)
    requires WellFormed(channel) && ep in channel.endpoints
    requires first < KeyPoolOf(channel, ep).Len()
    ensures var pool := KeyPoolOf(channel, ep);
            !pool.KeyAt(RotateAll(RotatorState(pool, first, 1, false), kinds).index).IsEmpty()
  {
    var pool := KeyPoolOf(channel, ep);
    StoredPoolsHaveNoEmptyKey(channel, ep, RotateAll(RotatorState(pool, first, 1, false), kinds).index);
  }

  // ------------------------------------------------------------------ fairness

  /** The key that the `i`-th start after cursor `c` picks in a pool of `n`. */
  function Turn(c: nat, i: nat, n: nat): nat
    requires n > 0
  {
    (c + i) % U64 % n
  }

  /** How often `k` is picked in `count` consecutive starts. */
  function CountPicks(c: nat, count: nat, n: nat, k: nat): nat
    requires n > 0
  {
    if count == 0 then 0
    else CountPicks(c, count - 1, n, k) + (if Turn(c, count - 1, n) == k then 1 else 0)
  }

  /** `picked` is the share of one key in `count` picks from `n`: the quotient, rounded down or up. */
  predicate FairShare(picked: nat, count: nat, n: nat)
    requires n > 0
  {
    count / n <= picked <= count / n + (if count % n == 0 then 0 else 1)
  }

  /** How many numbers below `m` have remainder `k`. */
  function Below(m: nat, n: nat, k: nat): nat
    requires n > 0
  {
    m / n + (if k < m % n then 1 else 0)
  }

  lemma BelowNext(m: nat, n: nat, k: nat)
    requires k < n
    ensures Below(m + 1, n, k) == Below(m, n, k) + (if m % n == k then 1 else 0)
  {
    ModNext(m, n);
  }

  lemma WindowIsFair(c: nat, count: nat, n: nat, k: nat)
    requires k < n
    ensures Below(c + count, n, k) >= Below(c, n, k)
    ensures FairShare(Below(c + count, n, k) - Below(c, n, k), count, n)
  {
    var q, r := c / n, c % n;
    var t, s := (c + count) / n, (c + count) % n;
    DivMod(c, n);
    DivMod(c + count, n);
    DivMonotone(c, c + count, n);
    assert n * (t - q) == n * t - n * q;
    if s >= r {
      DivIs(count, t - q, s - r, n);
    } else {
      ProductOrder(n, q, t);
      assert n * (t - q - 1) == n * (t - q) - n;
      DivIs(count, t - q - 1, n + s - r, n);
    }
  }

  /** Starts whose cursors behave, modulo `n`, as if they never wrapped. */
  predicate Unwrapped(c: nat, count: nat, n: nat)
    requires n > 0
  {
    forall i: nat :: i < count ==> Turn(c, i, n) == (c + i) % n
  }

  lemma {:induction false} CountIsWindow(c: nat, count: nat, n: nat, k: nat)
    requires k < n && Unwrapped(c, count, n)
    ensures CountPicks(c, count, n, k) + Below(c, n, k) == Below(c + count, n, k)
  {
    if count > 0 {
      CountIsWindow(c, count - 1, n, k);
      BelowNext(c + (count - 1), n, k);
      assert Turn(c, count - 1, n) == (c + (count - 1)) % n;
    }
  }

  /** Over starts that do not wrap the cursor every key gets its fair share. */
  lemma RoundRobinIsFair(c: nat, count: nat, n: nat, k: nat)
    requires k < n && c + count <= U64
    ensures FairShare(CountPicks(c, count, n, k), count, n)
  {
    forall i: nat | i < count
      ensures Turn(c, i, n) == (c + i) % n
    {
      ModSmall(c + i, U64);
    }
    CountIsWindow(c, count, n, k);
    WindowIsFair(c, count, n, k);
  }

  lemma {:induction false} CountGrows(c: nat, a: nat, b: nat, n: nat, k: nat)
    requires n > 0 && a <= b
    ensures CountPicks(c, a, n, k) <= CountPicks(c, b, n, k)
  {
    if a < b {
      CountGrows(c, a, b - 1, n, k);
    }
  }

  lemma TwoTurnsAreUnfair(c: nat, r: nat, n: nat)
    requires 0 < r < n && Turn(c, 0, n) == 0 == Turn(c, r, n)
    ensures !FairShare(CountPicks(c, r + 1, n, 0), r + 1, n)
  {
    assert CountPicks(c, 1, n, 0) == CountPicks(c, 0, n, 0) + 1;
    CountGrows(c, 1, r, n, 0);
    assert CountPicks(c, r + 1, n, 0) >= 2;
    if r + 1 == n {
      assert n * 1 + 0 == n;
      DivIs(r + 1, 1, 0, n);
    } else {
      ModSmall(r + 1, n);
    }
  }

  /** Where the cursor wraps in the middle of a round, key 0 has two turns within one round. */
  lemma WrapIsUnfair(n: nat)
    requires n > 0 && U64 % n != 0
    ensures var r := U64 % n;
            var c := U64 - r;
            c < U64 && !FairShare(CountPicks(c, r + 1, n, 0), r + 1, n)
  {
    var r, q := U64 % n, U64 / n;
    DivMod(U64, n);
    var c := U64 - r;
    DivIs(c, q, 0, n);
    ModSmall(c, U64);
    ModDrop(c + r, U64);
    ModSmall(0, U64);
    ModSmall(0, n);
    TwoTurnsAreUnfair(c, r, n);
  }

  lemma DividingPoolIsFair(c: nat, count: nat, n: nat, k: nat)
    requires k < n && U64 % n == 0
    ensures FairShare(CountPicks(c, count, n, k), count, n)
  {
    if U64 < n {
      ModSmall(U64, n);
    }
    forall i: nat | i < count
      ensures Turn(c, i, n) == (c + i) % n
    {
      ModOfMultiple(c + i, U64, n);
    }
    CountIsWindow(c, count, n, k);
    WindowIsFair(c, count, n, k);
  }

  /** Fairness survives the wrap of the cursor exactly for pool sizes that divide 2^64. */
  lemma FairAcrossWraps(n: nat)
    requires n > 0
    ensures (forall c: nat, count: nat, k: nat :: c < U64 && k < n ==>
               FairShare(CountPicks(c, count, n, k), count, n))
       <==> U64 % n == 0
  {
    if U64 % n == 0 {
      forall c: nat, count: nat, k: nat | c < U64 && k < n
        ensures FairShare(CountPicks(c, count, n, k), count, n)
      {
        DividingPoolIsFair(c, count, n, k);
      }
    } else {
      WrapIsUnfair(n);
    }
  }

  // -------------------------------------------------------------------- strides

  /** The key of the `j`-th start when every start takes the cursor `g` further. */
  function Stride(a: nat, g: nat, j: nat, n: nat): nat
    requires n > 0
  {
    (a + g * j) % n
  }

  function CountStrides(a: nat, g: nat, count: nat, n: nat, k: nat): nat
    requires n > 0
  {
    if count == 0 then 0
    else CountStrides(a, g, count - 1, n, k) + (if Stride(a, g, count - 1, n) == k then 1 else 0)
  }

  /** Fewer than `n` strides of `g` never come back to the same key; so it is when they have no common divisor. */
  ghost predicate NoShortCycle(g: nat, n: nat)
    requires n > 0
  {
    forall d: nat :: 0 < d < n ==> !Cycles(g, d, n)
  }

  predicate Cycles(g: nat, d: nat, n: nat)
    requires n > 0
  {
    g * d % n == 0
  }

  lemma StrideLater(a: nat, g: nat, j: nat, d: nat, n: nat)
    requires n > 0
    ensures Stride(a, g, j + d, n) == Stride(a, g, j, n) <==> Cycles(g, d, n)
  {
    assert a + g * (j + d) == a + g * j + g * d;
    if Cycles(g, d, n) {
      ModPlusMultiple(a + g * j, g * d, n);
    }
    if Stride(a, g, j + d, n) == Stride(a, g, j, n) {
      ModSameIsMultiple(a + g * j, g * d, n);
    }
  }

  lemma WholeRoundCycles(g: nat, n: nat)
    requires n > 0
    ensures Cycles(g, n, n)
  {
    assert g * n == n * g + 0;
    DivIs(g * n, g, 0, n);
  }

  lemma {:induction false} CountMeansSome(a: nat, g: nat, count: nat, n: nat, k: nat)
    requires n > 0
    ensures CountStrides(a, g, count, n, k) > 0 <==> exists j: nat :: j < count && Stride(a, g, j, n) == k
  {
    if count > 0 {
      CountMeansSome(a, g, count - 1, n, k);
    }
  }

  /** Within one round no key has two turns. */
  lemma {:induction false} AtMostOneTurn(a: nat, g: nat, count: nat, n: nat, k: nat)
    requires n > 0 && NoShortCycle(g, n) && count <= n
    ensures CountStrides(a, g, count, n, k) <= 1
  {
    if count > 0 {
      AtMostOneTurn(a, g, count - 1, n, k);
      CountMeansSome(a, g, count - 1, n, k);
      if i: nat :| i < count - 1 && Stride(a, g, i, n) == k {
        StrideLater(a, g, i, count - 1 - i, n);
      }
    }
  }

  function Reached(a: nat, g: nat, count: nat, n: nat): set<nat>
    requires n > 0
  {
    if count == 0 then {} else Reached(a, g, count - 1, n) + {Stride(a, g, count - 1, n)}
  }

  lemma {:induction false} ReachedMeans(a: nat, g: nat, count: nat, n: nat, k: nat)
    requires n > 0
    ensures k in Reached(a, g, count, n) <==> CountStrides(a, g, count, n, k) > 0
  {
    if count > 0 {
      ReachedMeans(a, g, count - 1, n, k);
    }
  }

  lemma {:induction false} ReachedIsNew(a: nat, g: nat, count: nat, n: nat)
    requires n > 0 && NoShortCycle(g, n) && count <= n
    ensures |Reached(a, g, count, n)| == count && forall k :: k in Reached(a, g, count, n) ==> k < n
  {
    if count > 0 {
      ReachedIsNew(a, g, count - 1, n);
      var last := Stride(a, g, count - 1, n);
      AtMostOneTurn(a, g, count, n, last);
      ReachedMeans(a, g, count - 1, n, last);
    }
  }

  function Positions(n: nat): (all: set<nat>)
    ensures |all| == n && forall k: nat :: k in all <==> k < n
  {
    if n == 0 then {} else Positions(n - 1) + {n - 1}
  }

  lemma FullIsAll(some: set<nat>, n: nat)
    requires |some| == n && forall k :: k in some ==> k < n
    ensures some == Positions(n)
  {
    var missing := Positions(n) - some;
    assert Positions(n) == some + missing;
  }

  /** Within one round every key has exactly one turn. */
  lemma OneTurnEach(a: nat, g: nat, n: nat, k: nat)
    requires k < n && NoShortCycle(g, n)
    ensures CountStrides(a, g, n, n, k) == 1
  {
    ReachedIsNew(a, g, n, n);
    FullIsAll(Reached(a, g, n, n), n);
    ReachedMeans(a, g, n, n, k);
    AtMostOneTurn(a, g, n, n, k);
  }

  lemma {:induction false} OneRoundLess(a: nat, g: nat, count: nat, n: nat, k: nat)
    requires 0 < n <= count
    ensures CountStrides(a, g, count, n, k) == CountStrides(a, g, count - n, n, k) + CountStrides(a, g, n, n, k)
  {
    if count > n {
      OneRoundLess(a, g, count - 1, n, k);
      WholeRoundCycles(g, n);
      StrideLater(a, g, count - 1 - n, n, n);
    }
  }

  lemma {:induction false} StrideIsFair(a: nat, g: nat, count: nat, n: nat, k: nat)
    requires k < n && NoShortCycle(g, n)
    ensures FairShare(CountStrides(a, g, count, n, k), count, n)
    decreases count
  {
    OneTurnEach(a, g, n, k);
    if count < n {
      ModSmall(count, n);
      AtMostOneTurn(a, g, count, n, k);
    } else {
      OneRoundLess(a, g, count, n, k);
      StrideIsFair(a, g, count - n, n, k);
      ModDrop(count, n);
    }
  }

  lemma {:induction false} StrideCountGrows(a: nat, g: nat, early: nat, late: nat, n: nat, k: nat)
    requires n > 0 && early <= late
    ensures CountStrides(a, g, early, n, k) <= CountStrides(a, g, late, n, k)
  {
    if early < late {
      StrideCountGrows(a, g, early, late - 1, n, k);
    }
  }

  /** A short cycle gives key 0 two turns within one round. */
  lemma ShortCycleIsUnfair(g: nat, d: nat, n: nat)
    requires 0 < d < n && Cycles(g, d, n)
    ensures !FairShare(CountStrides(0, g, d + 1, n, 0), d + 1, n)
  {
    StrideLater(0, g, 0, d, n);
    ModSmall(0, n);
    assert Stride(0, g, 0, n) == 0;
    assert CountStrides(0, g, 1, n, 0) == CountStrides(0, g, 0, n, 0) + 1;
    StrideCountGrows(0, g, 1, d, n, 0);
    if d + 1 == n {
      assert n * 1 + 0 == n;
      DivIs(d + 1, 1, 0, n);
    } else {
      ModSmall(d + 1, n);
    }
  }

  /** Strides of `g` are fair to all keys, from every cursor and at every moment, exactly without a short cycle. */
  lemma StridesAreFair(g: nat, n: nat)
    requires n > 0
    ensures (forall a: nat, count: nat, k: nat :: k < n ==> FairShare(CountStrides(a, g, count, n, k), count, n))
       <==> NoShortCycle(g, n)
  {
    if NoShortCycle(g, n) {
      forall a: nat, count: nat, k: nat | k < n
        ensures FairShare(CountStrides(a, g, count, n, k), count, n)
      {
        StrideIsFair(a, g, count, n, k);
      }
    } else {
      var d: nat :| 0 < d < n && Cycles(g, d, n);
      ShortCycleIsUnfair(g, d, n);
    }
  }

  // -------------------------------------------------------- runs of the selector

  datatype SelectorOp =
    | Start(channel: ChannelId, pool: KeyPool, identity: Option<nat>, random: nat)
    | Commit(channel: ChannelId, identity: Option<nat>, index: nat)
    | Forget(channel: ChannelId)

  function Step(s: SelectorState, op: SelectorOp): SelectorState {
    match op
    case Start(channel, pool, identity, random) => Started(s, channel, pool, identity, random).0
    case Commit(channel, identity, index) => Committed(s, channel, identity, index)
    case Forget(channel) => ChannelForgotten(s, channel)
  }

  function RunSelector(s: SelectorState, ops: seq<SelectorOp>): SelectorState {
    if ops == [] then s else Step(RunSelector(s, ops[..|ops| - 1]), ops[|ops| - 1])
  }

  /** A start that asks the channel's cursor: any but a random one and one whose binding still holds. */
  predicate AsksCursor(s: SelectorState, op: SelectorOp, channel: ChannelId) {
    op.Start? && op.channel == channel
    && match op.pool.Strategy()
       case RoundRobin => true
       case Random => false
       case Sticky => !(IsBound(s, channel, op.identity) && s.sticky[(channel, op.identity.value)] < op.pool.Len())
  }

  /** A first key that the cursor gave, out of a pool of `len`. */
  datatype Pick = Pick(len: nat, index: nat)

  function PickFor(s: SelectorState, op: SelectorOp): Pick
    requires op.Start?
  {
    Pick(op.pool.Len(), Started(s, op.channel, op.pool, op.identity, op.random).1)
  }

  /** What the cursor of a channel gave to the starts of a run, in order. */
  function Picks(s: SelectorState, ops: seq<SelectorOp>, channel: ChannelId): seq<Pick> {
    if ops == [] then []
    else
      var front, op := ops[..|ops| - 1], ops[|ops| - 1];
      var before := RunSelector(s, front);
      Picks(s, front, channel)
      + (if AsksCursor(before, op, channel) then [PickFor(before, op)] else [])
  }

  /** The channel is not deleted in the run. */
  predicate KeepsChannel(ops: seq<SelectorOp>, channel: ChannelId) {
    forall i :: 0 <= i < |ops| ==> ops[i] != Forget(channel)
  }

  lemma CursorStep(s: SelectorState, op: SelectorOp, channel: ChannelId)
    requires op != Forget(channel)
    ensures CursorOf(Step(s, op), channel)
         == if AsksCursor(s, op, channel) then (CursorOf(s, channel) + 1) % U64 else CursorOf(s, channel)
    ensures AsksCursor(s, op, channel) ==>
              PickFor(s, op) == Pick(op.pool.Len(), CursorOf(s, channel) % op.pool.Len())
  {
  }

  /** The picks are the turns of one cursor, whatever the sizes of the pools. */
  predicate AreTurns(picks: seq<Pick>, c: nat) {
    forall i :: 0 <= i < |picks| ==> picks[i].len > 0 && picks[i].index == Turn(c, i, picks[i].len)
  }

  lemma OneMoreTurn(picks: seq<Pick>, c: nat, pick: Pick)
    requires AreTurns(picks, c) && pick.len > 0 && pick.index == Turn(c, |picks|, pick.len)
    ensures AreTurns(picks + [pick], c)
  {
  }

  /**
   All starts of a channel share its cursor: in any run that does not delete the channel, other
   channels, commits, random and bound starts interleaved, the i-th start that asks it gets the
   i-th turn, modulo the size of its own pool.
   */
  lemma {:induction false} PicksAreTurns(s: SelectorState, ops: seq<SelectorOp>, channel: ChannelId)
    requires KeepsChannel(ops, channel) && CursorOf(s, channel) < U64
    ensures AreTurns(Picks(s, ops, channel), CursorOf(s, channel))
    ensures CursorOf(RunSelector(s, ops), channel) == (CursorOf(s, channel) + |Picks(s, ops, channel)|) % U64
  {
    if ops == [] {
      ModSmall(CursorOf(s, channel), U64);
    } else {
      var front, op := ops[..|ops| - 1], ops[|ops| - 1];
      var before, picks := RunSelector(s, front), Picks(s, front, channel);
      PicksAreTurns(s, front, channel);
      CursorStep(before, op, channel);
      if AsksCursor(before, op, channel) {
        OneMoreTurn(picks, CursorOf(s, channel), PickFor(before, op));
        ModAdd(CursorOf(s, channel) + |picks|, 1, U64);
      } else {
        assert picks + [] == picks;
      }
    }
  }

  function Occurrences(xs: seq<nat>, k: nat): nat {
    if xs == [] then 0
    else Occurrences(xs[..|xs| - 1], k) + (if xs[|xs| - 1] == k then 1 else 0)
  }

  /** The first keys out of pools of `n`. */
  function FirstsOf(picks: seq<Pick>, n: nat): seq<nat> {
    if picks == [] then []
    else
      var last := picks[|picks| - 1];
      FirstsOf(picks[..|picks| - 1], n) + (if last.len == n then [last.index] else [])
  }

  /** Of the starts that ask the cursor, every `g`-th is for a pool of `n`. */
  predicate EveryNth(picks: seq<Pick>, n: nat, g: nat, r: nat)
    requires g > 0
  {
    forall i :: 0 <= i < |picks| ==> (picks[i].len == n <==> i % g == r)
  }

  predicate AreStrides(firsts: seq<nat>, a: nat, g: nat, n: nat)
    requires n > 0
  {
    forall j :: 0 <= j < |firsts| ==> firsts[j] == Stride(a, g, j, n)
  }

  lemma {:induction false} FirstsAreStrides(picks: seq<Pick>, c: nat, n: nat, g: nat, r: nat)
    requires n > 0 && r < g && AreTurns(picks, c) && c + |picks| <= U64 && EveryNth(picks, n, g, r)
    ensures |FirstsOf(picks, n)| == Below(|picks|, g, r) && AreStrides(FirstsOf(picks, n), c + r, g, n)
  {
    if picks == [] {
      ModSmall(0, g);
    } else {
      var m := |picks| - 1;
      FirstsAreStrides(picks[..m], c, n, g, r);
      BelowNext(m, g, r);
      if m % g == r {
        DivMod(m, g);
        ModSmall(c + m, U64);
        assert c + m == c + r + g * (m / g);
      }
    }
  }

  lemma {:induction false} OccurrencesAreStrides(xs: seq<nat>, a: nat, g: nat, n: nat, k: nat)
    requires n > 0 && AreStrides(xs, a, g, n)
    ensures Occurrences(xs, k) == CountStrides(a, g, |xs|, n, k)
  {
    if xs != [] {
      OccurrencesAreStrides(xs[..|xs| - 1], a, g, n, k);
    }
  }

  /**
   Starts with other pools in between: if every g-th start that asks the cursor is for a pool of n,
   and strides of g have no short cycle in it, every key of the pool begins floor or ceil of its share.
   */
  lemma MixedStartsAreFair(s: SelectorState, ops: seq<SelectorOp>, channel: ChannelId, n: nat, g: nat, r: nat, k: nat)
    requires k < n && r < g && NoShortCycle(g, n) && KeepsChannel(ops, channel)
    requires CursorOf(s, channel) < U64 && CursorOf(s, channel) + |Picks(s, ops, channel)| <= U64
    requires EveryNth(Picks(s, ops, channel), n, g, r)
    ensures var firsts := FirstsOf(Picks(s, ops, channel), n);
            FairShare(Occurrences(firsts, k), |firsts|, n)
  {
    var picks, c := Picks(s, ops, channel), CursorOf(s, channel);
    PicksAreTurns(s, ops, channel);
    FirstsAreStrides(picks, c, n, g, r);
    OccurrencesAreStrides(FirstsOf(picks, n), c + r, g, n, k);
    StrideIsFair(c + r, g, |FirstsOf(picks, n)|, n, k);
  }

  lemma {:induction false} RoundStaysPut(a: nat, g: nat, j: nat, n: nat)
    requires n > 0 && g % n == 0
    ensures Stride(a, g, j, n) == a % n
  {
    if j > 0 {
      RoundStaysPut(a, g, j - 1, n);
      assert a + g * j == a + g * (j - 1) + g;
      ModPlusMultiple(a + g * (j - 1), g, n);
    }
  }

  lemma RoundsStayPut(firsts: seq<nat>, a: nat, g: nat, n: nat)
    requires n > 0 && g % n == 0 && AreStrides(firsts, a, g, n)
    ensures forall j :: 0 <= j < |firsts| ==> firsts[j] == a % n
  {
    forall j | 0 <= j < |firsts|
      ensures firsts[j] == a % n
    {
      RoundStaysPut(a, g, j, n);
    }
  }

  /**
   And if a stride is whole rounds, one key begins every time: a pool of two that alternates with
   starts of a single key never begins with its other key.
   */
  lemma WholeRoundsStarve(s: SelectorState, ops: seq<SelectorOp>, channel: ChannelId, n: nat, g: nat, r: nat)
    requires n > 0 && r < g && g % n == 0 && KeepsChannel(ops, channel)
    requires CursorOf(s, channel) < U64 && CursorOf(s, channel) + |Picks(s, ops, channel)| <= U64
    requires EveryNth(Picks(s, ops, channel), n, g, r)
    ensures var firsts := FirstsOf(Picks(s, ops, channel), n);
            && |firsts| == Below(|Picks(s, ops, channel)|, g, r)
            && forall j :: 0 <= j < |firsts| ==> firsts[j] == (CursorOf(s, channel) + r) % n
  {
    var picks, c := Picks(s, ops, channel), CursorOf(s, channel);
    PicksAreTurns(s, ops, channel);
    FirstsAreStrides(picks, c, n, g, r);
    RoundsStayPut(FirstsOf(picks, n), c + r, g, n);
  }

  lemma SingleStrideHasNoCycle(n: nat)
    requires n > 0
    ensures NoShortCycle(1, n)
  {
    forall d: nat | 0 < d < n
      ensures !Cycles(1, d, n)
    {
      assert 1 * d == d;
      ModSmall(d, n);
    }
  }

  /** Without other pools in between every key of the pool has its share. */
  lemma SelectorIsFair(s: SelectorState, ops: seq<SelectorOp>, channel: ChannelId, n: nat, k: nat)
    requires k < n && KeepsChannel(ops, channel)
    requires CursorOf(s, channel) < U64 && CursorOf(s, channel) + |Picks(s, ops, channel)| <= U64
    requires forall i :: 0 <= i < |Picks(s, ops, channel)| ==> Picks(s, ops, channel)[i].len == n
    ensures var firsts := FirstsOf(Picks(s, ops, channel), n);
            |firsts| == |Picks(s, ops, channel)| && FairShare(Occurrences(firsts, k), |firsts|, n)
  {
    var picks := Picks(s, ops, channel);
    SingleStrideHasNoCycle(n);
    PicksAreTurns(s, ops, channel);
    FirstsAreStrides(picks, CursorOf(s, channel), n, 1, 0);
    MixedStartsAreFair(s, ops, channel, n, 1, 0, k);
  }

  /** An op that neither overwrites a binding nor meets a pool too small for it. */
  predicate LeavesBinding(op: SelectorOp, channel: ChannelId, id: nat, index: nat) {
    match op
    case Start(c, pool, identity, _) => c == channel && identity == Some(id) ==> index < pool.Len()
    case Commit(c, identity, _) => c != channel || identity != Some(id)
    case Forget(c) => c != channel
  }

  /** A committed key is the one its identity starts with, until it is recommitted, forgotten or out of range. */
  lemma {:induction false} StickyHolds(s: SelectorState, ops: seq<SelectorOp>, channel: ChannelId, id: nat, index: nat)
    requires forall i :: 0 <= i < |ops| ==> LeavesBinding(ops[i], channel, id, index)
    ensures var t := RunSelector(Committed(s, channel, Some(id), index), ops);
            && (channel, id) in t.sticky && t.sticky[(channel, id)] == index
            && forall pool: KeyPool, random: nat :: pool.Strategy().Sticky? && index < pool.Len() ==>
                 Started(t, channel, pool, Some(id), random) == (t, index)
  {
    if ops != [] {
      StickyHolds(s, ops[..|ops| - 1], channel, id, index);
    }
  }

  /** A binding that the pool no longer has is dropped at the next start, and not revived when the pool grows again. */
  lemma StaleBindingIsDropped(s: SelectorState, channel: ChannelId, pool: KeyPool, id: nat, random: nat)
    requires pool.Strategy().Sticky? && (channel, id) in s.sticky && s.sticky[(channel, id)] >= pool.Len()
    ensures var (t, index) := Started(s, channel, pool, Some(id), random);
            && (channel, id) !in t.sticky && index == CursorOf(s, channel) % pool.Len()
            && forall larger: KeyPool :: larger.Strategy().Sticky? ==>
                 Started(t, channel, larger, Some(id), random).1 == CursorOf(t, channel) % larger.Len()
  {
  }

  /** The random strategy begins with the drawn key and leaves no trace. */
  lemma RandomStartIsTheDraw(s: SelectorState, channel: ChannelId, pool: KeyPool, identity: Option<nat>, random: nat)
    requires pool.Strategy().Random?
    ensures Started(s, channel, pool, identity, random) == (s, random)
  {
  }

  /** A pool of one key takes its turn from the cursor whatever the channel's strategy, and keeps every binding. */
  lemma SingleKeyStartTakesATurn(s: SelectorState, channel: ChannelId, key: Credential, identity: Option<nat>,
                                 random: nat)
    ensures var (t, index) := Started(s, channel, Single(key), identity, random);
            && index == 0 && t.sticky == s.sticky
            && CursorOf(t, channel) == (CursorOf(s, channel) + 1) % 0x1_0000_0000_0000_0000
            && forall other: ChannelId :: other != channel ==> CursorOf(t, other) == CursorOf(s, other)
  {
  }

  /** A deleted channel leaves nothing behind, and the others keep what they have. */
  lemma ForgottenChannelIsNew(s: SelectorState, channel: ChannelId, other: ChannelId, id: nat)
    requires other != channel
    ensures var t := ChannelForgotten(s, channel);
            && CursorOf(t, channel) == 0 && (channel, id) !in t.sticky
            && CursorOf(t, other) == CursorOf(s, other)
            && ((other, id) in t.sticky <==> (other, id) in s.sticky)
            && ((other, id) in t.sticky ==> t.sticky[(other, id)] == s.sticky[(other, id)])
  {
  }
}
