/**
 Fixed-window rate limiting by natural minute, per key and per client address. The windows are a
 table that is pruned when it grows; what a limiter answers is decided by the history alone.
 */
module Rate {
  import opened Wrappers
  import opened Core
  import opened Modular

  /** The table size from which stale windows are dropped. */
  const MAX_WINDOWS: nat := 10_000

  datatype Window = Window(minute: nat, requests: nat, tokens: nat)

  datatype Dimension = Requests | Tokens

  datatype RateExceeded = RateExceeded(dimension: Dimension, retryAfterSecs: nat)

  type Windows = map<int, Window>

  // --------------------------------------------------------------- one window

  /** The stale windows go once the table is larger than `limit`. */
  function Pruned(windows: Windows, minute: nat, limit: nat): Windows {
    if |windows| > limit then map key | key in windows && windows[key].minute == minute :: windows[key] else windows
  }

  /** The current window of a key: a new one when there is none for this minute. */
  function Current(windows: Windows, key: int, minute: nat): Window {
    if key in windows && windows[key].minute == minute then windows[key] else Window(minute, 0, 0)
  }

  function RetryAfter(now: nat): nat {
    60 - now % 60
  }

  function Verdict(w: Window, rpm: int, tpm: int, now: nat): Option<RateExceeded> {
    if rpm > 0 && w.requests >= rpm then Some(RateExceeded(Requests, RetryAfter(now)))
    else if tpm > 0 && w.tokens >= tpm then Some(RateExceeded(Tokens, RetryAfter(now)))
    else None
  }

  /** The table after an admission check, and the refusal, if any. */
  function Admitted(windows: Windows, key: int, rpm: int, tpm: int, now: nat, limit: nat)
    : (Windows, Option<RateExceeded>)
  {
    var kept := Pruned(windows, now / 60, limit);
    var w := Current(kept, key, now / 60);
    var refusal := Verdict(w, rpm, tpm, now);
    (kept[key := if refusal.Some? then w else w.(requests := w.requests + 1)], refusal)
  }

  function Posted(windows: Windows, key: int, tokens: nat, now: nat, limit: nat): Windows {
    var kept := Pruned(windows, now / 60, limit);
    var w := Current(kept, key, now / 60);
    kept[key := w.(tokens := SaturatingAdd(w.tokens, tokens))]
  }

  class RateLimiter {
    var windows: Windows

    constructor ()
      ensures windows == map[]
    {
      windows := map[];
    }

    /** No limit means no accounting at all. */
    method Admit(key: int, rpm: int, tpm: int, now: nat) returns (refusal: Option<RateExceeded>)
      modifies this
      ensures if rpm <= 0 && tpm <= 0 then refusal.None? && windows == old(windows)
              else (windows, refusal) == Admitted(old(windows), key, rpm, tpm, now, MAX_WINDOWS)
    {
      if rpm <= 0 && tpm <= 0 {
        return None;
      }
      refusal := AdmitAt(key, rpm, tpm, now);
    }

    method AdmitAt(key: int, rpm: int, tpm: int, now: nat) returns (refusal: Option<RateExceeded>)
      modifies this
      ensures (windows, refusal) == Admitted(old(windows), key, rpm, tpm, now, MAX_WINDOWS)
    {
      var minute := now / 60;
      var retryAfterSecs := 60 - now % 60;
      PruneStaleWindows(minute);
      ghost var kept := windows;
      if key !in windows {
        windows := windows[key := Window(minute, 0, 0)];
      }
      if windows[key].minute != minute {
        windows := windows[key := Window(minute, 0, 0)];
      }
      var window := windows[key];
      assert window == Current(kept, key, minute) && windows == kept[key := window];
      if rpm > 0 && window.requests >= rpm {
        return Some(RateExceeded(Requests, retryAfterSecs));
      }
      if tpm > 0 && window.tokens >= tpm {
        return Some(RateExceeded(Tokens, retryAfterSecs));
      }
      windows := windows[key := window.(requests := window.requests + 1)];
      assert windows == kept[key := window.(requests := window.requests + 1)];
      return None;
    }

    method AddTokens(key: int, tokens: nat, now: nat)
      modifies this
      ensures windows == if tokens == 0 then old(windows) else Posted(old(windows), key, tokens, now, MAX_WINDOWS)
    {
      if tokens == 0 {
        return;
      }
      var minute := now / 60;
      PruneStaleWindows(minute);
      if key !in windows || windows[key].minute != minute {
        windows := windows[key := Window(minute, 0, 0)];
      }
      var window := windows[key];
      windows := windows[key := window.(tokens := SaturatingAdd(window.tokens, tokens))];
    }

    method PruneStaleWindows(minute: nat)
      modifies this
      ensures windows == Pruned(old(windows), minute, MAX_WINDOWS)
    {
      if |windows| > MAX_WINDOWS {
        windows := map key | key in windows && windows[key].minute == minute :: windows[key];
      }
    }
  }

  // ------------------------------------------------------------ per client address

  datatype IpWindow = IpWindow(minute: nat, requests: nat)

  function WithoutTokens(windows: map<int, IpWindow>): Windows {
    map ip | ip in windows :: Window(windows[ip].minute, windows[ip].requests, 0)
  }

  /** The limiter per client address; an address is any hashable value. */
  class IpRateLimiter {
    var windows: map<int, IpWindow>

    constructor ()
      ensures windows == map[]
    {
      windows := map[];
    }

    /** Behaves as the key limiter does without a token limit. */
    method Admit(ip: int, rpm: nat, now: nat) returns (refusal: Option<RateExceeded>)
      modifies this
      ensures if rpm == 0 then refusal.None? && windows == old(windows)
              else (WithoutTokens(windows), refusal)
                     == Admitted(WithoutTokens(old(windows)), ip, rpm, 0, now, MAX_WINDOWS)
    {
      if rpm == 0 {
        return None;
      }
      var minute := now / 60;
      var retryAfterSecs := 60 - now % 60;
      WithoutTokensPruned(windows, minute, MAX_WINDOWS);
      if |windows| > 10_000 {
        windows := map address | address in windows && windows[address].minute == minute :: windows[address];
      }
      ghost var kept := windows;
      if ip !in windows || windows[ip].minute != minute {
        windows := windows[ip := IpWindow(minute, 0)];
      }
      var window := windows[ip];
      assert Current(WithoutTokens(kept), ip, minute) == Window(minute, window.requests, 0);
      WithoutTokensUpdated(kept, ip, window);
      assert windows == kept[ip := window];
      if window.requests >= rpm {
        return Some(RateExceeded(Requests, retryAfterSecs));
      }
      windows := windows[ip := window.(requests := window.requests + 1)];
      WithoutTokensUpdated(kept, ip, IpWindow(minute, window.requests + 1));
      assert windows == kept[ip := IpWindow(minute, window.requests + 1)];
      return None;
    }
  }

  lemma WithoutTokensPruned(windows: map<int, IpWindow>, minute: nat, limit: nat)
    ensures Pruned(WithoutTokens(windows), minute, limit)
         == WithoutTokens(if |windows| > limit
                          then map address | address in windows && windows[address].minute == minute :: windows[address]
                          else windows)
  {
    assert WithoutTokens(windows).Keys == windows.Keys;
    assert |WithoutTokens(windows).Keys| == |WithoutTokens(windows)| && |windows.Keys| == |windows|;
  }

  lemma WithoutTokensUpdated(windows: map<int, IpWindow>, ip: int, w: IpWindow)
    ensures WithoutTokens(windows[ip := w]) == WithoutTokens(windows)[ip := Window(w.minute, w.requests, 0)]
  {
  }

  // -------------------------------------------------------------------- history

  /** A call to the limiter, with the limits in force at that moment. */
  datatype Call =
    | Ask(key: int, rpm: int, tpm: int, now: nat)
    | Post(key: int, amount: nat, now: nat)

  predicate Unlimited(call: Call) {
    call.Ask? && call.rpm <= 0 && call.tpm <= 0
  }

  /** The table after a call, for a table pruned beyond `limit`. */
  function After(windows: Windows, call: Call, limit: nat): Windows {
    match call
    case Ask(key, rpm, tpm, now) => if Unlimited(call) then windows else Admitted(windows, key, rpm, tpm, now, limit).0
    case Post(key, amount, now) => if amount == 0 then windows else Posted(windows, key, amount, now, limit)
  }

  function Answer(windows: Windows, call: Call, limit: nat): Option<RateExceeded> {
    if call.Ask? && !Unlimited(call) then Admitted(windows, call.key, call.rpm, call.tpm, call.now, limit).1 else None
  }

  function Run(calls: seq<Call>, limit: nat): Windows {
    if calls == [] then map[] else After(Run(calls[..|calls| - 1], limit), calls[|calls| - 1], limit)
  }

  /** Requests of `key` that the history admitted in `minute`, decided by the history alone. */
  function AdmittedIn(calls: seq<Call>, key: int, minute: nat): nat
    decreases |calls|, 0
  {
    if calls == [] then 0
    else
      var front, call := calls[..|calls| - 1], calls[|calls| - 1];
      AdmittedIn(front, key, minute)
      + (if Counts(front, call) && call.key == key && call.now / 60 == minute then 1 else 0)
  }

  /** Tokens of `key` posted in `minute`. */
  function PostedIn(calls: seq<Call>, key: int, minute: nat): (n: nat)
    ensures n <= U64_MAX
  {
    if calls == [] then 0
    else
      var front, call := calls[..|calls| - 1], calls[|calls| - 1];
      if call.Post? && call.key == key && call.now / 60 == minute
      then SaturatingAdd(PostedIn(front, key, minute), call.amount) else PostedIn(front, key, minute)
  }

  /** What the policy says about a call, by counting the history. */
  function Policy(history: seq<Call>, call: Call): Option<RateExceeded>
    decreases |history|, 1
  {
    if !call.Ask? || Unlimited(call) then None
    else Verdict(Window(call.now / 60, AdmittedIn(history, call.key, call.now / 60),
                        PostedIn(history, call.key, call.now / 60)),
                 call.rpm, call.tpm, call.now)
  }

  /** A request that the policy admits and that is under some limit. */
  predicate Counts(history: seq<Call>, call: Call)
    decreases |history|, 2
  {
    call.Ask? && !Unlimited(call) && Policy(history, call).None?
  }

  lemma CountsMeans(history: seq<Call>, call: Call)
    ensures Counts(history, call) <==> call.Ask? && !Unlimited(call) && Policy(history, call).None?
    ensures Counts(history, call) && call.rpm > 0 ==> AdmittedIn(history, call.key, call.now / 60) < call.rpm
  {
  }

  // ----------------------------------------------------------- following the history

  /** Once a call reads `minute`, every later one does. */
  predicate NotLeft(calls: seq<Call>, minute: nat) {
    forall i, j :: 0 <= i <= j < |calls| && calls[i].now / 60 == minute ==> calls[j].now / 60 == minute
  }

  /** The window that a key has in a minute, according to the history. */
  function HistoryWindow(calls: seq<Call>, key: int, minute: nat): Window {
    Window(minute, AdmittedIn(calls, key, minute), PostedIn(calls, key, minute))
  }

  lemma PruningKeepsCurrent(windows: Windows, limit: nat, key: int, minute: nat)
    ensures Current(Pruned(windows, minute, limit), key, minute) == Current(windows, key, minute)
  {
  }

  /** A call that reads `minute` is answered, and changes the windows of that minute, as the history says. */
  lemma StepIsFaithful(windows: Windows, calls: seq<Call>, key: int, minute: nat, limit: nat)
    requires calls != [] && calls[|calls| - 1].now / 60 == minute
    requires var front, call := calls[..|calls| - 1], calls[|calls| - 1];
             Current(windows, call.key, minute) == HistoryWindow(front, call.key, minute)
             && Current(windows, key, minute) == HistoryWindow(front, key, minute)
    ensures var front, call := calls[..|calls| - 1], calls[|calls| - 1];
            Answer(windows, call, limit) == Policy(front, call)
            && Current(After(windows, call, limit), key, minute) == HistoryWindow(calls, key, minute)
  {
    var front, call := calls[..|calls| - 1], calls[|calls| - 1];
    PruningKeepsCurrent(windows, limit, call.key, minute);
    PruningKeepsCurrent(windows, limit, key, minute);
    CountsMeans(front, call);
  }

  /** A window's minute is one in which its key called. */
  lemma {:induction false} UntouchedMinute(calls: seq<Call>, key: int, minute: nat, limit: nat)
    requires forall i :: 0 <= i < |calls| && calls[i].key == key ==> calls[i].now / 60 != minute
    ensures Current(Run(calls, limit), key, minute) == Window(minute, 0, 0) == HistoryWindow(calls, key, minute)
  {
    if calls != [] {
      var n := |calls| - 1;
      UntouchedMinute(calls[..n], key, minute, limit);
      assert calls[n].key == key ==> calls[n].now / 60 != minute;
    }
  }

  /**
   While a minute lasts, every window of it holds exactly that minute's admissions and posted
   tokens, whatever the clock read before and whatever the size at which the table is pruned.
   */
  lemma {:induction false} WindowsAreHistory(calls: seq<Call>, key: int, minute: nat, limit: nat)
    requires NotLeft(calls, minute)
    ensures Current(Run(calls, limit), key, minute) == HistoryWindow(calls, key, minute)
  {
    if calls != [] {
      var n := |calls| - 1;
      var front, call := calls[..n], calls[n];
      if call.now / 60 == minute {
        WindowsAreHistory(front, key, minute, limit);
        WindowsAreHistory(front, call.key, minute, limit);
        StepIsFaithful(Run(front, limit), calls, key, minute, limit);
      } else {
        UntouchedMinute(calls, key, minute, limit);
      }
    }
  }

  /**
   As long as the minute it reads has not been left, a call is answered as counting the history
   answers it, for every pruning threshold: garbage collection is unobservable.
   */
  lemma LimiterFollowsPolicy(history: seq<Call>, call: Call, limit: nat)
    requires NotLeft(history, call.now / 60)
    ensures Answer(Run(history, limit), call, limit) == Policy(history, call)
  {
    var calls := history + [call];
    assert calls[..|history|] == history;
    WindowsAreHistory(history, call.key, call.now / 60, limit);
    StepIsFaithful(Run(history, limit), calls, call.key, call.now / 60, limit);
  }

  // ------------------------------------------------------------------ clock readings

  /** What the clock read, call by call. */
  function Readings(calls: seq<Call>): seq<nat> {
    seq(|calls|, i requires 0 <= i < |calls| => calls[i].now)
  }

  /** No reading of another minute comes between two readings of this one. */
  predicate Unbroken(times: seq<nat>, minute: nat) {
    forall i, j, k :: 0 <= i < j < k < |times| && times[i] / 60 == minute && times[k] / 60 == minute ==>
      times[j] / 60 == minute
  }

  /** No minute comes back after another one. */
  predicate NoMinuteReturns(times: seq<nat>) {
    forall i, j, k :: 0 <= i < j < k < |times| && times[i] / 60 == times[k] / 60 ==> times[j] / 60 == times[k] / 60
  }

  /** A clock that does not go back repeats no minute. */
  lemma OrderedClockRepeatsNoMinute(times: seq<nat>)
    requires forall i, j :: 0 <= i <= j < |times| ==> times[i] <= times[j]
    ensures NoMinuteReturns(times)
  {
    forall i, j, k | 0 <= i < j < k < |times| && times[i] / 60 == times[k] / 60
      ensures times[j] / 60 == times[k] / 60
    {
      assert times[i] <= times[j] <= times[k];
    }
  }

  /** Every call of a run is answered as the history before it says. */
  predicate Followed(calls: seq<Call>, limit: nat) {
    forall i :: 0 <= i < |calls| ==> Answer(Run(calls[..i], limit), calls[i], limit) == Policy(calls[..i], calls[i])
  }

  // ------------------------------------------------------------ what the limiter lets through

  /** Every request of `key` asks under the same limit. */
  predicate AlwaysUnder(calls: seq<Call>, key: int, rpm: nat) {
    forall i :: 0 <= i < |calls| && calls[i].Ask? && calls[i].key == key ==> calls[i].rpm == rpm
  }

  /** A request under some limit that the limiter, in the state `windows`, lets through. */
  predicate LetThrough(windows: Windows, call: Call, limit: nat) {
    call.Ask? && !Unlimited(call) && Answer(windows, call, limit).None?
  }

  predicate Within(now: nat, from: nat, to: nat) {
    from <= now < to
  }

  /** Requests of `key` that the limiter let through at moments in [from, to). */
  function Through(calls: seq<Call>, key: int, from: nat, to: nat, limit: nat): nat {
    if calls == [] then 0
    else
      var front, call := calls[..|calls| - 1], calls[|calls| - 1];
      Through(front, key, from, to, limit)
      + (if call.key == key && Within(call.now, from, to) && LetThrough(Run(front, limit), call, limit) then 1 else 0)
  }

  /** The readings end with a stay in `minute` that has already read a moment in [from, to). */
  predicate StayCounted(times: seq<nat>, minute: nat, from: nat, to: nat) {
    times != [] && times[|times| - 1] / 60 == minute
    && (Within(times[|times| - 1], from, to) || StayCounted(times[..|times| - 1], minute, from, to))
  }

  /** A reading is the first in [from, to) of its stay. */
  predicate OpensStay(times: seq<nat>, now: nat, from: nat, to: nat) {
    Within(now, from, to) && !StayCounted(times, now / 60, from, to)
  }

  /** How many stays, stretches of readings of one minute, read a moment in [from, to). */
  function Stays(times: seq<nat>, from: nat, to: nat): nat {
    if times == [] then 0
    else
      var front, now := times[..|times| - 1], times[|times| - 1];
      Stays(front, from, to) + (if OpensStay(front, now, from, to) then 1 else 0)
  }

  lemma ReadingsOfFront(calls: seq<Call>)
    requires calls != []
    ensures Readings(calls)[..|calls| - 1] == Readings(calls[..|calls| - 1])
    ensures Readings(calls)[|calls| - 1] == calls[|calls| - 1].now
  {
  }

  lemma {:induction false} WindowsAreUnder(calls: seq<Call>, key: int, rpm: nat, minute: nat, limit: nat)
    requires AlwaysUnder(calls, key, rpm) && rpm > 0
    ensures Current(Run(calls, limit), key, minute).requests <= rpm
  {
    if calls != [] {
      var n := |calls| - 1;
      var front, call := calls[..n], calls[n];
      assert call.Ask? && call.key == key ==> call.rpm == rpm;
      WindowsAreUnder(front, key, rpm, minute, limit);
      WindowsAreUnder(front, key, rpm, call.now / 60, limit);
      PruningKeepsCurrent(Run(front, limit), limit, key, call.now / 60);
    }
  }

  /** What one call does to a key's window of the minute it reads. */
  lemma WindowStep(windows: Windows, call: Call, key: int, limit: nat)
    ensures var minute := call.now / 60;
            var w, v := Current(windows, key, minute), Current(After(windows, call, limit), key, minute);
            v.requests == w.requests + (if call.key == key && LetThrough(windows, call, limit) then 1 else 0)
  {
    PruningKeepsCurrent(windows, limit, key, call.now / 60);
    PruningKeepsCurrent(windows, limit, call.key, call.now / 60);
  }

  /** The bound while a run grows: of the last stay only what its window has counted is used up. */
  ghost predicate Bounded(calls: seq<Call>, key: int, rpm: nat, from: nat, to: nat, limit: nat) {
    var times := Readings(calls);
    && Through(calls, key, from, to, limit) <= rpm * Stays(times, from, to)
    && (calls != [] && StayCounted(times, calls[|calls| - 1].now / 60, from, to) ==>
          Through(calls, key, from, to, limit) + rpm
            <= rpm * Stays(times, from, to)
               + Current(Run(calls, limit), key, calls[|calls| - 1].now / 60).requests)
  }

  lemma {:induction false} StayIsCountedOnce(times: seq<nat>, minute: nat, from: nat, to: nat)
    ensures StayCounted(times, minute, from, to) ==> Stays(times, from, to) > 0
  {
    if times != [] {
      StayIsCountedOnce(times[..|times| - 1], minute, from, to);
    }
  }

  lemma OneMoreStay(rpm: nat, stays: nat)
    ensures rpm * (stays + 1) == rpm * stays + rpm
  {
  }

  lemma {:induction false} RunIsBounded(calls: seq<Call>, key: int, rpm: nat, from: nat, to: nat, limit: nat)
    requires rpm > 0 && AlwaysUnder(calls, key, rpm)
    ensures Bounded(calls, key, rpm, from, to, limit)
  {
    if calls != [] {
      var n := |calls| - 1;
      var front, call := calls[..n], calls[n];
      RunIsBounded(front, key, rpm, from, to, limit);
      ReadingsOfFront(calls);
      WindowStep(Run(front, limit), call, key, limit);
      WindowsAreUnder(calls, key, rpm, call.now / 60, limit);
      OneMoreStay(rpm, Stays(Readings(front), from, to));
      assert StayCounted(Readings(front), call.now / 60, from, to) ==> front[n - 1].now / 60 == call.now / 60;
    }
  }

  /**
   In any span of time at most `rpm` requests get through per stay of the clock in a minute: for
   every run, every pruning threshold and every clock.
   */
  lemma AtMostRpmPerStay(calls: seq<Call>, key: int, rpm: nat, from: nat, to: nat, limit: nat)
    requires rpm > 0 && AlwaysUnder(calls, key, rpm)
    ensures Through(calls, key, from, to, limit) <= rpm * Stays(Readings(calls), from, to)
  {
    RunIsBounded(calls, key, rpm, from, to, limit);
  }

  // ------------------------------------------------------------------- exact bounds

  /** A run over given readings that asks once per stay, and in between posts tokens that nobody limits. */
  function Greedy(times: seq<nat>, from: nat, to: nat): seq<Call> {
    if times == [] then []
    else
      var front, now := times[..|times| - 1], times[|times| - 1];
      Greedy(front, from, to) + [if OpensStay(front, now, from, to) then Ask(0, 1, 0, now) else Post(0, 1, now)]
  }

  lemma {:induction false} GreedyReads(times: seq<nat>, from: nat, to: nat)
    ensures Readings(Greedy(times, from, to)) == times && AlwaysUnder(Greedy(times, from, to), 0, 1)
  {
    if times != [] {
      GreedyReads(times[..|times| - 1], from, to);
    }
  }

  /** It gets through as often as there are stays. */
  lemma {:induction false} GreedyGetsThrough(times: seq<nat>, from: nat, to: nat, limit: nat)
    ensures Through(Greedy(times, from, to), 0, from, to, limit) == Stays(times, from, to)
    ensures InStep(Run(Greedy(times, from, to), limit), times, from, to)
  {
    if times != [] {
      var n := |times| - 1;
      var before, calls := Greedy(times[..n], from, to), Greedy(times, from, to);
      GreedyGetsThrough(times[..n], from, to, limit);
      assert calls[..|before|] == before && |calls| == |before| + 1;
      GreedyStep(Run(before, limit), times[..n], times[n], calls[|before|], from, to, limit);
    }
  }

  /** The window of key 0 is of the last stay and has let one request through once that stay is counted. */
  predicate InStep(windows: Windows, times: seq<nat>, from: nat, to: nat) {
    if times == [] then windows == map[]
    else
      var minute := times[|times| - 1] / 60;
      0 in windows && windows[0].minute == minute
      && windows[0].requests == (if StayCounted(times, minute, from, to) then 1 else 0)
  }

  lemma GreedyStep(windows: Windows, front: seq<nat>, now: nat, call: Call, from: nat, to: nat, limit: nat)
    requires InStep(windows, front, from, to)
    requires call == if OpensStay(front, now, from, to) then Ask(0, 1, 0, now) else Post(0, 1, now)
    ensures var after, counted := After(windows, call, limit), StayCounted(front, now / 60, from, to);
            && (call.Ask? ==> LetThrough(windows, call, limit))
            && 0 in after && after[0].minute == now / 60
            && after[0].requests == (if counted || Within(now, from, to) then 1 else 0)
  {
    PruningKeepsCurrent(windows, limit, 0, now / 60);
  }

  /** Some run over these readings lets as many requests through as there are stays. */
  lemma GreedyRun(times: seq<nat>, from: nat, to: nat, limit: nat) returns (calls: seq<Call>)
    ensures Readings(calls) == times && AlwaysUnder(calls, 0, 1)
    ensures Through(calls, 0, from, to, limit) == Stays(times, from, to)
  {
    calls := Greedy(times, from, to);
    GreedyReads(times, from, to);
    GreedyGetsThrough(times, from, to, limit);
  }

  /** Every run over these readings lets at most `most` times its limit through in [from, to). */
  ghost predicate AlwaysAtMost(times: seq<nat>, most: nat, from: nat, to: nat, limit: nat) {
    forall calls, key, rpm: nat :: Readings(calls) == times && rpm > 0 && AlwaysUnder(calls, key, rpm) ==>
      Through(calls, key, from, to, limit) <= rpm * most
  }

  /** What the clock read decides what can get through: the factor is the number of stays and no less. */
  lemma BoundIsExact(times: seq<nat>, most: nat, from: nat, to: nat, limit: nat)
    ensures AlwaysAtMost(times, most, from, to, limit) <==> Stays(times, from, to) <= most
  {
    var calls := GreedyRun(times, from, to, limit);
    assert Through(calls, 0, from, to, limit) <= 1 * most <==> Stays(times, from, to) <= most;
    if Stays(times, from, to) <= most {
      forall calls, key, rpm: nat | Readings(calls) == times && rpm > 0 && AlwaysUnder(calls, key, rpm)
        ensures Through(calls, key, from, to, limit) <= rpm * most
      {
        AtMostRpmPerStay(calls, key, rpm, from, to, limit);
        ProductMonotone(rpm, Stays(times, from, to), most);
      }
    }
  }

  // ------------------------------------------------------------- minutes and moments

  lemma {:induction false} NoStay(times: seq<nat>, minute: nat)
    ensures Stays(times, 60 * minute, 60 * minute + 60) == 0
       <==> forall i :: 0 <= i < |times| ==> times[i] / 60 != minute
  {
    if times != [] {
      var n := |times| - 1;
      NoStay(times[..n], minute);
      StayIsCountedOnce(times[..n], minute, 60 * minute, 60 * minute + 60);
      assert Within(times[n], 60 * minute, 60 * minute + 60) <==> times[n] / 60 == minute;
    }
  }

  /** A whole minute is read in one stay at most exactly if no other minute interrupts it. */
  lemma {:induction false} OneStayIfUnbroken(times: seq<nat>, minute: nat)
    ensures Stays(times, 60 * minute, 60 * minute + 60) <= 1 <==> Unbroken(times, minute)
  {
    if times != [] {
      var n := |times| - 1;
      var front, now := times[..n], times[n];
      OneStayIfUnbroken(front, minute);
      NoStay(front, minute);
      assert Within(now, 60 * minute, 60 * minute + 60) <==> now / 60 == minute;
      if now / 60 == minute && n > 0 {
        LastReadingBreaks(times, minute);
      }
    }
  }

  /** What one more reading of `minute` means for it. */
  lemma LastReadingBreaks(times: seq<nat>, minute: nat)
    requires |times| >= 2 && times[|times| - 1] / 60 == minute
    ensures Unbroken(times, minute)
       <==> if times[|times| - 2] / 60 == minute then Unbroken(times[..|times| - 1], minute)
            else forall i :: 0 <= i < |times| - 1 ==> times[i] / 60 != minute
  {
  }

  /** Sixty seconds overlap two minutes, and see no more stays than these. */
  lemma {:induction false} SixtySecondsAreTwoMinutes(times: seq<nat>, start: nat)
    ensures var a := start / 60;
            var overlapped := Stays(times, 60 * a, 60 * a + 60) + Stays(times, 60 * a + 60, 60 * a + 120);
            && Stays(times, start, start + 60) <= overlapped
            && (times != [] && a <= times[|times| - 1] / 60 <= a + 1
                && !StayCounted(times, times[|times| - 1] / 60, start, start + 60) ==>
                  Stays(times, start, start + 60) < overlapped)
  {
    if times != [] {
      SixtySecondsAreTwoMinutes(times[..|times| - 1], start);
    }
  }

  lemma NoMinuteReturnsMeans(times: seq<nat>)
    ensures NoMinuteReturns(times) <==> forall minute: nat :: Unbroken(times, minute)
  {
    if forall minute: nat :: Unbroken(times, minute) {
      forall i, j, k | 0 <= i < j < k < |times| && times[i] / 60 == times[k] / 60
        ensures times[j] / 60 == times[k] / 60
      {
        assert Unbroken(times, times[k] / 60);
      }
    }
  }

  /**
   A limit lets at most `rpm` requests through per natural minute, for every run over given
   readings, exactly if the clock does not come back to that minute after another one.
   */
  lemma AtMostRpmPerMinute(times: seq<nat>, minute: nat, limit: nat)
    ensures AlwaysAtMost(times, 1, 60 * minute, 60 * minute + 60, limit) <==> Unbroken(times, minute)
  {
    BoundIsExact(times, 1, 60 * minute, 60 * minute + 60, limit);
    OneStayIfUnbroken(times, minute);
  }

  /** At most twice the limit gets through in any sixty seconds, wherever they start, if no minute comes back. */
  lemma AtMostTwiceRpmPerSixtySeconds(times: seq<nat>, start: nat, limit: nat)
    ensures AlwaysAtMost(times, 2, start, start + 60, limit) <==> Stays(times, start, start + 60) <= 2
    ensures NoMinuteReturns(times) ==> AlwaysAtMost(times, 2, start, start + 60, limit)
  {
    BoundIsExact(times, 2, start, start + 60, limit);
    if NoMinuteReturns(times) {
      NoMinuteReturnsMeans(times);
      OneStayIfUnbroken(times, start / 60);
      OneStayIfUnbroken(times, start / 60 + 1);
      SixtySecondsAreTwoMinutes(times, start);
    }
  }

  // --------------------------------------------------------- when the history is followed

  /** The policy admits at most `rpm` requests per minute, whatever the clock. */
  lemma {:induction false} PolicyAdmitsAtMostRpm(calls: seq<Call>, key: int, rpm: nat, minute: nat)
    requires rpm > 0 && AlwaysUnder(calls, key, rpm)
    ensures AdmittedIn(calls, key, minute) <= rpm
  {
    if calls != [] {
      var front, call := calls[..|calls| - 1], calls[|calls| - 1];
      PolicyAdmitsAtMostRpm(front, key, rpm, minute);
      CountsMeans(front, call);
    }
  }

  /** A run that follows the history lets through what the history admits. */
  lemma {:induction false} FollowedRunIsHistory(calls: seq<Call>, key: int, minute: nat, limit: nat)
    requires Followed(calls, limit)
    ensures Through(calls, key, 60 * minute, 60 * minute + 60, limit) == AdmittedIn(calls, key, minute)
  {
    if calls != [] {
      var n := |calls| - 1;
      var front := calls[..n];
      forall i | 0 <= i < n
        ensures Answer(Run(front[..i], limit), front[i], limit) == Policy(front[..i], front[i])
      {
        assert front[..i] == calls[..i];
      }
      FollowedRunIsHistory(front, key, minute, limit);
      CountsMeans(front, calls[n]);
    }
  }

  ghost predicate AlwaysFollowed(times: seq<nat>, limit: nat) {
    forall calls :: Readings(calls) == times ==> Followed(calls, limit)
  }

  lemma RunIsFollowed(calls: seq<Call>, limit: nat)
    requires NoMinuteReturns(Readings(calls))
    ensures Followed(calls, limit)
  {
    var times := Readings(calls);
    forall i | 0 <= i < |calls|
      ensures Answer(Run(calls[..i], limit), calls[i], limit) == Policy(calls[..i], calls[i])
    {
      assert forall j :: 0 <= j < |calls| ==> times[j] == calls[j].now;
      LimiterFollowsPolicy(calls[..i], calls[i], limit);
    }
  }

  /** Were the minute read in two stays, one request too many would get through. */
  lemma FollowedMinuteIsUnbroken(times: seq<nat>, minute: nat, limit: nat)
    requires AlwaysFollowed(times, limit)
    ensures Unbroken(times, minute)
  {
    var calls := GreedyRun(times, 60 * minute, 60 * minute + 60, limit);
    FollowedRunIsHistory(calls, 0, minute, limit);
    PolicyAdmitsAtMostRpm(calls, 0, 1, minute);
    OneStayIfUnbroken(times, minute);
  }

  /**
   Counting the history tells all answers of every run over given readings exactly if no minute
   comes back after another one, which is less than an ordered clock and the same for all
   pruning thresholds.
   */
  lemma FollowedIfNoMinuteReturns(times: seq<nat>, limit: nat)
    ensures AlwaysFollowed(times, limit) <==> NoMinuteReturns(times)
  {
    NoMinuteReturnsMeans(times);
    if NoMinuteReturns(times) {
      forall calls | Readings(calls) == times
        ensures Followed(calls, limit)
      {
        RunIsFollowed(calls, limit);
      }
    }
    if AlwaysFollowed(times, limit) {
      forall minute: nat
        ensures Unbroken(times, minute)
      {
        FollowedMinuteIsUnbroken(times, minute, limit);
      }
    }
  }

  /**
   A clock that does not go back keeps every promise: all answers are the history's, and at most
   `rpm` requests get through per natural minute and twice as many in any sixty seconds.
   */
  lemma OrderedClockKeepsPromises(times: seq<nat>, limit: nat, minute: nat, start: nat)
    requires forall i, j :: 0 <= i <= j < |times| ==> times[i] <= times[j]
    ensures AlwaysFollowed(times, limit)
    ensures AlwaysAtMost(times, 1, 60 * minute, 60 * minute + 60, limit)
    ensures AlwaysAtMost(times, 2, start, start + 60, limit)
  {
    OrderedClockRepeatsNoMinute(times);
    FollowedIfNoMinuteReturns(times, limit);
    NoMinuteReturnsMeans(times);
    AtMostRpmPerMinute(times, minute, limit);
    AtMostTwiceRpmPerSixtySeconds(times, start, limit);
  }

  /** The smallest case: a minute, another one, and the first again. The third request gets through though refused. */
  lemma ClockMustNotGoBack(key: int, x: nat, y: nat, z: nat, limit: nat)
    requires x / 60 == z / 60 != y / 60
    ensures Policy([Ask(key, 1, 0, x), Ask(key, 1, 0, y)], Ask(key, 1, 0, z))
         == Some(RateExceeded(Requests, RetryAfter(z)))
    ensures Answer(Run([Ask(key, 1, 0, x), Ask(key, 1, 0, y)], limit), Ask(key, 1, 0, z), limit).None?
  {
    var first, second, late := Ask(key, 1, 0, x), Ask(key, 1, 0, y), Ask(key, 1, 0, z);
    var history := [first, second];
    assert history[..1] == [first] && [first][..0] == [];
    assert AdmittedIn([], key, x / 60) == 0 && PostedIn([], key, x / 60) == 0 && Counts([], first);
    assert AdmittedIn([first], key, x / 60) == 1 && AdmittedIn([first], key, y / 60) == 0;
    assert AdmittedIn(history, key, x / 60) == 1;
    var one := After(map[], first, limit);
    assert Run([first], limit) == After(Run([], limit), first, limit);
    assert key in one && one[key] == Window(x / 60, 1, 0);
    var two := After(one, second, limit);
    assert Run(history, limit) == two;
    assert key in two && two[key] == Window(y / 60, 1, 0);
  }

  // ----------------------------------------------------------------- both limits

  /** The plain sum of the tokens of `key` posted in `minute`. */
  function TokenSum(calls: seq<Call>, key: int, minute: nat): nat {
    if calls == [] then 0
    else
      var call := calls[|calls| - 1];
      TokenSum(calls[..|calls| - 1], key, minute)
      + (if call.Post? && call.key == key && call.now / 60 == minute then call.amount else 0)
  }

  lemma {:induction false} PostedIsSum(calls: seq<Call>, key: int, minute: nat)
    ensures PostedIn(calls, key, minute) == Min(U64_MAX, TokenSum(calls, key, minute))
  {
    if calls != [] {
      PostedIsSum(calls[..|calls| - 1], key, minute);
    }
  }

  /** In a minute that has not been left, the limiter lets through what the history admits. */
  lemma {:induction false} ThroughIsHistory(calls: seq<Call>, key: int, minute: nat, limit: nat)
    requires NotLeft(calls, minute)
    ensures Through(calls, key, 60 * minute, 60 * minute + 60, limit) == AdmittedIn(calls, key, minute)
  {
    if calls != [] {
      var n := |calls| - 1;
      var front, call := calls[..n], calls[n];
      ThroughIsHistory(front, key, minute, limit);
      CountsMeans(front, call);
      assert Within(call.now, 60 * minute, 60 * minute + 60) <==> call.now / 60 == minute;
      if call.now / 60 == minute {
        LimiterFollowsPolicy(front, call, limit);
      }
    }
  }

  /**
   What a request is told, by counting: too many requests exactly if that many of its key got
   through in the minute, else too many tokens exactly if that many were posted in it, else nothing.
   A limit that is not positive does not count. The windows, and when they are pruned, do not matter.
   */
  lemma AnswerIsByCounting(history: seq<Call>, key: int, rpm: int, tpm: int, now: nat, limit: nat)
    requires NotLeft(history, now / 60)
    ensures var minute := now / 60;
            var through := Through(history, key, 60 * minute, 60 * minute + 60, limit);
            var tokens := Min(0xFFFF_FFFF_FFFF_FFFF, TokenSum(history, key, minute));
            Answer(Run(history, limit), Ask(key, rpm, tpm, now), limit)
              == if rpm > 0 && through >= rpm then Some(RateExceeded(Requests, 60 - now % 60))
                 else if tpm > 0 && tokens >= tpm then Some(RateExceeded(Tokens, 60 - now % 60))
                 else None
  {
    LimiterFollowsPolicy(history, Ask(key, rpm, tpm, now), limit);
    ThroughIsHistory(history, key, now / 60, limit);
    PostedIsSum(history, key, now / 60);
  }

  /** A request without a limit is let through and leaves no trace. */
  lemma UnlimitedLeavesNoTrace(windows: Windows, key: int, rpm: int, tpm: int, now: nat, limit: nat)
    requires rpm <= 0 && tpm <= 0
    ensures After(windows, Ask(key, rpm, tpm, now), limit) == windows
    ensures Answer(windows, Ask(key, rpm, tpm, now), limit).None?
  {
  }

  // ------------------------------------------------------------------------ retrying

  /** The advice of a refusal is one minute at most and lands on the first second of the next one. */
  lemma RetryLandsOnNextMinute(now: nat)
    ensures 1 <= RetryAfter(now) <= 60
    ensures (now + RetryAfter(now)) % 60 == 0 && (now + RetryAfter(now)) / 60 == now / 60 + 1
  {
  }

  /**
   A caller that waits as told is admitted, whatever calls of whatever keys come in between, unless
   its own key has called in that next minute before.
   */
  lemma RetryIsAdmitted(calls: seq<Call>, key: int, rpm: int, tpm: int, now: nat, limit: nat)
    requires forall i :: 0 <= i < |calls| && calls[i].key == key ==> calls[i].now / 60 != now / 60 + 1
    ensures Answer(Run(calls, limit), Ask(key, rpm, tpm, now + RetryAfter(now)), limit).None?
  {
    RetryLandsOnNextMinute(now);
    UntouchedMinute(calls, key, now / 60 + 1, limit);
    PruningKeepsCurrent(Run(calls, limit), limit, key, now / 60 + 1);
  }
}
