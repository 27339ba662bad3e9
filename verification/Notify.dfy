/**
 Routing events turned into policy: an endpoint whose credential keeps failing is switched off,
 and notifications about the same thing keep their distance.
 */
module Notify {
  import opened Wrappers
  import opened Core

  const AUTH_DISABLE_THRESHOLD: nat := 3

  /** Instants count nanoseconds; repeated notifications are held back for 300 seconds. */
  const DEDUP_WINDOW: nat := 300_000_000_000

  type EndpointId = (ChannelId, Protocol)

  datatype RouterEvent =
    | Failure(channel: ChannelId, name: string, protocol: Protocol, kind: ErrorKind, suspended: bool)
    | Success(channel: ChannelId, name: string, protocol: Protocol, recovered: bool)
  {
    function Endpoint(): EndpointId {
      (channel, protocol)
    }

    predicate IsAuthFailure() {
      Failure? && (kind.Unauthenticated? || kind.PermissionDenied?)
    }
  }

  /** What the worker finds around an event: the clock, a configured webhook, and whether the repository obeys. */
  datatype Surroundings = Surroundings(now: nat, configured: bool, disableSucceeds: bool)

  function ProtocolText(p: Protocol): string {
    match p
    case Chat => "Some(Chat)"
    case Responses => "Some(Responses)"
    case Messages => "Some(Messages)"
    case Gemini => "Some(Gemini)"
  }

  function NoticeKey(event: string, channel: string, protocol: Protocol): string {
    event + ":" + channel + ":" + ProtocolText(protocol)
  }

  const SUSPENDED := "endpoint.suspended"
  const RECOVERED := "endpoint.recovered"
  const AUTO_DISABLED := "channel.auto_disabled"

  // ---------------------------------------------------------------------- state

  datatype WorkerState = WorkerState(streaks: map<EndpointId, nat>, dedup: map<string, nat>)

  /** What an event led to: an attempt to switch a channel off, and a notification that was sent. */
  datatype Effects = Effects(disables: seq<EndpointId>, sent: seq<string>)

  const NOTHING := Effects([], [])

  function Streak(streaks: map<EndpointId, nat>, endpoint: EndpointId): nat {
    if endpoint in streaks then streaks[endpoint] else 0
  }

  /** `Instant::duration_since`, which saturates. */
  function Since(now: nat, at: nat): nat {
    if now < at then 0 else now - at
  }

  predicate MaySend(dedup: map<string, nat>, key: string, now: nat, configured: bool) {
    configured && (key in dedup ==> Since(now, dedup[key]) >= DEDUP_WINDOW)
  }

  /** The table after an attempt to notify, with entries dropped once they are `horizon` old. */
  function Noted(dedup: map<string, nat>, key: string, now: nat, configured: bool, horizon: nat): map<string, nat> {
    if !MaySend(dedup, key, now, configured) then dedup
    else
      var all := dedup[key := now];
      map k | k in all && Since(now, all[k]) < horizon :: all[k]
  }

  /** The streaks after an event, and whether it calls for switching the channel off. */
  function Counted(streaks: map<EndpointId, nat>, event: RouterEvent): (map<EndpointId, nat>, bool) {
    if event.Success? then (streaks - {event.Endpoint()}, false)
    else if !event.IsAuthFailure() then (streaks, false)
    else
      var streak := Streak(streaks, event.Endpoint()) + 1;
      if streak >= AUTH_DISABLE_THRESHOLD then (streaks[event.Endpoint() := 0], true)
      else (streaks[event.Endpoint() := streak], false)
  }

  /** The notification an event asks for. */
  function NoticeOf(event: RouterEvent, disables: bool, disableSucceeds: bool): Option<string> {
    match event
    case Failure(_, name, protocol, _, suspended) =>
      if disables then (if disableSucceeds then Some(NoticeKey(AUTO_DISABLED, name, protocol)) else None)
      else if suspended then Some(NoticeKey(SUSPENDED, name, protocol)) else None
    case Success(_, name, protocol, recovered) =>
      if recovered then Some(NoticeKey(RECOVERED, name, protocol)) else None
  }

  /** One attempt to notify. */
  datatype Notice = Notice(key: string, now: nat, configured: bool)

  /** The attempt that handling an event makes, if any. */
  function AttemptFor(streaks: map<EndpointId, nat>, event: RouterEvent, env: Surroundings): seq<Notice> {
    match NoticeOf(event, Counted(streaks, event).1, env.disableSucceeds)
    case None => []
    case Some(key) => [Notice(key, env.now, env.configured)]
  }

  function DedupNext(dedup: map<string, nat>, attempt: seq<Notice>): map<string, nat> {
    if attempt == [] then dedup
    else Noted(dedup, attempt[0].key, attempt[0].now, attempt[0].configured, 2 * DEDUP_WINDOW)
  }

  function Sent(dedup: map<string, nat>, attempt: seq<Notice>): seq<string> {
    if attempt != [] && MaySend(dedup, attempt[0].key, attempt[0].now, attempt[0].configured)
    then [attempt[0].key] else []
  }

  function Handled(s: WorkerState, event: RouterEvent, env: Surroundings): (WorkerState, Effects) {
    var (streaks, disables) := Counted(s.streaks, event);
    var attempt := AttemptFor(s.streaks, event, env);
    (WorkerState(streaks, DedupNext(s.dedup, attempt)),
     Effects(if disables then [event.Endpoint()] else [], Sent(s.dedup, attempt)))
  }

  class EventWorker {
    var streaks: map<EndpointId, nat>
    var dedup: map<string, nat>

    function View(): WorkerState
      reads this
    {
      WorkerState(streaks, dedup)
    }

    constructor ()
      ensures View() == WorkerState(map[], map[])
    {
      streaks := map[];
      dedup := map[];
    }

    method Handle(event: RouterEvent, env: Surroundings) returns (effects: Effects)
      modifies this
      ensures (View(), effects) == Handled(old(View()), event, env)
    {
      match event {
        case Failure(channel, name, protocol, kind, suspended) =>
          if kind.Unauthenticated? || kind.PermissionDenied? {
            var endpoint := (channel, protocol);
            if endpoint !in streaks {
              streaks := streaks[endpoint := 0];
            }
            streaks := streaks[endpoint := streaks[endpoint] + 1];
            assert streaks == old(streaks)[endpoint := Streak(old(streaks), endpoint) + 1];
            if streaks[endpoint] >= AUTH_DISABLE_THRESHOLD {
              streaks := streaks[endpoint := 0];
              assert streaks == old(streaks)[endpoint := 0];
              var sent := AutoDisable(name, protocol, env);
              return Effects([endpoint], sent);
            }
          }
          if suspended {
            var sent := Notify(NoticeKey(SUSPENDED, name, protocol), env);
            return Effects([], sent);
          }
        case Success(channel, name, protocol, recovered) =>
          streaks := streaks - {(channel, protocol)};
          if recovered {
            var sent := Notify(NoticeKey(RECOVERED, name, protocol), env);
            return Effects([], sent);
          }
      }
      return NOTHING;
    }

    method AutoDisable(name: string, protocol: Protocol, env: Surroundings) returns (sent: seq<string>)
      modifies this`dedup
      ensures var key := NoticeKey(AUTO_DISABLED, name, protocol);
              if env.disableSucceeds
              then dedup == Noted(old(dedup), key, env.now, env.configured, 2 * DEDUP_WINDOW)
                   && sent == (if MaySend(old(dedup), key, env.now, env.configured) then [key] else [])
              else dedup == old(dedup) && sent == []
    {
      if !env.disableSucceeds {
        return [];
      }
      sent := Notify(NoticeKey(AUTO_DISABLED, name, protocol), env);
    }

    /** Sends unless no webhook is configured or the same key was sent within the window. */
    method Notify(key: string, env: Surroundings) returns (sent: seq<string>)
      modifies this`dedup
      ensures dedup == Noted(old(dedup), key, env.now, env.configured, 2 * DEDUP_WINDOW)
      ensures sent == if MaySend(old(dedup), key, env.now, env.configured) then [key] else []
    {
      if !env.configured {
        return [];
      }
      if key in dedup && Since(env.now, dedup[key]) < DEDUP_WINDOW {
        return [];
      }
      dedup := dedup[key := env.now];
      dedup := map k | k in dedup && Since(env.now, dedup[k]) < DEDUP_WINDOW * 2 :: dedup[k];
      return [key];
    }
  }

  // ----------------------------------------------------------------------- runs

  type Run = seq<(RouterEvent, Surroundings)>

  function StateAfter(run: Run): WorkerState {
    if run == [] then WorkerState(map[], map[])
    else Handled(StateAfter(run[..|run| - 1]), run[|run| - 1].0, run[|run| - 1].1).0
  }

  function LastEffects(run: Run): Effects
    requires run != []
  {
    Handled(StateAfter(run[..|run| - 1]), run[|run| - 1].0, run[|run| - 1].1).1
  }

  /** A failure of the credential, which does not heal by itself. */
  predicate SpoilsCredential(event: RouterEvent) {
    event.Failure? && event.kind in {Unauthenticated, PermissionDenied}
  }

  /** Auth failures of the endpoint since its last success. */
  function AuthFailures(run: Run, endpoint: EndpointId): nat {
    if run == [] then 0
    else
      var event := run[|run| - 1].0;
      if event.Endpoint() != endpoint then AuthFailures(run[..|run| - 1], endpoint)
      else if event.Success? then 0
      else AuthFailures(run[..|run| - 1], endpoint) + (if SpoilsCredential(event) then 1 else 0)
  }

  /** Attempts to switch the endpoint's channel off on its behalf, since its last success. */
  function DisableAttempts(run: Run, endpoint: EndpointId): nat {
    if run == [] then 0
    else
      var event := run[|run| - 1].0;
      if event.Endpoint() == endpoint && event.Success? then 0
      else DisableAttempts(run[..|run| - 1], endpoint) + (if endpoint in LastEffects(run).disables then 1 else 0)
  }

  // --------------------------------------------------------------------- streaks

  /** What one event does to the streak of an endpoint, and when it calls for switching off. */
  lemma CountedStep(streaks: map<EndpointId, nat>, event: RouterEvent, endpoint: EndpointId)
    ensures var (next, disables) := Counted(streaks, event);
            var was := Streak(streaks, endpoint);
            && (event.Endpoint() != endpoint ==> Streak(next, endpoint) == was)
            && (event.Endpoint() == endpoint ==>
                  Streak(next, endpoint) == if event.Success? then 0
                                            else if SpoilsCredential(event) then (if was >= 2 then 0 else was + 1)
                                            else was)
            && (event.Endpoint() == endpoint ==> (disables <==> SpoilsCredential(event) && was >= 2))
  {
  }

  lemma LastEffectsMean(run: Run)
    requires run != []
    ensures var event := run[|run| - 1].0;
            var disables := Counted(StateAfter(run[..|run| - 1]).streaks, event).1;
            && LastEffects(run).disables == (if disables then [event.Endpoint()] else [])
            && StateAfter(run).streaks == Counted(StateAfter(run[..|run| - 1]).streaks, event).0
  {
  }

  /**
   Whatever other failures interleave: of n auth failures of an endpoint since its last success,
   every third has led to an attempt to switch the channel off, and the remainder is the streak.
   */
  lemma {:induction false} EveryThirdAuthFailureDisables(run: Run, endpoint: EndpointId)
    ensures DisableAttempts(run, endpoint) == AuthFailures(run, endpoint) / 3
    ensures Streak(StateAfter(run).streaks, endpoint) == AuthFailures(run, endpoint) % 3
  {
    if run != [] {
      var front := run[..|run| - 1];
      EveryThirdAuthFailureDisables(front, endpoint);
      CountedStep(StateAfter(front).streaks, run[|run| - 1].0, endpoint);
      LastEffectsMean(run);
    }
  }

  // --------------------------------------------------------------- notice spacing

  /** The dedup table after a list of attempts. */
  function DedupAfter(notices: seq<Notice>, horizon: nat): map<string, nat> {
    if notices == [] then map[]
    else
      var last := notices[|notices| - 1];
      Noted(DedupAfter(notices[..|notices| - 1], horizon), last.key, last.now, last.configured, horizon)
  }

  /** When `key` was last sent, decided by the history alone. */
  function LastSent(notices: seq<Notice>, key: string): Option<nat>
    decreases |notices|, 0
  {
    if notices == [] then None
    else
      var front, last := notices[..|notices| - 1], notices[|notices| - 1];
      if last.key == key && Due(front, last) then Some(last.now) else LastSent(front, key)
  }

  /** The policy: configured, and nothing with this key sent within the window before. */
  predicate Due(history: seq<Notice>, notice: Notice)
    decreases |history|, 1
  {
    notice.configured
    && var last := LastSent(history, notice.key);
       (last.Some? ==> Since(notice.now, last.value) >= DEDUP_WINDOW)
  }

  predicate InOrder(notices: seq<Notice>) {
    forall i, j :: 0 <= i <= j < |notices| ==> notices[i].now <= notices[j].now
  }

  function LastMoment(notices: seq<Notice>): nat {
    if notices == [] then 0 else notices[|notices| - 1].now
  }

  /** The table holds the last delivery of every key that has not been dropped for age. */
  predicate Remembers(dedup: map<string, nat>, last: Option<nat>, key: string, now: nat, horizon: nat) {
    && (key in dedup ==> last == Some(dedup[key]))
    && (last.Some? ==> last.value <= now && (key !in dedup ==> now - last.value >= horizon))
  }

  lemma DueMeans(history: seq<Notice>, notice: Notice)
    ensures Due(history, notice)
       <==> notice.configured && (LastSent(history, notice.key).Some? ==>
                                    Since(notice.now, LastSent(history, notice.key).value) >= DEDUP_WINDOW)
  {
  }

  lemma {:induction false} TableRemembers(notices: seq<Notice>, key: string, horizon: nat)
    requires horizon >= DEDUP_WINDOW && InOrder(notices)
    ensures Remembers(DedupAfter(notices, horizon), LastSent(notices, key), key, LastMoment(notices), horizon)
  {
    if notices != [] {
      var n := |notices| - 1;
      var front, last := notices[..n], notices[n];
      assert front != [] ==> LastMoment(front) == notices[n - 1].now;
      TableRemembers(front, key, horizon);
      TableRemembers(front, last.key, horizon);
      DueMeans(front, last);
    }
  }

  /**
   Whatever the age, from the window on, at which entries are dropped, each attempt is decided as
   the history of deliveries decides it: pruning the table is unobservable.
   */
  lemma DedupFollowsPolicy(history: seq<Notice>, notice: Notice, horizon: nat)
    requires horizon >= DEDUP_WINDOW && InOrder(history + [notice])
    ensures MaySend(DedupAfter(history, horizon), notice.key, notice.now, notice.configured) == Due(history, notice)
  {
    var all := history + [notice];
    assert forall i :: 0 <= i < |history| ==> all[i] == history[i];
    assert all[|history|] == notice;
    TableRemembers(history, notice.key, horizon);
    DueMeans(history, notice);
  }

  /** Attempts in the order of the clock are all decided as the history decides them. */
  ghost predicate PruningIsUnseen(horizon: nat) {
    forall history, notice :: InOrder(history + [notice]) ==>
      MaySend(DedupAfter(history, horizon), notice.key, notice.now, notice.configured) == Due(history, notice)
  }

  /** The window is the least age at which entries may be dropped. */
  lemma PruningIsUnseenFromWindowOn(horizon: nat)
    ensures PruningIsUnseen(horizon) <==> horizon >= 300_000_000_000
  {
    if horizon >= DEDUP_WINDOW {
      forall history, notice | InOrder(history + [notice])
        ensures MaySend(DedupAfter(history, horizon), notice.key, notice.now, notice.configured) == Due(history, notice)
      {
        DedupFollowsPolicy(history, notice, horizon);
      }
    } else {
      DroppedTooEarly("a", "b", horizon);
    }
  }

  /** Another notification drops the entry, and the first one is sent again within the window. */
  lemma DroppedTooEarly(key: string, other: string, horizon: nat)
    requires horizon < DEDUP_WINDOW && key != other
    ensures var history, again := [Notice(key, 0, true), Notice(other, horizon, true)], Notice(key, horizon, true);
            InOrder(history + [again]) && !Due(history, again)
            && MaySend(DedupAfter(history, horizon), again.key, again.now, again.configured)
  {
    var first, second := Notice(key, 0, true), Notice(other, horizon, true);
    var history := [first, second];
    assert history[..1] == [first] && [first][..0] == [];
    assert Due([], first) && LastSent([first], key) == Some(0);
    assert LastSent(history, key) == Some(0);
    assert DedupAfter([first], horizon) == Noted(DedupAfter([], horizon), key, 0, true, horizon);
    assert key !in DedupAfter(history, horizon);
  }

  lemma {:induction false} LastSentIsLatest(notices: seq<Notice>, i: nat)
    requires InOrder(notices) && i < |notices| && Due(notices[..i], notices[i])
    ensures LastSent(notices, notices[i].key).Some? && LastSent(notices, notices[i].key).value >= notices[i].now
  {
    var n := |notices| - 1;
    if i < n {
      var front := notices[..n];
      assert front[..i] == notices[..i] && front[i] == notices[i];
      LastSentIsLatest(front, i);
    }
  }

  /** The attempt at position `i` was due and went out with this key at this moment. */
  predicate DeliveredAt(notices: seq<Notice>, i: nat, key: string, now: nat) {
    i < |notices| && notices[i].key == key && notices[i].now == now && Due(notices[..i], notices[i])
  }

  /** Two deliveries with the same key are at least the window apart. */
  lemma DeliveriesAreSpaced(notices: seq<Notice>, i: nat, j: nat, key: string, early: nat, late: nat)
    requires InOrder(notices) && i < j
    requires DeliveredAt(notices, i, key, early) && DeliveredAt(notices, j, key, late)
    ensures late - early >= DEDUP_WINDOW
  {
    var before := notices[..j];
    assert before[..i] == notices[..i] && before[i] == notices[i];
    LastSentIsLatest(before, i);
    DueMeans(before, notices[j]);
  }

  // ------------------------------------------------------- spacing of the worker

  /** The attempts to notify that the last event of a run made. */
  function AttemptOf(run: Run): seq<Notice>
    requires run != []
  {
    AttemptFor(StateAfter(run[..|run| - 1]).streaks, run[|run| - 1].0, run[|run| - 1].1)
  }

  function Attempts(run: Run): seq<Notice> {
    if run == [] then [] else Attempts(run[..|run| - 1]) + AttemptOf(run)
  }

  predicate ClockInOrder(run: Run) {
    forall i, j :: 0 <= i <= j < |run| ==> run[i].1.now <= run[j].1.now
  }

  lemma {:induction false} AttemptsInOrder(run: Run, last: nat)
    requires ClockInOrder(run) && forall i :: 0 <= i < |run| ==> run[i].1.now <= last
    ensures InOrder(Attempts(run)) && forall i :: 0 <= i < |Attempts(run)| ==> Attempts(run)[i].now <= last
  {
    if run != [] {
      var n := |run| - 1;
      assert forall i :: 0 <= i < n ==> run[..n][i] == run[i];
      AttemptsInOrder(run[..n], run[n].1.now);
    }
  }

  lemma WorkerTableStep(run: Run)
    requires run != []
    ensures StateAfter(run).dedup == DedupNext(StateAfter(run[..|run| - 1]).dedup, AttemptOf(run))
  {
  }

  lemma DedupStep(notices: seq<Notice>, last: Notice, horizon: nat)
    ensures DedupAfter(notices + [last], horizon)
         == Noted(DedupAfter(notices, horizon), last.key, last.now, last.configured, horizon)
  {
    assert (notices + [last])[..|notices|] == notices;
  }

  lemma {:induction false} WorkerTableIsDedup(run: Run)
    ensures StateAfter(run).dedup == DedupAfter(Attempts(run), 2 * DEDUP_WINDOW)
  {
    if run != [] {
      var front := run[..|run| - 1];
      WorkerTableIsDedup(front);
      WorkerTableStep(run);
      var attempt := AttemptOf(run);
      if attempt == [] {
        assert Attempts(run) == Attempts(front);
      } else {
        assert Attempts(run) == Attempts(front) + [attempt[0]];
        DedupStep(Attempts(front), attempt[0], 2 * DEDUP_WINDOW);
      }
    }
  }

  /** What an event's handling sends is what the policy says about its attempt. */
  lemma WorkerFollowsPolicy(run: Run)
    requires run != [] && ClockInOrder(run)
    ensures LastEffects(run).sent
         == if AttemptOf(run) != [] && Due(Attempts(run[..|run| - 1]), AttemptOf(run)[0])
            then [AttemptOf(run)[0].key] else []
  {
    var front := run[..|run| - 1];
    WorkerTableIsDedup(front);
    AttemptsInOrder(run, run[|run| - 1].1.now);
    if AttemptOf(run) != [] {
      assert Attempts(run) == Attempts(front) + [AttemptOf(run)[0]];
      DedupFollowsPolicy(Attempts(front), AttemptOf(run)[0], 2 * DEDUP_WINDOW);
    }
  }

  lemma {:induction false} AttemptsOfPrefix(run: Run, n: nat)
    requires n <= |run|
    ensures Attempts(run[..n]) <= Attempts(run)
  {
    if n == |run| {
      assert run[..n] == run;
    } else {
      var front := run[..|run| - 1];
      AttemptsOfPrefix(front, n);
      assert front[..n] == run[..n];
    }
  }

  /** Two events of a run that both send the same notification are at least 300 seconds apart. */
  lemma SentNoticesAreSpaced(run: Run, i: nat, j: nat, key: string)
    requires i < j < |run| && ClockInOrder(run)
    requires LastEffects(run[..i + 1]).sent == [key] && LastEffects(run[..j + 1]).sent == [key]
    ensures run[j].1.now - run[i].1.now >= 300_000_000_000
  {
    SentIsDueAttempt(run, i, key);
    SentIsDueAttempt(run, j, key);
    assert run[..j][..i + 1] == run[..i + 1];
    AttemptsOfPrefix(run[..j], i + 1);
    PrefixInOrder(run, j + 1, Attempts(run[..j + 1]));
    DueAttemptsAreSpaced(Attempts(run[..i]), Notice(key, run[i].1.now, run[i].1.configured),
                         Attempts(run[..j]), Notice(key, run[j].1.now, run[j].1.configured));
  }

  lemma DueAttemptsAreSpaced(before: seq<Notice>, early: Notice, longer: seq<Notice>, late: Notice)
    requires before + [early] <= longer && InOrder(longer + [late]) && early.key == late.key
    requires Due(before, early) && Due(longer, late)
    ensures late.now - early.now >= DEDUP_WINDOW
  {
    var all := longer + [late];
    PrefixDelivers(longer, before, early);
    PrefixDelivers(all, before, early);
    PrefixDelivers(all, longer, late);
    DeliveriesAreSpaced(all, |before|, |longer|, early.key, early.now, late.now);
  }

  lemma PrefixInOrder(run: Run, m: nat, all: seq<Notice>)
    requires 0 < m <= |run| && ClockInOrder(run) && all == Attempts(run[..m])
    ensures InOrder(all)
  {
    AttemptsInOrder(run[..m], run[m - 1].1.now);
  }

  /** Where, among later attempts, a due one stands. */
  lemma PrefixDelivers(all: seq<Notice>, before: seq<Notice>, attempt: Notice)
    requires before + [attempt] <= all && Due(before, attempt)
    ensures DeliveredAt(all, |before|, attempt.key, attempt.now) && |before| < |all|
  {
    var upTo := before + [attempt];
    assert all[|before|] == upTo[|before|];
    assert all[..|before|] == before;
  }

  /** A sent notification is the attempt of its event, due under the history of attempts before it. */
  lemma SentIsDueAttempt(run: Run, i: nat, key: string)
    requires i < |run| && ClockInOrder(run) && LastEffects(run[..i + 1]).sent == [key]
    ensures var attempt := Notice(key, run[i].1.now, run[i].1.configured);
            Attempts(run[..i + 1]) == Attempts(run[..i]) + [attempt] && Due(Attempts(run[..i]), attempt)
  {
    var upTo := run[..i + 1];
    assert upTo[..i] == run[..i] && upTo[i] == run[i];
    WorkerFollowsPolicy(upTo);
  }

  // ---------------------------------------------------------- what an event sends

  /** The event at `i` sent this notification. */
  predicate SentAt(run: Run, i: nat, key: string)
    requires i < |run|
  {
    LastEffects(run[..i + 1]).sent == [key]
  }

  /** An earlier event of the run sent it, less than 300 seconds before `now`. */
  predicate SentLately(run: Run, key: string, now: nat) {
    exists i :: 0 <= i < |run| && SentAt(run, i, key) && now - run[i].1.now < 300_000_000_000
  }

  /** The last event's attempt, when it was due, and the history knows it as the last one sent. */
  lemma SentNow(run: Run, key: string)
    requires run != [] && ClockInOrder(run)
    requires AttemptOf(run) != [] && AttemptOf(run)[0].key == key
    requires Due(Attempts(run[..|run| - 1]), AttemptOf(run)[0])
    ensures SentAt(run, |run| - 1, key) && LastSent(Attempts(run), key) == Some(run[|run| - 1].1.now)
  {
    var front := run[..|run| - 1];
    WorkerFollowsPolicy(run);
    assert run[..|run|] == run;
    LastSentOfOne(Attempts(front), AttemptOf(run)[0]);
    assert Attempts(run) == Attempts(front) + [AttemptOf(run)[0]];
  }

  lemma SentInPrefix(run: Run, n: nat, i: nat, key: string)
    requires i < n <= |run|
    ensures SentAt(run[..n], i, key) <==> SentAt(run, i, key)
  {
    assert run[..n][..i + 1] == run[..i + 1];
  }

  /** A delivery that the history of attempts knows was sent by some event at that moment. */
  lemma {:induction false} LastSentWasSent(run: Run, key: string) returns (i: nat)
    requires ClockInOrder(run) && LastSent(Attempts(run), key).Some?
    ensures i < |run| && SentAt(run, i, key) && run[i].1.now == LastSent(Attempts(run), key).value
  {
    var n := |run| - 1;
    if AttemptOf(run) != [] && AttemptOf(run)[0].key == key && Due(Attempts(run[..n]), AttemptOf(run)[0]) {
      SentNow(run, key);
      i := n;
    } else {
      SameLastSent(run, key);
      i := LastSentWasSent(run[..n], key);
      SentInPrefix(run, n, i, key);
    }
  }

  lemma LastSentOfOne(front: seq<Notice>, last: Notice)
    requires Due(front, last)
    ensures LastSent(front + [last], last.key) == Some(last.now)
  {
    assert (front + [last])[..|front|] == front;
  }

  lemma SameLastSent(run: Run, key: string)
    requires run != []
    requires !(AttemptOf(run) != [] && AttemptOf(run)[0].key == key
               && Due(Attempts(run[..|run| - 1]), AttemptOf(run)[0]))
    ensures LastSent(Attempts(run), key) == LastSent(Attempts(run[..|run| - 1]), key)
  {
    var before := Attempts(run[..|run| - 1]);
    if AttemptOf(run) == [] {
      assert Attempts(run) == before;
    } else {
      assert Attempts(run) == before + [AttemptOf(run)[0]];
      assert (before + [AttemptOf(run)[0]])[..|before|] == before;
    }
  }

  /** Whoever was sent by an event of the run is known to the history, at that moment or later. */
  lemma SentIsKnown(run: Run, i: nat, key: string)
    requires ClockInOrder(run) && i < |run| && SentAt(run, i, key)
    ensures LastSent(Attempts(run), key).Some? && LastSent(Attempts(run), key).value >= run[i].1.now
  {
    SentIsDueAttempt(run, i, key);
    AttemptsOfPrefix(run, i + 1);
    AttemptsInOrder(run, run[|run| - 1].1.now);
    var before := Attempts(run[..i]);
    PrefixDelivers(Attempts(run), before, Notice(key, run[i].1.now, run[i].1.configured));
    LastSentIsLatest(Attempts(run), |before|);
  }

  /** The policy of spacing, in terms of what events have sent. */
  lemma DueIfNotSentLately(run: Run, notice: Notice)
    requires ClockInOrder(run) && forall i :: 0 <= i < |run| ==> run[i].1.now <= notice.now
    ensures Due(Attempts(run), notice) <==> notice.configured && !SentLately(run, notice.key, notice.now)
  {
    DueMeans(Attempts(run), notice);
    if LastSent(Attempts(run), notice.key).Some? {
      var i := LastSentWasSent(run, notice.key);
      assert SentAt(run, i, notice.key);
    }
    if i :| 0 <= i < |run| && SentAt(run, i, notice.key) && notice.now - run[i].1.now < 300_000_000_000 {
      SentIsKnown(run, i, notice.key);
      AttemptsInOrder(run, notice.now);
      LastSentInOrder(Attempts(run), notice.key, notice.now);
    }
  }

  lemma {:induction false} LastSentInOrder(notices: seq<Notice>, key: string, now: nat)
    requires forall i :: 0 <= i < |notices| ==> notices[i].now <= now
    ensures LastSent(notices, key).Some? ==> LastSent(notices, key).value <= now
  {
    if notices != [] {
      LastSentInOrder(notices[..|notices| - 1], key, now);
    }
  }

  /** The failure that makes it every third since the endpoint's last success. */
  predicate IsThird(run: Run)
    requires run != []
  {
    var event := run[|run| - 1].0;
    SpoilsCredential(event) && AuthFailures(run, event.Endpoint()) % 3 == 0
  }

  /** The text under which an endpoint's notifications are told apart. */
  function Place(event: RouterEvent): string {
    event.name + match event.protocol
                 case Chat => ":Some(Chat)"
                 case Responses => ":Some(Responses)"
                 case Messages => ":Some(Messages)"
                 case Gemini => ":Some(Gemini)"
  }

  lemma PlaceIs(event: RouterEvent)
    ensures Place(event) == event.name + ":" + ProtocolText(event.protocol)
  {
    assert ":Some(Chat)" == ":" + "Some(Chat)" && ":Some(Responses)" == ":" + "Some(Responses)";
    assert ":Some(Messages)" == ":" + "Some(Messages)" && ":Some(Gemini)" == ":" + "Some(Gemini)";
  }

  /** What an event is worth telling, `third` saying that it is the third failure. */
  function WorthOf(event: RouterEvent, third: bool, disableSucceeds: bool): Option<string> {
    if third then (if disableSucceeds then Some("channel.auto_disabled:" + Place(event)) else None)
    else if event.Failure? && event.suspended then Some("endpoint.suspended:" + Place(event))
    else if event.Success? && event.recovered then Some("endpoint.recovered:" + Place(event))
    else None
  }

  /** What the last event of a run is worth telling. */
  function Worth(run: Run): Option<string>
    requires run != []
  {
    WorthOf(run[|run| - 1].0, IsThird(run), run[|run| - 1].1.disableSucceeds)
  }

  lemma KeyIsText(event: string, name: string, protocol: Protocol)
    ensures NoticeKey(event, name, protocol) == event + ":" + (name + ":" + ProtocolText(protocol))
  {
  }

  lemma NoticeNames(name: string, p: Protocol)
    ensures NoticeKey(SUSPENDED, name, p) == "endpoint.suspended:" + (name + ":" + ProtocolText(p))
    ensures NoticeKey(RECOVERED, name, p) == "endpoint.recovered:" + (name + ":" + ProtocolText(p))
    ensures NoticeKey(AUTO_DISABLED, name, p) == "channel.auto_disabled:" + (name + ":" + ProtocolText(p))
  {
    KeyIsText(SUSPENDED, name, p);
    KeyIsText(RECOVERED, name, p);
    KeyIsText(AUTO_DISABLED, name, p);
  }

  lemma NoticeIsWorth(event: RouterEvent, third: bool, disableSucceeds: bool)
    requires third ==> event.Failure?
    ensures NoticeOf(event, third, disableSucceeds) == WorthOf(event, third, disableSucceeds)
  {
    PlaceIs(event);
    NoticeNames(event.name, event.protocol);
  }

  lemma OneMoreAuthFailure(run: Run)
    requires run != [] && SpoilsCredential(run[|run| - 1].0)
    ensures var endpoint := run[|run| - 1].0.Endpoint();
            AuthFailures(run, endpoint) == AuthFailures(run[..|run| - 1], endpoint) + 1
  {
  }

  lemma NextIsThird(n: nat)
    ensures (n + 1) % 3 == 0 <==> n % 3 >= 2
  {
  }

  lemma ThirdIsCounted(run: Run)
    requires run != []
    ensures Counted(StateAfter(run[..|run| - 1]).streaks, run[|run| - 1].0).1 <==> IsThird(run)
  {
    var front, event := run[..|run| - 1], run[|run| - 1].0;
    var streaks := StateAfter(front).streaks;
    EveryThirdAuthFailureDisables(front, event.Endpoint());
    CountedStep(streaks, event, event.Endpoint());
    if SpoilsCredential(event) {
      OneMoreAuthFailure(run);
      NextIsThird(AuthFailures(front, event.Endpoint()));
    }
  }

  lemma AttemptIsWorth(run: Run)
    requires run != []
    ensures var env := run[|run| - 1].1;
            AttemptOf(run) == if Worth(run).None? then [] else [Notice(Worth(run).value, env.now, env.configured)]
  {
    ThirdIsCounted(run);
    NoticeIsWorth(run[|run| - 1].0, IsThird(run), run[|run| - 1].1.disableSucceeds);
  }

  /**
   What the last event of any run does. Every third credential failure since the endpoint's last
   success, and nothing else, tries to switch the channel off. It is told if that succeeded; any
   other failure is told if it suspended the endpoint, and a success if it recovered it: each of
   them if a webhook is configured and the same was not sent in the last 300 seconds.
   */
  lemma EventSends(run: Run)
    requires run != [] && ClockInOrder(run)
    ensures var (event, env) := run[|run| - 1];
            var front := run[..|run| - 1];
            && LastEffects(run).disables == (if IsThird(run) then [event.Endpoint()] else [])
            && LastEffects(run).sent
                 == if Worth(run).Some? && env.configured && !SentLately(front, Worth(run).value, env.now)
                    then [Worth(run).value] else []
  {
    var env, front := run[|run| - 1].1, run[..|run| - 1];
    ThirdIsCounted(run);
    AttemptIsWorth(run);
    WorkerFollowsPolicy(run);
    if Worth(run).Some? {
      assert forall i :: 0 <= i < |front| ==> front[i] == run[i];
      DueIfNotSentLately(front, Notice(Worth(run).value, env.now, env.configured));
    }
  }

  // ---------------------------------------------------------------- notice keys

  lemma CutAtLastColon(a: string, b: string, c: string, d: string)
    requires ':' !in b && ':' !in d
    requires a + ":" + b == c + ":" + d
    ensures a == c && b == d
  {
    var s := a + ":" + b;
    assert s[|a|] == ':' && s[|c|] == ':';
    assert forall x :: |a| < x < |s| ==> s[x] == b[x - |a| - 1];
    assert forall x :: |c| < x < |s| ==> s[x] == d[x - |c| - 1];
    assert a == s[..|a|] && b == s[|a| + 1..];
    assert c == s[..|c|] && d == s[|c| + 1..];
  }

  lemma KeyParts(e: string, name: string, p: string, f: string, other: string, q: string)
    requires ':' !in e && ':' !in f && ':' !in p && ':' !in q
    requires e + ":" + name + ":" + p == f + ":" + other + ":" + q
    ensures e == f && name == other && p == q
  {
    assert e + ":" + name + ":" + p == e + ":" + (name + ":" + p);
    assert f + ":" + other + ":" + q == f + ":" + (other + ":" + q);
    CutAtFirst(':', e, name + ":" + p, f, other + ":" + q);
    CutAtLastColon(name, p, other, q);
  }

  predicate IsEventName(event: string) {
    event == SUSPENDED || event == RECOVERED || event == AUTO_DISABLED
  }

  lemma ProtocolTextIsInjective(p: Protocol, q: Protocol)
    ensures ':' !in ProtocolText(p)
    ensures ProtocolText(p) == ProtocolText(q) ==> p == q
  {
    assert ProtocolText(p)[5] == match p case Chat => 'C' case Responses => 'R' case Messages => 'M' case Gemini => 'G';
    assert ProtocolText(q)[5] == match q case Chat => 'C' case Responses => 'R' case Messages => 'M' case Gemini => 'G';
  }

  /** Notices are told apart by event, channel name and protocol, colons in the name notwithstanding. */
  lemma NoticeKeyIsInjective(e: string, name: string, p: Protocol, f: string, other: string, q: Protocol)
    requires IsEventName(e) && IsEventName(f)
    ensures NoticeKey(e, name, p) == NoticeKey(f, other, q) <==> e == f && name == other && p == q
  {
    if NoticeKey(e, name, p) == NoticeKey(f, other, q) {
      ProtocolTextIsInjective(p, q);
      ProtocolTextIsInjective(q, p);
      KeyParts(e, name, ProtocolText(p), f, other, ProtocolText(q));
    }
  }
}
