/** Safety of every relay run, and independence of billing from the way bytes were chunked. */
module RelayProofs {
  import opened Wrappers
  import opened Core
  import opened Utf8
  import opened Sse
  import opened SseProofs
  import opened Ir
  import opened Aggregator
  import opened AggregatorProofs
  import opened Relay

  // ------------------------------------------------------------------- safety

  /** `forwarded` is, chunk for chunk, the beginning of what the upstream sent. */
  predicate IsPrefixOf(forwarded: seq<Bytes>, upstream: seq<Result<Bytes, GatewayError>>) {
    |forwarded| <= |upstream| && forall i :: 0 <= i < |forwarded| ==> upstream[i] == Ok(forwarded[i])
  }

  lemma {:induction false} LoopSafety<S>(d: Decoder<S>, client: nat -> bool,
                                         upstream: seq<Result<Bytes, GatewayError>>, at: Progress<S>, done: nat)
    requires Healthy(at) && done <= |upstream| && |at.forwarded| == done && IsPrefixOf(at.forwarded, upstream)
    requires forall i: nat :: i < done ==> client(i)
    ensures var end := RelayLoop(d, client, upstream[done..], at);
            && IsPrefixOf(end.forwarded, upstream)
            && (forall i: nat :: i < |end.forwarded| ==> client(i))
            && (end.clientClosed ==> end.streamError.None? && !client(|end.forwarded|))
            && (Healthy(end) ==> |end.forwarded| == |upstream|)
    decreases |upstream| - done
  {
    if done < |upstream| {
      match upstream[done] {
        case Ok(bytes) =>
          var next := Watched(d, at, bytes);
          LoopStep(d, client, upstream, at, done, bytes, next);
          OneMoreForwarded(at.forwarded, upstream, bytes);
          if client(done) && next.streamError.None? {
            LoopSafety(d, client, upstream, next.(forwarded := at.forwarded + [bytes]), done + 1);
          }
        case Err(_) =>
      }
    }
  }

  lemma OneMoreForwarded(forwarded: seq<Bytes>, upstream: seq<Result<Bytes, GatewayError>>, bytes: Bytes)
    requires |forwarded| < |upstream| && IsPrefixOf(forwarded, upstream) && upstream[|forwarded|] == Ok(bytes)
    ensures IsPrefixOf(forwarded + [bytes], upstream)
  {
  }

  /** One turn of the relay's loop. */
  lemma LoopStep<S>(d: Decoder<S>, client: nat -> bool, upstream: seq<Result<Bytes, GatewayError>>,
                    at: Progress<S>, done: nat, bytes: Bytes, next: Progress<S>)
    requires done < |upstream| && upstream[done] == Ok(bytes) && next == Watched(d, at, bytes)
    ensures RelayLoop(d, client, upstream[done..], at)
         == if !client(|at.forwarded|) then next.(clientClosed := true, streamError := None)
            else if next.streamError.Some? then next.(forwarded := at.forwarded + [bytes])
            else RelayLoop(d, client, upstream[done + 1..], next.(forwarded := at.forwarded + [bytes]))
  {
    var rest := upstream[done..];
    assert rest[0] == upstream[done] && rest[1..] == upstream[done + 1..];
  }

  lemma RelayPrefix<S>(context: StreamContext, d: Decoder<S>, client: nat -> bool,
                       upstream: seq<Result<Bytes, GatewayError>>)
    ensures var o := Relayed(context, d, client, upstream);
            && IsPrefixOf(o.forwarded, upstream)
            && (o.clientClosed ==> o.streamError.None? && !client(|o.forwarded|))
            && (o.streamError.None? && !o.clientClosed ==>
                  |o.forwarded| == |upstream| && (o.sawDone || context.upstreamProtocol == Gemini))
  {
    LoopSafety(d, client, upstream, Begin(d), 0);
    assert upstream[0..] == upstream;
  }

  /**
   For every decoder, client and upstream: the client has received an exact prefix of the chunks; a
   stream error and a client close exclude each other; status 200 means that every chunk was
   forwarded and the completion event was seen (Gemini has none), status 499 that the client closed;
   success is recorded exactly with status 200, and a client close updates no health and unbinds nothing.
   */
  lemma RelaySafety<S>(context: StreamContext, d: Decoder<S>, client: nat -> bool,
                       upstream: seq<Result<Bytes, GatewayError>>)
    ensures var o := Relayed(context, d, client, upstream);
            && IsPrefixOf(o.forwarded, upstream)
            && !(o.streamError.Some? && o.clientClosed)
            && (o.status == 499 <==> o.clientClosed)
            && (o.status == 200 <==> o.streamError.None? && !o.clientClosed)
            && (o.status == 200 ==> |o.forwarded| == |upstream| && (o.sawDone || context.upstreamProtocol == Gemini))
            && (o.health == RecordSuccess <==> o.status == 200)
            && (o.clientClosed ==> o.health == NoUpdate && !o.unbind && !client(|o.forwarded|))
            && (o.unbind <==> o.streamError.Some? && context.skipRetry == Some(false))
  {
    RelayPrefix(context, d, client, upstream);
  }

  /** What is billed: the maximum of all usage the events reported, for Anthropic with cached input folded in. */
  lemma BilledUsageIsMaximum<S>(context: StreamContext, d: Decoder<S>, client: nat -> bool,
                                upstream: seq<Result<Bytes, GatewayError>>)
    ensures var events := FinishDecoder(d, RunToEnd(context, d, client, upstream)).events;
            Relayed(context, d, client, upstream).usage
              == BillingNormalized(MaxUsage(Reports(events)), context.upstreamProtocol)
  {
    UsageMeetsReference(FinishDecoder(d, RunToEnd(context, d, client, upstream)).events);
  }

  /** Of one decoded batch exactly the events before the first error event are absorbed. */
  lemma {:induction false} AbsorbsUpToFirstError(events: seq<StreamEvent>)
    ensures var kept := BeforeError(events);
            && kept <= events && (forall e :: e in kept ==> !e.Error?)
            && (FirstError(events).None? <==> kept == events)
            && (kept != events ==> events[|kept|].Error?)
            && (kept != events ==> FirstError(events) == Some(GatewayError(UpstreamError, events[|kept|].message)))
  {
    if events != [] {
      AbsorbsUpToFirstError(events[1..]);
      assert events == [events[0]] + events[1..];
      if !events[0].Error? {
        assert BeforeError(events)[1..] == BeforeError(events[1..]);
      }
    }
  }

  // --------------------------------------------------------- chunk independence

  function Chunks(chunks: seq<Bytes>, tail: Option<GatewayError>): seq<Result<Bytes, GatewayError>> {
    if chunks == [] then (if tail.Some? then [Err(tail.value)] else [])
    else [Ok(chunks[0])] + Chunks(chunks[1..], tail)
  }

  lemma {:induction false} InspectConcat<S>(d: Decoder<S>, s: S, a: seq<SseFrame>, b: seq<SseFrame>)
    ensures var first := Inspect(d, s, a);
            Inspect(d, s, a + b) == if first.error.Some? then first else After(first, Inspect(d, first.decoder, b))
    decreases a
  {
    if a == [] {
      EmptyConcat(b);
      EmptyConcat(Inspect(d, s, b).events);
    } else {
      TailOfConcat(a, b);
      var one := InspectOne(d, s, a[0]);
      if one.error.None? {
        InspectConcat(d, one.decoder, a[1..], b);
        var mid := Inspect(d, one.decoder, a[1..]);
        ConcatAssoc(one.events, mid.events, Inspect(d, mid.decoder, b).events);
      }
    }
  }

  /** Everything of a run's state that settlement looks at, once the chunks are forgotten. */
  ghost predicate SameRun<S>(a: Progress<S>, b: Progress<S>) {
    && a.events == b.events && a.streamError == b.streamError && a.clientClosed == b.clientClosed
    && (Healthy(a) ==> a.parser == b.parser && a.decoder == b.decoder)
  }

  /** The run in one piece: all bytes fed at once, then the upstream's own error, if any. */
  function Whole<S>(d: Decoder<S>, at: Progress<S>, bytes: Bytes, tail: Option<GatewayError>): Progress<S> {
    var all := Watched(d, at, bytes);
    if all.streamError.Some? then all else all.(streamError := tail)
  }

  predicate Readable<S>(at: Progress<S>, bytes: Bytes) {
    Feed(at.parser, bytes).result.Ok?
  }

  /** Watching `a` and then `b` is watching both at once, unless `a` stops the run. */
  lemma WatchedConcat<S>(d: Decoder<S>, at: Progress<S>, a: Bytes, b: Bytes)
    requires Readable(at, a + b)
    ensures Readable(at, a) && Readable(Watched(d, at, a), b)
    ensures var first := Watched(d, at, a);
            if first.streamError.Some?
            then Watched(d, at, a + b).events == first.events && Watched(d, at, a + b).streamError == first.streamError
            else Watched(d, first, b) == Watched(d, at, a + b)
  {
    FeedSplit(at.parser, a, b);
    var fedA := Feed(at.parser, a);
    var fedB := Feed(fedA.parser, b);
    InspectConcat(d, at.decoder, fedA.result.value, fedB.result.value);
    var seenA := Inspect(d, at.decoder, fedA.result.value);
    var seenB := Inspect(d, seenA.decoder, fedB.result.value);
    ConcatAssoc(at.events, seenA.events, seenB.events);
  }

  lemma ForwardingIsUnseen<S>(d: Decoder<S>, at: Progress<S>, forwarded: seq<Bytes>, bytes: Bytes)
    ensures Watched(d, at.(forwarded := forwarded), bytes) == Watched(d, at, bytes).(forwarded := forwarded)
  {
  }

  lemma {:induction false} LoopIsWhole<S>(d: Decoder<S>, client: nat -> bool, chunks: seq<Bytes>,
                                          tail: Option<GatewayError>, at: Progress<S>)
    requires Healthy(at) && LF !in at.parser.buffer && forall k: nat :: client(k)
    requires Readable(at, Concat(chunks))
    ensures SameRun(RelayLoop(d, client, Chunks(chunks, tail), at), Whole(d, at, Concat(chunks), tail))
    decreases chunks
  {
    if chunks == [] {
      EmptyConcat(at.parser.buffer);
      EmptyConcat(at.events);
      DrainWithoutLf(at.parser);
    } else {
      var a, rest := chunks[0], Concat(chunks[1..]);
      var first := Watched(d, at, a);
      WatchedConcat(d, at, a, rest);
      assert Chunks(chunks, tail)[1..] == Chunks(chunks[1..], tail);
      if first.streamError.None? {
        var sent := first.(forwarded := at.forwarded + [a]);
        ForwardingIsUnseen(d, first, sent.forwarded, rest);
        LoopIsWhole(d, client, chunks[1..], tail, sent);
      }
    }
  }

  lemma DrainWithoutLf(p: ParserState)
    requires LF !in p.buffer
    ensures Drain(p) == Fed(p, Ok([]))
  {
  }

  lemma {:induction false} InspectErrorsAreUpstream<S>(d: Decoder<S>, s: S, frames: seq<SseFrame>)
    ensures Inspect(d, s, frames).error.Some? ==> Inspect(d, s, frames).error.value.kind == UpstreamError
    decreases frames
  {
    if frames != [] {
      var (_, decoded) := d.step(s, frames[0]);
      if decoded.Ok? {
        FirstErrorIsUpstream(decoded.value);
      }
      var first := InspectOne(d, s, frames[0]);
      InspectErrorsAreUpstream(d, first.decoder, frames[1..]);
    }
  }

  lemma {:induction false} FirstErrorIsUpstream(events: seq<StreamEvent>)
    ensures FirstError(events).Some? ==> FirstError(events).value.kind == UpstreamError
  {
    if events != [] {
      FirstErrorIsUpstream(events[1..]);
    }
  }

  /** A stream with an undecodable line ends in an upstream error under every chunking. */
  lemma {:induction false} UnreadableFails<S>(d: Decoder<S>, client: nat -> bool, chunks: seq<Bytes>,
                                              tail: Option<GatewayError>, at: Progress<S>)
    requires Healthy(at) && LF !in at.parser.buffer && forall k: nat :: client(k)
    requires !Readable(at, Concat(chunks))
    ensures var end := RelayLoop(d, client, Chunks(chunks, tail), at);
            end.streamError.Some? && end.streamError.value.kind == UpstreamError && !end.clientClosed
    decreases chunks
  {
    if chunks == [] {
      EmptyConcat(at.parser.buffer);
      DrainWithoutLf(at.parser);
    } else {
      var a, rest := chunks[0], Concat(chunks[1..]);
      FeedSplit(at.parser, a, rest);
      var fed := Feed(at.parser, a);
      UnreadableIsUpstream(at.parser, a);
      if fed.result.Ok? {
        InspectErrorsAreUpstream(d, at.decoder, fed.result.value);
      }
      var first := Watched(d, at, a);
      assert Chunks(chunks, tail)[1..] == Chunks(chunks[1..], tail);
      if first.streamError.None? {
        UnreadableFails(d, client, chunks[1..], tail, first.(forwarded := at.forwarded + [a]));
      }
    }
  }

  lemma UnreadableIsUpstream(p: ParserState, chunk: Bytes)
    ensures Feed(p, chunk).result.Err? ==> Feed(p, chunk).result.error == INVALID_UTF8
  {
    DrainErrorIsUtf8(p.(buffer := p.buffer + chunk));
  }

  lemma {:induction false} DrainErrorIsUtf8(p: ParserState)
    ensures Drain(p).result.Err? ==> Drain(p).result.error == INVALID_UTF8
    decreases |p.buffer|
  {
    var k := IndexOf(p.buffer, LF);
    if k < |p.buffer| {
      DrainErrorIsUtf8(AfterLine(DropLine(p, k), LineAt(p.buffer, k)));
    }
  }

  lemma ConcatOfOne(s: Bytes)
    ensures Concat([s]) == s
  {
    EmptyConcat(s);
    assert Concat([s]) == s + Concat([]);
  }

  lemma ConcatOfTwo(a: Bytes, b: Bytes)
    ensures Concat([a, b]) == a + b
  {
    ConcatOfOne(b);
    assert [a, b][1..] == [b];
  }

  lemma WholeMeetsReference(s: Bytes)
    ensures var lines := CompleteLines(s);
            Feed(NEW_PARSER, s).result == if AllUtf8(lines) then Ok(BlockFrames(lines)) else Err(INVALID_UTF8)
  {
    ParserMeetsReference([s]);
    ChunkInvariance(NEW_PARSER, [s]);
    ConcatOfOne(s);
  }

  lemma ReadableIffUtf8<S>(at: Progress<S>, s: Bytes)
    requires at.parser == NEW_PARSER
    ensures Readable(at, s) <==> AllUtf8(CompleteLines(s))
  {
    WholeMeetsReference(s);
  }

  /** Settlement sees only what `SameRun` keeps. */
  lemma SameRunSameOutcome<S>(context: StreamContext, d: Decoder<S>, a: Progress<S>, b: Progress<S>)
    requires SameRun(a, b)
    ensures var x := CheckDone(context, FlushParser(d, a));
            var y := CheckDone(context, FlushParser(d, b));
            SameRun(x, y) && SameRun(FinishDecoder(d, x), FinishDecoder(d, y))
  {
  }

  /**
   End to end: what an upstream rendered reaches the decoder as the very frames it rendered, however
   the bytes were chunked, so that events and errors are those of decoding these frames in order.
   */
  lemma RelayDecodesRenderedFrames<S>(d: Decoder<S>, client: nat -> bool, frames: seq<SseFrame>, chunks: seq<Bytes>)
    requires forall f :: f in frames ==> WellTyped(f) && Renderable(f)
    requires Concat(chunks) == RenderAll(frames) && forall k: nat :: client(k)
    ensures var run := RelayLoop(d, client, Chunks(chunks, None), Begin(d));
            var seen := Inspect(d, d.init, frames);
            run.events == seen.events && run.streamError == seen.error && !run.clientClosed
  {
    RoundTrip(frames, chunks);
    ChunkInvariance(NEW_PARSER, chunks);
    LoopIsWhole(d, client, chunks, None, Begin(d));
    EmptyConcat(Inspect(d, d.init, frames).events);
  }

  // ------------------------------------------------- when chunking cannot be billed

  /**
   All complete lines are UTF-8, or no blank line closes an event name or data before the first
   line that is not.
   */
  predicate Harmless(s: Bytes) {
    var lines := CompleteLines(s);
    AllUtf8(lines) || !ClosesFrame(lines[..FirstBad(lines)])
  }

  /** No prefix of `s` that can be read yields a frame. */
  predicate Silent(p: ParserState, s: Bytes) {
    forall n :: 0 <= n <= |s| ==> YieldsNothing(p, s[..n])
  }

  predicate YieldsNothing(p: ParserState, s: Bytes) {
    var result := Feed(p, s).result;
    result.Ok? ==> result.value == []
  }

  lemma ClosesFrameInPrefix(a: seq<Bytes>, b: seq<Bytes>)
    requires a <= b && ClosesFrame(a)
    ensures ClosesFrame(b)
  {
    var i, j :| 0 <= i < j < |a| && OpensFrame(a[i]) && a[j] == [];
    assert b[i] == a[i] && b[j] == a[j];
  }

  /** Readable lines at the front of a stream come before its first bad one. */
  lemma ReadablePrefix(a: seq<Bytes>, b: seq<Bytes>)
    requires a <= b && AllUtf8(a)
    ensures a <= b[..FirstBad(b)]
  {
    assert forall i :: 0 <= i < |a| ==> IsUtf8(a[i]) && b[i] == a[i];
  }

  /** What comes before the first bad line closes no frame either. */
  lemma NothingClosedBefore(a: seq<Bytes>, b: seq<Bytes>)
    requires a <= b && AllUtf8(a) && !ClosesFrame(b[..FirstBad(b)])
    ensures BlockFrames(a) == []
  {
    ReadablePrefix(a, b);
    NoFrameIfNoneClosed(a);
    if ClosesFrame(a) {
      ClosesFrameInPrefix(a, b[..FirstBad(b)]);
    }
  }

  lemma NoFrameToYield(a: Bytes)
    requires AllUtf8(CompleteLines(a)) ==> BlockFrames(CompleteLines(a)) == []
    ensures YieldsNothing(NEW_PARSER, a)
  {
    WholeMeetsReference(a);
  }

  lemma HarmlessPrefix(a: Bytes, b: Bytes, all: seq<Bytes>)
    requires all == CompleteLines(a + b) && !ClosesFrame(all[..FirstBad(all)])
    ensures YieldsNothing(NEW_PARSER, a)
  {
    var lines := CompleteLines(a);
    LinesOfPrefix(a, b);
    if AllUtf8(lines) {
      NothingClosedBefore(lines, all);
    }
    NoFrameToYield(a);
  }

  lemma HarmlessIsSilent(s: Bytes)
    requires Harmless(s) && !AllUtf8(CompleteLines(s))
    ensures Silent(NEW_PARSER, s)
  {
    forall n | 0 <= n <= |s|
      ensures YieldsNothing(NEW_PARSER, s[..n])
    {
      assert s == s[..n] + s[n..];
      HarmlessPrefix(s[..n], s[n..], CompleteLines(s));
    }
  }

  lemma SilentStep(p: ParserState, a: Bytes, b: Bytes)
    requires Silent(p, a + b) && Feed(p, a).result.Ok?
    ensures Feed(p, a).result.value == [] && Silent(Feed(p, a).parser, b)
  {
    assert (a + b)[..|a|] == a;
    forall n | 0 <= n <= |b|
      ensures YieldsNothing(Feed(p, a).parser, b[..n])
    {
      assert (a + b)[..|a| + n] == a + b[..n];
      FeedSplit(p, a, b[..n]);
      PrependNothing(Feed(Feed(p, a).parser, b[..n]));
    }
  }

  /** An unreadable stream that stays silent is cut off before the decoder has seen anything. */
  lemma {:induction false} SilentRun<S>(d: Decoder<S>, client: nat -> bool, chunks: seq<Bytes>,
                                        tail: Option<GatewayError>, at: Progress<S>)
    requires Healthy(at) && LF !in at.parser.buffer && forall k: nat :: client(k)
    requires !Readable(at, Concat(chunks)) && Silent(at.parser, Concat(chunks))
    ensures var end := RelayLoop(d, client, Chunks(chunks, tail), at);
            end.streamError == Some(INVALID_UTF8) && !end.clientClosed && end.events == at.events
    decreases chunks
  {
    EmptyConcat(at.events);
    if chunks == [] {
      EmptyConcat(at.parser.buffer);
      DrainWithoutLf(at.parser);
    } else {
      var a, rest := chunks[0], Concat(chunks[1..]);
      FeedSplit(at.parser, a, rest);
      UnreadableIsUpstream(at.parser, a);
      var first := Watched(d, at, a);
      assert Chunks(chunks, tail)[1..] == Chunks(chunks[1..], tail);
      if Feed(at.parser, a).result.Ok? {
        SilentStep(at.parser, a, rest);
        SilentRun(d, client, chunks[1..], tail, first.(forwarded := at.forwarded + [a]));
      }
    }
  }

  lemma StoppedRunIsSettled<S>(context: StreamContext, d: Decoder<S>, client: nat -> bool,
                               upstream: seq<Result<Bytes, GatewayError>>)
    requires RelayLoop(d, client, upstream, Begin(d)).streamError.Some?
    ensures var end := RelayLoop(d, client, upstream, Begin(d));
            Relayed(context, d, client, upstream)
              == Settle(context, end.forwarded, end.streamError, end.clientClosed, Done in end.events,
                        AbsorbAll(NEW_AGGREGATE, end.events).usage)
  {
  }

  /**
   Billing does not depend on TCP boundaries. A client that reads to the end; two chunkings of the
   same bytes, ended in the same way by the upstream. Status, health update and affinity verdict are
   the same for every stream; for every harmless one so is the whole outcome: usage, billed tokens,
   completion flag and error, everything but the cut of the forwarded bytes.
   */
  lemma ChunkingIsUnbilled<S>(context: StreamContext, d: Decoder<S>, client: nat -> bool,
                              xs: seq<Bytes>, ys: seq<Bytes>, tail: Option<GatewayError>)
    requires Concat(xs) == Concat(ys) && forall k: nat :: client(k)
    ensures var ox := Relayed(context, d, client, Chunks(xs, tail));
            var oy := Relayed(context, d, client, Chunks(ys, tail));
            && ox.status == oy.status && ox.health == oy.health && ox.unbind == oy.unbind
            && (Harmless(Concat(xs)) ==> ox.(forwarded := oy.forwarded) == oy)
  {
    var at, s := Begin(d), Concat(xs);
    ReadableIffUtf8(at, s);
    var ex := RelayLoop(d, client, Chunks(xs, tail), at);
    var ey := RelayLoop(d, client, Chunks(ys, tail), at);
    if Readable(at, s) {
      LoopIsWhole(d, client, xs, tail, at);
      LoopIsWhole(d, client, ys, tail, at);
      SameRunSameOutcome(context, d, ex, ey);
    } else {
      UnreadableFails(d, client, xs, tail, at);
      UnreadableFails(d, client, ys, tail, at);
      if Harmless(s) {
        HarmlessIsSilent(s);
        SilentRun(d, client, xs, tail, at);
        SilentRun(d, client, ys, tail, at);
        StoppedRunIsSettled(context, d, client, Chunks(xs, tail));
        StoppedRunIsSettled(context, d, client, Chunks(ys, tail));
      }
    }
  }

  // Every other stream is billed by its chunks: a parser error discards the frames that the same
  // chunk completed before it.

  /** Reports one token for every frame. */
  function TokenPerFrame<S>(init: S): Decoder<S> {
    Decoder(init, (s: S, frame: SseFrame) => (s, Ok([UsageReport(Usage(1, 0, 0, 0, 0))])), (s: S) => Ok([]))
  }

  lemma BadChunkEndsRun<S>(d: Decoder<S>, client: nat -> bool, at: Progress<S>, bad: Bytes, tail: Option<GatewayError>)
    requires client(|at.forwarded|) && Feed(at.parser, bad).result.Err?
    ensures var end := RelayLoop(d, client, Chunks([bad], tail), at);
            end.events == at.events && end.streamError.Some?
  {
    assert Chunks([bad], tail)[0] == Ok(bad);
    EmptyConcat(at.events);
  }

  lemma {:induction false} TokensOfFrames<S>(init: S, s: S, frames: seq<SseFrame>)
    ensures var seen := Inspect(TokenPerFrame(init), s, frames);
            seen.error.None? && |seen.events| == |frames| && AllReport(seen.events, Usage(1, 0, 0, 0, 0))
    decreases frames
  {
    if frames != [] {
      var d := TokenPerFrame(init);
      var report := UsageReport(Usage(1, 0, 0, 0, 0));
      TokensOfFrames(init, s, frames[1..]);
      assert d.step(s, frames[0]) == (s, Ok([report]));
      assert [report][1..] == [];
      assert InspectOne(d, s, frames[0]) == Seen(s, [report], None);
    }
  }

  predicate AllReport(events: seq<StreamEvent>, u: Usage) {
    forall i :: 0 <= i < |events| ==> events[i] == UsageReport(u)
  }

  lemma {:induction false} SameReports(events: seq<StreamEvent>, u: Usage)
    requires AllReport(events, u)
    ensures MaxUsage(Reports(events)) == if events == [] then NO_USAGE else u
  {
    if events != [] {
      var n := |events| - 1;
      SameReports(events[..n], u);
      ReportsStep(events, events[..n], events[n]);
    }
  }

  lemma StoppedRunBillsItsEvents<S>(context: StreamContext, d: Decoder<S>, client: nat -> bool,
                                    upstream: seq<Result<Bytes, GatewayError>>)
    requires RelayLoop(d, client, upstream, Begin(d)).streamError.Some?
    ensures Relayed(context, d, client, upstream).billedTokens
         == BillingNormalized(MaxUsage(Reports(RelayLoop(d, client, upstream, Begin(d)).events)),
                              context.upstreamProtocol).Total()
  {
    UsageMeetsReference(RelayLoop(d, client, upstream, Begin(d)).events);
  }

  lemma BillTogether<S>(context: StreamContext, d: Decoder<S>, client: nat -> bool, bad: Bytes,
                        tail: Option<GatewayError>)
    requires client(0) && Feed(NEW_PARSER, bad).result.Err?
    ensures Relayed(context, d, client, Chunks([bad], tail)).billedTokens == 0
  {
    BadChunkEndsRun(d, client, Begin(d), bad, tail);
    StoppedRunBillsItsEvents(context, d, client, Chunks([bad], tail));
  }

  lemma GoodThenBad<S>(d: Decoder<S>, client: nat -> bool, a: Bytes, b: Bytes, tail: Option<GatewayError>)
    requires client(0) && client(1)
    requires Watched(d, Begin(d), a).streamError.None?
    requires Feed(Watched(d, Begin(d), a).parser, b).result.Err?
    ensures var end := RelayLoop(d, client, Chunks([a, b], tail), Begin(d));
            end.events == Watched(d, Begin(d), a).events && end.streamError.Some?
  {
    var first := Watched(d, Begin(d), a);
    BadChunkEndsRun(d, client, first.(forwarded := [] + [a]), b, tail);
    assert [a, b][1..] == [b];
    assert Chunks([a, b], tail)[1..] == Chunks([b], tail);
  }

  lemma TokensOfChunk<S>(init: S, a: Bytes)
    requires Feed(NEW_PARSER, a).result.Ok? && Feed(NEW_PARSER, a).result.value != []
    ensures var first := Watched(TokenPerFrame(init), Begin(TokenPerFrame(init)), a);
            && first.streamError.None? && first.parser == Feed(NEW_PARSER, a).parser
            && MaxUsage(Reports(first.events)) == Usage(1, 0, 0, 0, 0)
  {
    var d := TokenPerFrame(init);
    TokensOfFrames(init, init, Feed(NEW_PARSER, a).result.value);
    var seen := Inspect(d, init, Feed(NEW_PARSER, a).result.value);
    EmptyConcat(seen.events);
    SameReports(seen.events, Usage(1, 0, 0, 0, 0));
  }

  lemma BillApart<S>(context: StreamContext, init: S, client: nat -> bool, a: Bytes, b: Bytes,
                     tail: Option<GatewayError>)
    requires client(0) && client(1)
    requires Feed(NEW_PARSER, a).result.Ok? && Feed(NEW_PARSER, a).result.value != []
    requires Feed(Feed(NEW_PARSER, a).parser, b).result.Err?
    ensures Relayed(context, TokenPerFrame(init), client, Chunks([a, b], tail)).billedTokens == 1
  {
    var d := TokenPerFrame(init);
    TokensOfChunk(init, a);
    GoodThenBad(d, client, a, b, tail);
    StoppedRunBillsItsEvents(context, d, client, Chunks([a, b], tail));
  }

  /** Frames that are complete before a bad line are billed only if a chunk ends between them and it. */
  lemma UnreadableStreamIsBilledByChunk<S>(context: StreamContext, init: S, client: nat -> bool,
                                           a: Bytes, b: Bytes, tail: Option<GatewayError>)
    requires forall k: nat :: client(k)
    requires Feed(NEW_PARSER, a).result.Ok? && Feed(NEW_PARSER, a).result.value != []
    requires Feed(NEW_PARSER, a + b).result.Err?
    ensures Relayed(context, TokenPerFrame(init), client, Chunks([a + b], tail)).billedTokens == 0
    ensures Relayed(context, TokenPerFrame(init), client, Chunks([a, b], tail)).billedTokens == 1
  {
    FeedSplit(NEW_PARSER, a, b);
    BillTogether(context, TokenPerFrame(init), client, a + b, tail);
    BillApart(context, init, client, a, b, tail);
  }

  /** All chunkings of `s` bill the same number of tokens, whatever the decoder and the end of the upstream. */
  ghost predicate BilledAlike<S(!new)>(context: StreamContext, client: nat -> bool, s: Bytes) {
    forall d: Decoder<S>, xs, ys, tail :: Concat(xs) == s && Concat(ys) == s ==>
      Relayed(context, d, client, Chunks(xs, tail)).billedTokens
        == Relayed(context, d, client, Chunks(ys, tail)).billedTokens
  }

  /** The exact condition: chunk boundaries cannot change the bill of a stream if and only if it is harmless. */
  lemma BilledAlikeIfHarmless<S(!new)>(context: StreamContext, init: S, client: nat -> bool, s: Bytes)
    requires forall k: nat :: client(k)
    ensures BilledAlike<S>(context, client, s) <==> Harmless(s)
  {
    if Harmless(s) {
      forall d: Decoder<S>, xs, ys, tail | Concat(xs) == s && Concat(ys) == s
        ensures Relayed(context, d, client, Chunks(xs, tail)).billedTokens
             == Relayed(context, d, client, Chunks(ys, tail)).billedTokens
      {
        ChunkingIsUnbilled(context, d, client, xs, ys, tail);
      }
    } else {
      var lines := CompleteLines(s);
      var a, b := CutAfterLines(s, FirstBad(lines));
      WholeMeetsReference(s);
      WholeMeetsReference(a);
      NoFrameIfNoneClosed(CompleteLines(a));
      UnreadableStreamIsBilledByChunk(context, init, client, a, b, None);
      ConcatOfOne(s);
      ConcatOfTwo(a, b);
    }
  }

  lemma BadLineFails(p: ParserState)
    requires p.buffer == []
    ensures Feed(p, [0xFF, LF]).result.Err?
  {
    var bad: Bytes := [0xFF, LF];
    var q := p.(buffer := bad);
    EmptyConcat(bad);
    IndexOfIs(bad, LF, 1);
    assert LineAt(bad, 1) == [0xFF];
    DrainOne(q, 1);
  }

  lemma RenderedFrameIsRead(frame: SseFrame)
    requires WellTyped(frame) && EventHasNoLf(frame)
    ensures Feed(NEW_PARSER, Render(frame)) == Fed(NEW_PARSER, Ok([Stripped(frame)]))
  {
    DrainRenderedAll([frame]);
    EmptyConcat(Render(frame));
    assert RenderAll([frame]) == Render(frame);
    assert StrippedAll([frame]) == [Stripped(frame)];
  }

  /** Such streams exist: any rendered frame and then a line that is not UTF-8, billed one token or none. */
  lemma FrameThenBadLineIsHarmful<S>(context: StreamContext, init: S, client: nat -> bool, frame: SseFrame,
                                     tail: Option<GatewayError>)
    requires forall k: nat :: client(k)
    requires WellTyped(frame) && EventHasNoLf(frame)
    ensures !Harmless(Render(frame) + [0xFF, LF])
    ensures Relayed(context, TokenPerFrame(init), client, Chunks([Render(frame) + [0xFF, LF]], tail)).billedTokens == 0
    ensures Relayed(context, TokenPerFrame(init), client, Chunks([Render(frame), [0xFF, LF]], tail)).billedTokens == 1
  {
    var a, b: Bytes := Render(frame), [0xFF, LF];
    RenderedFrameIsRead(frame);
    BadLineFails(NEW_PARSER);
    FeedSplit(NEW_PARSER, a, b);
    UnreadableStreamIsBilledByChunk(context, init, client, a, b, tail);
    HarmfulIfBilledByChunk(a, b);
  }

  lemma HarmfulIfBilledByChunk(a: Bytes, b: Bytes)
    requires Feed(NEW_PARSER, a).result.Ok? && Feed(NEW_PARSER, a).result.value != []
    requires Feed(NEW_PARSER, a + b).result.Err?
    ensures !Harmless(a + b)
  {
    WholeMeetsReference(a + b);
    if !ClosesFrame(CompleteLines(a + b)[..FirstBad(CompleteLines(a + b))]) {
      HarmlessPrefix(a, b, CompleteLines(a + b));
    }
  }
}
