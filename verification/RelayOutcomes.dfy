/**
 What comes out of a relay run, for every way in which a stream can end: status, health update,
 affinity verdict and bill, said on the frames that the upstream rendered and the events they decode to.
 */
module RelayOutcomes {
  import opened Wrappers
  import opened Core
  import opened Utf8
  import opened Sse
  import opened SseProofs
  import opened Ir
  import opened Aggregator
  import opened AggregatorProofs
  import opened Relay
  import opened RelayProofs

  // ------------------------------------------------------------------ what is sent

  /** Frames in their wire form and, it may be, one more that lacks its closing blank line. */
  function Wire(frames: seq<SseFrame>, last: Option<SseFrame>): Bytes {
    RenderAll(frames) + (if last.Some? then Render(last.value)[..|Render(last.value)| - 1] else [])
  }

  function Trailing(last: Option<SseFrame>): seq<SseFrame> {
    if last.Some? then [last.value] else []
  }

  predicate Sendable(frames: seq<SseFrame>) {
    forall f :: f in frames ==> WellTyped(f) && Renderable(f)
  }

  /** The decoder after some frames and all events they gave. */
  datatype Decoding<!S> = Decoding(decoder: S, events: seq<StreamEvent>)

  predicate HasError(events: seq<StreamEvent>) {
    exists i :: 0 <= i < |events| && events[i].Error?
  }

  /** Decoding frame by frame; nothing if a frame does not decode or an event reports an error. */
  function DecodeAll<S>(d: Decoder<S>, s: S, frames: seq<SseFrame>): Option<Decoding<S>>
    decreases frames
  {
    if frames == [] then Some(Decoding(s, []))
    else
      var (next, decoded) := d.step(s, frames[0]);
      if decoded.Err? || HasError(decoded.value) then None
      else
        var rest := DecodeAll(d, next, frames[1..]);
        if rest.None? then None else Some(Decoding(rest.value.decoder, decoded.value + rest.value.events))
  }

  // ---------------------------------------------------------------- what comes out

  /** The bill for counters that have reached `max`: an Anthropic upstream's cached input is part of the input. */
  predicate BillIs(o: Outcome, protocol: Protocol, max: Usage) {
    && o.usage.inputTokens == (if protocol == Messages
                               then Min(U64_MAX, max.inputTokens + max.cachedInputTokens + max.cacheWriteTokens)
                               else max.inputTokens)
    && o.usage.outputTokens == max.outputTokens && o.usage.cachedInputTokens == max.cachedInputTokens
    && o.usage.cacheWriteTokens == max.cacheWriteTokens && o.usage.reasoningTokens == max.reasoningTokens
    && o.billedTokens == o.usage.inputTokens + o.usage.outputTokens
  }

  /** What a run bills: of every counter the largest report among the events. */
  predicate Bills(o: Outcome, protocol: Protocol, events: seq<StreamEvent>) {
    BillIs(o, protocol, MaxUsage(Reports(events)))
  }

  predicate Succeeds(o: Outcome) {
    o.streamError.None? && !o.clientClosed && o.status == 200 && o.health == RecordSuccess && !o.unbind
  }

  /** The status an error kind is answered with. */
  predicate HasStatus(kind: ErrorKind, status: nat) {
    && (kind.InvalidRequest? || kind.TranscodeNotPermitted? ==> status == 400)
    && (kind.Unauthenticated? ==> status == 401)
    && (kind.PermissionDenied? ==> status == 403)
    && (kind.NotFound? ==> status == 404)
    && (kind.PayloadTooLarge? ==> status == 413)
    && (kind.RateLimited? ==> status == 429)
    && (kind.Internal? || kind.TranscodeFailed? || kind.Configuration? || kind.InvalidUpstreamResponse? ==>
          status == 500)
    && (kind.UpstreamError? ==> status == 502)
    && (kind.NoAvailableChannel? ==> status == 503)
    && (kind.Timeout? ==> status == 504)
  }

  /** Errors that speak against the endpoint: credentials, limits, configuration, and the upstream itself. */
  predicate SpeaksAgainstEndpoint(kind: ErrorKind) {
    kind in {Unauthenticated, PermissionDenied, RateLimited, UpstreamError, Timeout, Configuration, NotFound}
  }

  predicate Fails(o: Outcome, context: StreamContext, e: GatewayError) {
    && o.streamError == Some(e) && !o.clientClosed && HasStatus(e.kind, o.status)
    && o.health == (if SpeaksAgainstEndpoint(e.kind) then RecordFailure(e.kind) else NoUpdate)
    && (o.unbind <==> context.skipRetry == Some(false))
  }

  predicate Closes(o: Outcome) {
    o.streamError.None? && o.clientClosed && o.status == 499 && o.health == NoUpdate && !o.unbind
  }

  lemma StatusMeans(kind: ErrorKind)
    ensures HasStatus(kind, kind.Status()) && (SpeaksAgainstEndpoint(kind) <==> BlamesEndpoint(kind))
  {
  }

  lemma NormalizedMeans(max: Usage, protocol: Protocol)
    ensures var u := BillingNormalized(max, protocol);
            && u.inputTokens == (if protocol == Messages
                                 then Min(U64_MAX, max.inputTokens + max.cachedInputTokens + max.cacheWriteTokens)
                                 else max.inputTokens)
            && u == max.(inputTokens := u.inputTokens)
  {
    AnthropicInputIsWholeInput(max);
  }

  lemma SettledBill(context: StreamContext, forwarded: seq<Bytes>, error: Option<GatewayError>,
                    closed: bool, done: bool, usage: Usage)
    ensures BillIs(Settle(context, forwarded, error, closed, done, usage), context.upstreamProtocol, usage)
  {
    NormalizedMeans(usage, context.upstreamProtocol);
  }

  lemma SettledEnd(context: StreamContext, forwarded: seq<Bytes>, error: Option<GatewayError>,
                   closed: bool, done: bool, usage: Usage)
    requires error.Some? ==> !closed
    ensures var o := Settle(context, forwarded, error, closed, done, usage);
            && o.forwarded == forwarded && o.sawDone == done
            && (error.None? && !closed ==> Succeeds(o)) && (closed ==> Closes(o))
            && (error.Some? ==> Fails(o, context, error.value))
  {
    if error.Some? {
      StatusMeans(error.value.kind);
    }
  }

  lemma SettlementMeans(context: StreamContext, forwarded: seq<Bytes>, error: Option<GatewayError>,
                        closed: bool, done: bool, events: seq<StreamEvent>, usage: Usage)
    requires usage == AbsorbAll(NEW_AGGREGATE, events).usage && (error.Some? ==> !closed)
    ensures var o := Settle(context, forwarded, error, closed, done, usage);
            && o.forwarded == forwarded && o.sawDone == done && Bills(o, context.upstreamProtocol, events)
            && (error.None? && !closed ==> Succeeds(o)) && (closed ==> Closes(o))
            && (error.Some? ==> Fails(o, context, error.value))
  {
    UsageMeetsReference(events);
    SettledBill(context, forwarded, error, closed, done, usage);
    SettledEnd(context, forwarded, error, closed, done, usage);
  }

  // --------------------------------------------------------------------- decoding

  lemma HasErrorStep(events: seq<StreamEvent>)
    requires events != []
    ensures HasError(events) <==> events[0].Error? || HasError(events[1..])
  {
    if i :| 0 <= i < |events| && events[i].Error? && i > 0 {
      assert events[1..][i - 1] == events[i];
    }
    if i :| 0 <= i < |events[1..]| && events[1..][i].Error? {
      assert events[i + 1].Error?;
    }
  }

  lemma {:induction false} NoErrorKeepsAll(events: seq<StreamEvent>)
    requires !HasError(events)
    ensures BeforeError(events) == events && FirstError(events).None?
  {
    if events != [] {
      HasErrorStep(events);
      NoErrorKeepsAll(events[1..]);
      assert events == [events[0]] + events[1..];
    }
  }

  /** Inspecting frames that decode finds their events and no error. */
  lemma {:induction false} DecodedIsInspected<S>(d: Decoder<S>, s: S, frames: seq<SseFrame>)
    requires DecodeAll(d, s, frames).Some?
    ensures var x := DecodeAll(d, s, frames).value;
            Inspect(d, s, frames) == Seen(x.decoder, x.events, None)
    decreases frames
  {
    if frames != [] {
      var (next, decoded) := d.step(s, frames[0]);
      NoErrorKeepsAll(decoded.value);
      DecodedIsInspected(d, next, frames[1..]);
    }
  }

  lemma {:induction false} DecodeConcat<S>(d: Decoder<S>, s: S, a: seq<SseFrame>, b: seq<SseFrame>)
    requires DecodeAll(d, s, a + b).Some?
    ensures DecodeAll(d, s, a).Some? && DecodeAll(d, DecodeAll(d, s, a).value.decoder, b).Some?
    ensures var first := DecodeAll(d, s, a).value;
            var second := DecodeAll(d, first.decoder, b).value;
            DecodeAll(d, s, a + b).value == Decoding(second.decoder, first.events + second.events)
    decreases a
  {
    if a == [] {
      EmptyConcat(b);
      EmptyConcat(DecodeAll(d, s, b).value.events);
    } else {
      TailOfConcat(a, b);
      var (next, decoded) := d.step(s, a[0]);
      DecodeConcat(d, next, a[1..], b);
      var mid := DecodeAll(d, next, a[1..]).value;
      ConcatAssoc(decoded.value, mid.events, DecodeAll(d, mid.decoder, b).value.events);
    }
  }

  lemma RenderedIsRead(frames: seq<SseFrame>)
    requires Sendable(frames)
    ensures Feed(NEW_PARSER, RenderAll(frames)) == Fed(NEW_PARSER, Ok(frames))
  {
    DrainRenderedAll(frames);
    StrippedAllIsSame(frames);
    EmptyConcat(RenderAll(frames));
  }

  /** The parser finds the closed frames at once and the unclosed one at the end. */
  lemma WireIsRead(frames: seq<SseFrame>, last: Option<SseFrame>)
    requires Sendable(frames) && Sendable(Trailing(last))
    ensures var fed := Feed(NEW_PARSER, Wire(frames, last));
            fed.result == Ok(frames) && Finish(fed.parser) == Fed(NEW_PARSER, Ok(Trailing(last)))
  {
    RenderedIsRead(frames);
    if last.Some? {
      var cut := Render(last.value)[..|Render(last.value)| - 1];
      assert last.value in Trailing(last);
      FinishKeepsTrailingFrame(last.value);
      FeedSplit(NEW_PARSER, RenderAll(frames), cut);
      EmptyConcat(frames);
    } else {
      EmptyConcat(RenderAll(frames));
    }
  }

  // ------------------------------------------------------------------------- loop

  /** A run that nothing stops forwards every chunk. */
  lemma {:induction false} LoopForwardsAll<S>(d: Decoder<S>, client: nat -> bool, chunks: seq<Bytes>,
                                              tail: Option<GatewayError>, at: Progress<S>)
    requires Healthy(at) && forall k: nat :: client(k)
    requires Readable(at, Concat(chunks)) && Watched(d, at, Concat(chunks)).streamError.None?
    ensures RelayLoop(d, client, Chunks(chunks, tail), at).forwarded == at.forwarded + chunks
    decreases chunks
  {
    if chunks == [] {
      EmptyConcat(at.forwarded);
    } else {
      var a, rest := chunks[0], Concat(chunks[1..]);
      var first := Watched(d, at, a);
      WatchedConcat(d, at, a, rest);
      assert Chunks(chunks, tail)[1..] == Chunks(chunks[1..], tail);
      var sent := first.(forwarded := at.forwarded + [a]);
      ForwardingIsUnseen(d, first, sent.forwarded, rest);
      LoopForwardsAll(d, client, chunks[1..], tail, sent);
      ConcatAssoc(at.forwarded, [a], chunks[1..]);
      assert [a] + chunks[1..] == chunks;
    }
  }

  lemma ClosesNow<S>(d: Decoder<S>, client: nat -> bool, upstream: seq<Result<Bytes, GatewayError>>, at: Progress<S>,
                     bytes: Bytes)
    requires upstream != [] && upstream[0] == Ok(bytes) && !client(|at.forwarded|)
    ensures RelayLoop(d, client, upstream, at)
         == Watched(d, at, bytes).(clientClosed := true, streamError := None)
  {
  }

  lemma TakesNow<S>(d: Decoder<S>, client: nat -> bool, upstream: seq<Result<Bytes, GatewayError>>, at: Progress<S>,
                    bytes: Bytes)
    requires upstream != [] && upstream[0] == Ok(bytes) && client(|at.forwarded|)
    requires Watched(d, at, bytes).streamError.None?
    ensures RelayLoop(d, client, upstream, at)
         == RelayLoop(d, client, upstream[1..], Watched(d, at, bytes).(forwarded := at.forwarded + [bytes]))
  {
  }

  lemma ChunksStep(chunks: seq<Bytes>, tail: Option<GatewayError>)
    requires chunks != []
    ensures var all := Chunks(chunks, tail);
            all != [] && all[0] == Ok(chunks[0]) && all[1..] == Chunks(chunks[1..], tail)
  {
  }

  lemma TakenStep(chunks: seq<Bytes>, k: nat)
    requires 0 < k < |chunks|
    ensures Concat(chunks[..k + 1]) == chunks[0] + Concat(chunks[1..][..k])
    ensures [chunks[0]] + chunks[1..][..k - 1] == chunks[..k]
  {
    assert chunks[..k + 1][1..] == chunks[1..][..k];
  }

  lemma FirstTaken(chunks: seq<Bytes>)
    requires chunks != []
    ensures Concat(chunks[..1]) == chunks[0]
  {
    assert chunks[..1] == [chunks[0]];
    ConcatOfOne(chunks[0]);
  }

  /** A client that takes `k` more chunks and no further: what it did not take was still inspected. */
  lemma {:induction false} LoopStopsAtClose<S>(d: Decoder<S>, client: nat -> bool, chunks: seq<Bytes>,
                                               tail: Option<GatewayError>, at: Progress<S>, k: nat, bytes: Bytes)
    requires Healthy(at) && k < |chunks| && !client(|at.forwarded| + k)
    requires forall i: nat :: i < |at.forwarded| + k ==> client(i)
    requires bytes == Concat(chunks[..k + 1]) && Readable(at, bytes) && Watched(d, at, bytes).streamError.None?
    ensures var end := RelayLoop(d, client, Chunks(chunks, tail), at);
            && end.clientClosed && end.streamError.None? && end.forwarded == at.forwarded + chunks[..k]
            && end.events == Watched(d, at, bytes).events
    decreases k
  {
    var a, upstream := chunks[0], Chunks(chunks, tail);
    ChunksStep(chunks, tail);
    if k == 0 {
      FirstTaken(chunks);
      EmptyConcat(at.forwarded);
      ClosesNow(d, client, upstream, at, a);
    } else {
      var first, rest := Watched(d, at, a), Concat(chunks[1..][..k]);
      TakenStep(chunks, k);
      WatchedConcat(d, at, a, rest);
      TakesNow(d, client, upstream, at, a);
      var sent := first.(forwarded := at.forwarded + [a]);
      ForwardingIsUnseen(d, first, sent.forwarded, rest);
      LoopStopsAtClose(d, client, chunks[1..], tail, sent, k - 1, rest);
      ConcatAssoc(at.forwarded, [a], chunks[1..][..k - 1]);
    }
  }

  lemma WatchedWire<S>(d: Decoder<S>, frames: seq<SseFrame>, last: Option<SseFrame>)
    requires Sendable(frames) && Sendable(Trailing(last)) && DecodeAll(d, d.init, frames).Some?
    ensures Readable(Begin(d), Wire(frames, last))
    ensures var x, all := DecodeAll(d, d.init, frames).value, Watched(d, Begin(d), Wire(frames, last));
            all == Progress(Feed(NEW_PARSER, Wire(frames, last)).parser, x.decoder, x.events, [], None, false)
  {
    WireIsRead(frames, last);
    DecodedIsInspected(d, d.init, frames);
    EmptyConcat(DecodeAll(d, d.init, frames).value.events);
  }

  /** Where the loop stands at the end of the upstream, or at its error. */
  lemma LoopOverWire<S>(d: Decoder<S>, client: nat -> bool, frames: seq<SseFrame>, last: Option<SseFrame>,
                        chunks: seq<Bytes>, tail: Option<GatewayError>)
    requires Sendable(frames) && Sendable(Trailing(last)) && DecodeAll(d, d.init, frames).Some?
    requires Concat(chunks) == Wire(frames, last) && forall k: nat :: client(k)
    ensures var x, end := DecodeAll(d, d.init, frames).value, RelayLoop(d, client, Chunks(chunks, tail), Begin(d));
            && end.events == x.events && end.streamError == tail && !end.clientClosed && end.forwarded == chunks
            && (tail.None? ==> end.decoder == x.decoder && end.parser == Feed(NEW_PARSER, Wire(frames, last)).parser)
  {
    WatchedWire(d, frames, last);
    LoopIsWhole(d, client, chunks, tail, Begin(d));
    LoopForwardsAll(d, client, chunks, tail, Begin(d));
    EmptyConcat(chunks);
  }

  // --------------------------------------------------------------------- outcomes

  /** The run at the end of the upstream, the unclosed frame decoded. */
  lemma FlushedWire<S>(d: Decoder<S>, at: Progress<S>, frames: seq<SseFrame>, last: Option<SseFrame>)
    requires Sendable(frames) && Sendable(Trailing(last)) && DecodeAll(d, d.init, frames + Trailing(last)).Some?
    requires Healthy(at) && at.parser == Feed(NEW_PARSER, Wire(frames, last)).parser
    requires DecodeAll(d, d.init, frames).Some? && at.decoder == DecodeAll(d, d.init, frames).value.decoder
    requires at.events == DecodeAll(d, d.init, frames).value.events
    ensures var all := DecodeAll(d, d.init, frames + Trailing(last)).value;
            FlushParser(d, at) == at.(parser := NEW_PARSER, decoder := all.decoder, events := all.events)
  {
    WireIsRead(frames, last);
    DecodeConcat(d, d.init, frames, Trailing(last));
    DecodedIsInspected(d, at.decoder, Trailing(last));
  }

  lemma RunOverWire<S>(context: StreamContext, d: Decoder<S>, client: nat -> bool,
                       frames: seq<SseFrame>, last: Option<SseFrame>, chunks: seq<Bytes>)
    requires Sendable(frames) && Sendable(Trailing(last)) && DecodeAll(d, d.init, frames + Trailing(last)).Some?
    requires Concat(chunks) == Wire(frames, last) && forall k: nat :: client(k)
    ensures var all := DecodeAll(d, d.init, frames + Trailing(last)).value;
            var complete := context.upstreamProtocol == Gemini || Done in all.events;
            RunToEnd(context, d, client, Chunks(chunks, None))
              == Progress(NEW_PARSER, all.decoder, all.events, chunks,
                          if complete then None else Some(MISSING_DONE), false)
  {
    DecodeConcat(d, d.init, frames, Trailing(last));
    LoopOverWire(d, client, frames, last, chunks, None);
    FlushedWire(d, RelayLoop(d, client, Chunks(chunks, None), Begin(d)), frames, last);
  }

  /**
   The outcome of a stream that arrives whole, in any chunking, the blank line after its last frame
   given or not, at a client that takes it all. If the decoder saw the completion event, or the
   upstream is Gemini, which has none, it is a success, billed on the events of the frames and the
   decoder's closing ones; otherwise it is exactly the missing completion.
   */
  lemma WholeStreamOutcome<S>(context: StreamContext, d: Decoder<S>, client: nat -> bool, frames: seq<SseFrame>,
                              last: Option<SseFrame>, chunks: seq<Bytes>, closing: seq<StreamEvent>)
    requires Sendable(frames) && Sendable(Trailing(last)) && DecodeAll(d, d.init, frames + Trailing(last)).Some?
    requires d.finish(DecodeAll(d, d.init, frames + Trailing(last)).value.decoder) == Ok(closing)
    requires Concat(chunks) == Wire(frames, last) && forall k: nat :: client(k)
    ensures var events := DecodeAll(d, d.init, frames + Trailing(last)).value.events;
            var o := Relayed(context, d, client, Chunks(chunks, None));
            && o.forwarded == chunks && o.sawDone == (Done in events)
            && if context.upstreamProtocol == Gemini || Done in events
               then Succeeds(o) && Bills(o, context.upstreamProtocol, events + closing)
               else Fails(o, context, GatewayError(
                                        UpstreamError, "upstream stream ended without its protocol completion event"))
                    && o.status == 502 && o.health == RecordFailure(UpstreamError)
                    && Bills(o, context.upstreamProtocol, events)
  {
    RunOverWire(context, d, client, frames, last, chunks);
    var events := DecodeAll(d, d.init, frames + Trailing(last)).value.events;
    var complete := context.upstreamProtocol == Gemini || Done in events;
    SettlementMeans(context, chunks, if complete then None else Some(MISSING_DONE), false, Done in events,
                    if complete then events + closing else events,
                    AbsorbAll(NEW_AGGREGATE, if complete then events + closing else events).usage);
  }

  /** A decoder that refuses to close the stream: its error, and the bill of the frames. */
  lemma UnfinishedStreamOutcome<S>(context: StreamContext, d: Decoder<S>, client: nat -> bool, frames: seq<SseFrame>,
                                   last: Option<SseFrame>, chunks: seq<Bytes>, e: GatewayError)
    requires Sendable(frames) && Sendable(Trailing(last)) && DecodeAll(d, d.init, frames + Trailing(last)).Some?
    requires d.finish(DecodeAll(d, d.init, frames + Trailing(last)).value.decoder) == Err(e)
    requires Concat(chunks) == Wire(frames, last) && forall k: nat :: client(k)
    requires context.upstreamProtocol == Gemini || Done in DecodeAll(d, d.init, frames + Trailing(last)).value.events
    ensures var o := Relayed(context, d, client, Chunks(chunks, None));
            && o.forwarded == chunks && Fails(o, context, e)
            && Bills(o, context.upstreamProtocol, DecodeAll(d, d.init, frames + Trailing(last)).value.events)
  {
    RunOverWire(context, d, client, frames, last, chunks);
    var events := DecodeAll(d, d.init, frames + Trailing(last)).value.events;
    SettlementMeans(context, chunks, Some(e), false, Done in events, events,
                    AbsorbAll(NEW_AGGREGATE, events).usage);
  }

  /** An upstream that breaks off: its own error with that error's status, and the bill of what arrived whole. */
  lemma BrokenStreamOutcome<S>(context: StreamContext, d: Decoder<S>, client: nat -> bool, frames: seq<SseFrame>,
                               last: Option<SseFrame>, chunks: seq<Bytes>, e: GatewayError)
    requires Sendable(frames) && Sendable(Trailing(last)) && DecodeAll(d, d.init, frames).Some?
    requires Concat(chunks) == Wire(frames, last) && forall k: nat :: client(k)
    ensures var o := Relayed(context, d, client, Chunks(chunks, Some(e)));
            && o.forwarded == chunks && Fails(o, context, e)
            && Bills(o, context.upstreamProtocol, DecodeAll(d, d.init, frames).value.events)
  {
    LoopOverWire(d, client, frames, last, chunks, Some(e));
    StoppedRunIsSettled(context, d, client, Chunks(chunks, Some(e)));
    var events := DecodeAll(d, d.init, frames).value.events;
    SettlementMeans(context, chunks, Some(e), false, Done in events, events,
                    AbsorbAll(NEW_AGGREGATE, events).usage);
  }

  lemma ClosedRunCloses<S>(context: StreamContext, d: Decoder<S>, client: nat -> bool,
                           upstream: seq<Result<Bytes, GatewayError>>, end: Progress<S>)
    requires end == RelayLoop(d, client, upstream, Begin(d)) && end.clientClosed && end.streamError.None?
    ensures var o := Relayed(context, d, client, upstream);
            o.forwarded == end.forwarded && Closes(o) && Bills(o, context.upstreamProtocol, end.events)
  {
    SettlementMeans(context, end.forwarded, None, true, Done in end.events, end.events,
                    AbsorbAll(NEW_AGGREGATE, end.events).usage);
  }

  lemma LoopOverClosed<S>(d: Decoder<S>, client: nat -> bool, chunks: seq<Bytes>, tail: Option<GatewayError>, k: nat,
                          bytes: Bytes)
    requires k < |chunks| && Concat(chunks[..k + 1]) == bytes
    requires Readable(Begin(d), bytes) && Watched(d, Begin(d), bytes).streamError.None?
    requires !client(k) && forall i: nat :: i < k ==> client(i)
    ensures var end := RelayLoop(d, client, Chunks(chunks, tail), Begin(d));
            && end.clientClosed && end.streamError.None? && end.forwarded == chunks[..k]
            && end.events == Watched(d, Begin(d), bytes).events
  {
    var at := Begin(d);
    assert |at.forwarded| + k == k;
    LoopStopsAtClose(d, client, chunks, tail, at, k, bytes);
    EmptyConcat(chunks[..k]);
  }

  /** A client that leaves: it pays for all frames up to and including the chunk it did not take. */
  lemma ClosedClientOutcome<S>(context: StreamContext, d: Decoder<S>, client: nat -> bool, frames: seq<SseFrame>,
                               last: Option<SseFrame>, chunks: seq<Bytes>, tail: Option<GatewayError>, k: nat)
    requires Sendable(frames) && Sendable(Trailing(last)) && DecodeAll(d, d.init, frames).Some?
    requires k < |chunks| && Concat(chunks[..k + 1]) == Wire(frames, last)
    requires !client(k) && forall i: nat :: i < k ==> client(i)
    ensures var o := Relayed(context, d, client, Chunks(chunks, tail));
            && o.forwarded == chunks[..k] && Closes(o)
            && Bills(o, context.upstreamProtocol, DecodeAll(d, d.init, frames).value.events)
  {
    WatchedWire(d, frames, last);
    LoopOverClosed(d, client, chunks, tail, k, Wire(frames, last));
    var upstream := Chunks(chunks, tail);
    ClosedRunCloses(context, d, client, upstream, RelayLoop(d, client, upstream, Begin(d)));
  }

  // ------------------------------------------------------------------ bad frames

  /** What a frame that stops the run leaves behind: the events before its error, and that error. */
  predicate Stops<S>(d: Decoder<S>, s: S, bad: SseFrame, kept: seq<StreamEvent>, e: GatewayError) {
    match d.step(s, bad).1
    case Err(inner) =>
      kept == [] && e == GatewayError(UpstreamError, "failed to decode upstream stream: " + inner.message)
    case Ok(events) =>
      && kept < events && !HasError(kept) && events[|kept|].Error?
      && e == GatewayError(UpstreamError, events[|kept|].message)
  }

  lemma {:induction false} FirstErrorIs(events: seq<StreamEvent>, n: nat)
    requires n < |events| && events[n].Error? && !HasError(events[..n])
    ensures BeforeError(events) == events[..n]
    ensures FirstError(events) == Some(GatewayError(UpstreamError, events[n].message))
  {
    if n > 0 {
      HasErrorStep(events[..n]);
      assert events[..n][1..] == events[1..][..n - 1];
      FirstErrorIs(events[1..], n - 1);
      assert events[..n] == [events[0]] + events[1..][..n - 1];
    }
  }

  lemma StopIsInspected<S>(d: Decoder<S>, s: S, bad: SseFrame, more: seq<SseFrame>, kept: seq<StreamEvent>,
                           e: GatewayError)
    requires Stops(d, s, bad, kept, e)
    ensures Inspect(d, s, [bad] + more).events == kept && Inspect(d, s, [bad] + more).error == Some(e)
  {
    var decoded := d.step(s, bad).1;
    if decoded.Ok? {
      assert kept == decoded.value[..|kept|];
      FirstErrorIs(decoded.value, |kept|);
    }
  }

  /**
   A frame that does not decode, or decodes to an error event: the run ends with that error
   whatever follows and however it is chunked, and bills what was decoded before it.
   */
  lemma BadFrameOutcome<S>(context: StreamContext, d: Decoder<S>, client: nat -> bool, good: seq<SseFrame>,
                           bad: SseFrame, more: seq<SseFrame>, chunks: seq<Bytes>,
                           kept: seq<StreamEvent>, e: GatewayError)
    requires Sendable(good + ([bad] + more)) && DecodeAll(d, d.init, good).Some?
    requires Stops(d, DecodeAll(d, d.init, good).value.decoder, bad, kept, e)
    requires Concat(chunks) == RenderAll(good + ([bad] + more)) && forall k: nat :: client(k)
    ensures var o := Relayed(context, d, client, Chunks(chunks, None));
            && Fails(o, context, e) && o.status == 502 && o.health == RecordFailure(UpstreamError)
            && Bills(o, context.upstreamProtocol, DecodeAll(d, d.init, good).value.events + kept)
  {
    var x := DecodeAll(d, d.init, good).value;
    DecodedIsInspected(d, d.init, good);
    StopIsInspected(d, x.decoder, bad, more, kept, e);
    InspectConcat(d, d.init, good, [bad] + more);
    RelayDecodesRenderedFrames(d, client, good + ([bad] + more), chunks);
    var end := RelayLoop(d, client, Chunks(chunks, None), Begin(d));
    StoppedRunIsSettled(context, d, client, Chunks(chunks, None));
    SettlementMeans(context, end.forwarded, Some(e), false, Done in end.events, x.events + kept,
                    AbsorbAll(NEW_AGGREGATE, x.events + kept).usage);
  }
}
