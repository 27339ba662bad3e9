/**
 The native stream relay: bytes go to the client unchanged while a parser, a decoder and an
 aggregator watch; the end of the run settles status, endpoint health, affinity and billing.
 */
module Relay {
  import opened Wrappers
  import opened Core
  import opened Utf8
  import opened Sse
  import opened Ir
  import opened Aggregator

  /** A protocol codec's stream decoder: any deterministic machine over frames. */
  datatype Decoder<!S> = Decoder(
    init: S,
    step: (S, SseFrame) -> (S, Result<seq<StreamEvent>, GatewayError>),
    finish: S -> Result<seq<StreamEvent>, GatewayError>)

  /** What the relay needs of the request's context; `skipRetry` is the affinity decision's flag, if any. */
  datatype StreamContext = StreamContext(upstreamProtocol: Protocol, skipRetry: Option<bool>)

  // --------------------------------------------------------------- inspection

  /** What inspecting frames did: decoder state, events absorbed, and the error that stopped it. */
  datatype Seen<!S> = Seen(decoder: S, events: seq<StreamEvent>, error: Option<GatewayError>)

  function DecodeFailure(e: GatewayError): GatewayError {
    GatewayError(UpstreamError, "failed to decode upstream stream: " + e.message)
  }

  /** The events before the first error event. */
  function BeforeError(events: seq<StreamEvent>): seq<StreamEvent> {
    if events == [] || events[0].Error? then [] else [events[0]] + BeforeError(events[1..])
  }

  function FirstError(events: seq<StreamEvent>): Option<GatewayError> {
    if events == [] then None
    else if events[0].Error? then Some(GatewayError(UpstreamError, events[0].message))
    else FirstError(events[1..])
  }

  function InspectOne<S>(d: Decoder<S>, s: S, frame: SseFrame): Seen<S> {
    var (next, decoded) := d.step(s, frame);
    match decoded
    case Err(e) => Seen(next, [], Some(DecodeFailure(e)))
    case Ok(events) => Seen(next, BeforeError(events), FirstError(events))
  }

  function After<S>(first: Seen<S>, rest: Seen<S>): Seen<S> {
    Seen(rest.decoder, first.events + rest.events, rest.error)
  }

  function Inspect<S>(d: Decoder<S>, s: S, frames: seq<SseFrame>): Seen<S>
    decreases frames
  {
    if frames == [] then Seen(s, [], None)
    else
      var first := InspectOne(d, s, frames[0]);
      if first.error.Some? then first else After(first, Inspect(d, first.decoder, frames[1..]))
  }

  // --------------------------------------------------------------- relay loop

  datatype Progress<!S> = Progress(
    parser: ParserState,
    decoder: S,
    events: seq<StreamEvent>,
    forwarded: seq<Bytes>,
    streamError: Option<GatewayError>,
    clientClosed: bool)

  function Begin<S>(d: Decoder<S>): Progress<S> {
    Progress(NEW_PARSER, d.init, [], [], None, false)
  }

  function InspectChunk<S>(d: Decoder<S>, s: S, fed: Fed): Seen<S> {
    match fed.result
    case Err(e) => Seen(s, [], Some(e))
    case Ok(frames) => Inspect(d, s, frames)
  }

  function Watched<S>(d: Decoder<S>, at: Progress<S>, chunk: Bytes): Progress<S> {
    var fed := Feed(at.parser, chunk);
    var seen := InspectChunk(d, at.decoder, fed);
    at.(parser := fed.parser, decoder := seen.decoder, events := at.events + seen.events, streamError := seen.error)
  }

  /**
   The relay loop from `at` on. `client(k)` says whether the send after `k` successful ones
   succeeds. A failed send hides an inspection error of the same chunk.
   */
  function RelayLoop<S>(d: Decoder<S>, client: nat -> bool,
                        upstream: seq<Result<Bytes, GatewayError>>, at: Progress<S>): Progress<S>
    decreases upstream
  {
    if upstream == [] then at
    else
      match upstream[0]
      case Err(e) => at.(streamError := Some(e))
      case Ok(bytes) =>
        var next := Watched(d, at, bytes);
        if !client(|at.forwarded|) then next.(clientClosed := true, streamError := None)
        else if next.streamError.Some? then next.(forwarded := at.forwarded + [bytes])
        else RelayLoop(d, client, upstream[1..], next.(forwarded := at.forwarded + [bytes]))
  }

  predicate Healthy<S>(p: Progress<S>) {
    p.streamError.None? && !p.clientClosed
  }

  /** The parser's residue is flushed through the decoder. */
  function FlushParser<S>(d: Decoder<S>, at: Progress<S>): Progress<S> {
    if !Healthy(at) then at
    else
      var fed := Finish(at.parser);
      var seen := InspectChunk(d, at.decoder, fed);
      at.(parser := fed.parser, decoder := seen.decoder, events := at.events + seen.events, streamError := seen.error)
  }

  const MISSING_DONE := GatewayError(UpstreamError, "upstream stream ended without its protocol completion event")

  function CheckDone<S>(context: StreamContext, at: Progress<S>): Progress<S> {
    if Healthy(at) && context.upstreamProtocol != Gemini && Done !in at.events
    then at.(streamError := Some(MISSING_DONE)) else at
  }

  function FinishDecoder<S>(d: Decoder<S>, at: Progress<S>): Progress<S> {
    if !Healthy(at) then at
    else
      match d.finish(at.decoder)
      case Ok(events) => at.(events := at.events + events)
      case Err(e) => at.(streamError := Some(e))
  }

  // ---------------------------------------------------------------- settlement

  datatype HealthUpdate = NoUpdate | RecordFailure(kind: ErrorKind) | RecordSuccess

  predicate BlamesEndpoint(kind: ErrorKind) {
    || kind.Unauthenticated? || kind.PermissionDenied? || kind.RateLimited? || kind.UpstreamError?
    || kind.Timeout? || kind.Configuration? || kind.NotFound?
  }

  function HealthOf(error: Option<GatewayError>, clientClosed: bool): HealthUpdate {
    if clientClosed then NoUpdate
    else if error.None? then RecordSuccess
    else if BlamesEndpoint(error.value.kind) then RecordFailure(error.value.kind)
    else NoUpdate
  }

  function StatusOf(error: Option<GatewayError>, clientClosed: bool): nat {
    if error.Some? then error.value.kind.Status() else if clientClosed then 499 else 200
  }

  datatype Outcome = Outcome(
    forwarded: seq<Bytes>,
    streamError: Option<GatewayError>,
    clientClosed: bool,
    sawDone: bool,
    usage: Usage,
    billedTokens: nat,
    status: nat,
    health: HealthUpdate,
    unbind: bool)

  function Settle(context: StreamContext, forwarded: seq<Bytes>, error: Option<GatewayError>,
                  clientClosed: bool, sawDone: bool, usage: Usage): Outcome
  {
    var billed := BillingNormalized(usage, context.upstreamProtocol);
    Outcome(forwarded, error, clientClosed, sawDone, billed, billed.Total(),
            StatusOf(error, clientClosed), HealthOf(error, clientClosed),
            error.Some? && context.skipRetry == Some(false))
  }

  /** The run up to the point where only the decoder's closing events are missing. */
  function RunToEnd<S>(context: StreamContext, d: Decoder<S>, client: nat -> bool,
                       upstream: seq<Result<Bytes, GatewayError>>): Progress<S>
  {
    CheckDone(context, FlushParser(d, RelayLoop(d, client, upstream, Begin(d))))
  }

  function Relayed<S>(context: StreamContext, d: Decoder<S>, client: nat -> bool,
                      upstream: seq<Result<Bytes, GatewayError>>): Outcome
  {
    var run := RunToEnd(context, d, client, upstream);
    var end := FinishDecoder(d, run);
    Settle(context, end.forwarded, end.streamError, end.clientClosed, Done in run.events,
           AbsorbAll(NEW_AGGREGATE, end.events).usage)
  }

  // ------------------------------------------------------------------- program

  lemma AbsorbOneMore(a: Aggregate, x: seq<StreamEvent>, e: StreamEvent)
    ensures AbsorbAll(a, x + [e]) == Absorbed(AbsorbAll(a, x), e)
  {
    assert (x + [e])[..|x|] == x;
  }

  lemma {:induction false} AbsorbAllConcat(a: Aggregate, x: seq<StreamEvent>, y: seq<StreamEvent>)
    ensures AbsorbAll(a, x + y) == AbsorbAll(AbsorbAll(a, x), y)
    decreases |y|
  {
    if y == [] {
      EmptyConcat(x);
    } else {
      var front, e := y[..|y| - 1], y[|y| - 1];
      AbsorbAllConcat(a, x, front);
      AbsorbOneMore(a, x + front, e);
      LastOfConcat(x, y);
    }
  }

  lemma TakeOneMore<T>(x: seq<T>, y: seq<T>, i: nat)
    requires i < |y|
    ensures x + y[..i + 1] == x + y[..i] + [y[i]]
  {
  }

  lemma LastOfConcat<T>(x: seq<T>, y: seq<T>)
    requires y != []
    ensures x + y == x + y[..|y| - 1] + [y[|y| - 1]]
  {
  }

  /** Decodes frames into the aggregator until an error; reports the decoder state and a completion event. */
  method InspectNativeFrames<S>(d: Decoder<S>, s: S, frames: seq<SseFrame>, aggregator: StreamAggregator, done: bool)
    returns (decoder: S, sawDone: bool, error: Option<GatewayError>)
    modifies aggregator
    ensures var seen := Inspect(d, s, frames);
            && decoder == seen.decoder && error == seen.error
            && sawDone == (done || Done in seen.events)
            && aggregator.View() == AbsorbAll(old(aggregator.View()), seen.events)
  {
    decoder, sawDone := s, done;
    ghost var absorbed := [];
    ghost var before := aggregator.View();
    var i := 0;
    while i < |frames|
      invariant 0 <= i <= |frames|
      invariant After(Seen(decoder, absorbed, None), Inspect(d, decoder, frames[i..])) == Inspect(d, s, frames)
      invariant sawDone == (done || Done in absorbed)
      invariant aggregator.View() == AbsorbAll(before, absorbed)
    {
      var frame := frames[i];
      assert frames[i..][0] == frame && frames[i..][1..] == frames[i + 1..];
      ghost var one := InspectOne(d, decoder, frame);
      ghost var rest := Inspect(d, one.decoder, frames[i + 1..]);
      ConcatAssoc(absorbed, one.events, rest.events);
      var (next, decoded) := d.step(decoder, frame);
      decoder := next;
      if decoded.Err? {
        EmptyConcat(absorbed);
        return decoder, sawDone, Some(DecodeFailure(decoded.error));
      }
      ghost var start := absorbed;
      EmptyConcat(start);
      var j := 0;
      while j < |decoded.value|
        invariant 0 <= j <= |decoded.value|
        invariant absorbed + BeforeError(decoded.value[j..]) == start + one.events
        invariant FirstError(decoded.value[j..]) == one.error
        invariant sawDone == (done || Done in absorbed)
        invariant aggregator.View() == AbsorbAll(before, absorbed)
      {
        var event := decoded.value[j];
        ghost var later := BeforeError(decoded.value[j + 1..]);
        assert decoded.value[j..][0] == event && decoded.value[j..][1..] == decoded.value[j + 1..];
        if event.Error? {
          EmptyConcat(absorbed);
          return decoder, sawDone, Some(GatewayError(UpstreamError, event.message));
        }
        if event == Done {
          sawDone := true;
        }
        aggregator.Absorb(event);
        AbsorbOneMore(before, absorbed, event);
        ConcatAssoc(absorbed, [event], later);
        absorbed := absorbed + [event];
        j := j + 1;
      }
      EmptyConcat(absorbed);
      i := i + 1;
    }
    EmptyConcat(absorbed);
    error := None;
  }

  /** One chunk through the parser and, if it is well-formed, its frames through the decoder. */
  method InspectBytes<S>(d: Decoder<S>, s: S, ghost fed: Fed, frames: Result<seq<SseFrame>, GatewayError>,
                         aggregator: StreamAggregator, done: bool, ghost events: seq<StreamEvent>)
    returns (decoder: S, sawDone: bool, error: Option<GatewayError>)
    requires frames == fed.result
    requires done == (Done in events) && aggregator.View() == AbsorbAll(NEW_AGGREGATE, events)
    modifies aggregator
    ensures var seen := InspectChunk(d, s, fed);
            && decoder == seen.decoder && error == seen.error
            && sawDone == (Done in events + seen.events)
            && aggregator.View() == AbsorbAll(NEW_AGGREGATE, events + seen.events)
  {
    ghost var seen := InspectChunk(d, s, fed);
    AbsorbAllConcat(NEW_AGGREGATE, events, seen.events);
    if frames.Err? {
      EmptyConcat(events);
      return s, done, Some(frames.error);
    }
    decoder, sawDone, error := InspectNativeFrames(d, s, frames.value, aggregator, done);
  }

  /** The decoder's closing events, when it has any to give. */
  method CloseDecoder<S>(d: Decoder<S>, ghost run: Progress<S>, decoder: S, aggregator: StreamAggregator)
    returns (error: Option<GatewayError>)
    requires Healthy(run) && decoder == run.decoder && aggregator.View() == AbsorbAll(NEW_AGGREGATE, run.events)
    modifies aggregator
    ensures var end := FinishDecoder(d, run);
            && error == end.streamError && aggregator.View() == AbsorbAll(NEW_AGGREGATE, end.events)
  {
    var closing := d.finish(decoder);
    if closing.Err? {
      return Some(closing.error);
    }
    AbsorbEvents(closing.value, aggregator, run.events);
    error := None;
  }

  method AbsorbEvents(events: seq<StreamEvent>, aggregator: StreamAggregator, ghost before: seq<StreamEvent>)
    requires aggregator.View() == AbsorbAll(NEW_AGGREGATE, before)
    modifies aggregator
    ensures aggregator.View() == AbsorbAll(NEW_AGGREGATE, before + events)
  {
    EmptyConcat(before);
    var i := 0;
    while i < |events|
      invariant 0 <= i <= |events|
      invariant aggregator.View() == AbsorbAll(NEW_AGGREGATE, before + events[..i])
    {
      aggregator.Absorb(events[i]);
      AbsorbOneMore(NEW_AGGREGATE, before + events[..i], events[i]);
      TakeOneMore(before, events, i);
      i := i + 1;
    }
    assert events[..i] == events;
  }

  method RelayNativeStream<S>(context: StreamContext, d: Decoder<S>, client: nat -> bool,
                              upstream: seq<Result<Bytes, GatewayError>>) returns (o: Outcome)
    ensures o == Relayed(context, d, client, upstream)
  {
    var streamError: Option<GatewayError> := None;
    var clientClosed, sawDone := false, false;
    var parser := new SseParser();
    var decoder := d.init;
    var aggregator := new StreamAggregator();
    var forwarded := [];
    ghost var at := Begin(d);
    var i := 0;
    while i < |upstream|
      invariant 0 <= i <= |upstream|
      invariant RelayLoop(d, client, upstream, Begin(d))
             == if Healthy(at) then RelayLoop(d, client, upstream[i..], at) else at
      invariant at == Progress(parser.View(), decoder, at.events, forwarded, streamError, clientClosed)
      invariant sawDone == (Done in at.events)
      invariant aggregator.View() == AbsorbAll(NEW_AGGREGATE, at.events)
      invariant fresh(parser) && fresh(aggregator)
    {
      assert upstream[i..][0] == upstream[i] && upstream[i..][1..] == upstream[i + 1..];
      match upstream[i] {
        case Ok(bytes) =>
          ghost var next := Watched(d, at, bytes);
          var frames := parser.FeedBytes(bytes);
          var inspection;
          decoder, sawDone, inspection :=
            InspectBytes(d, decoder, Feed(at.parser, bytes), frames, aggregator, sawDone, at.events);
          if !client(|forwarded|) {
            clientClosed := true;
            at := next.(clientClosed := true, streamError := None);
            break;
          }
          forwarded := forwarded + [bytes];
          at := next.(forwarded := forwarded);
          if inspection.Some? {
            streamError := inspection;
            break;
          }
        case Err(e) =>
          streamError := Some(e);
          at := at.(streamError := Some(e));
          break;
      }
      i := i + 1;
    }
    assert at == RelayLoop(d, client, upstream, Begin(d));
    ghost var flushed := FlushParser(d, at);
    if streamError.None? && !clientClosed {
      var last := parser.FinishBytes();
      decoder, sawDone, streamError :=
        InspectBytes(d, decoder, Finish(at.parser), last, aggregator, sawDone, at.events);
    }
    if streamError.None? && !clientClosed && context.upstreamProtocol != Gemini && !sawDone {
      streamError := Some(MISSING_DONE);
    }
    ghost var run := CheckDone(context, flushed);
    assert run == Progress(parser.View(), decoder, run.events, forwarded, streamError, clientClosed);
    if streamError.None? && !clientClosed {
      streamError := CloseDecoder(d, run, decoder, aggregator);
    }
    o := Settle(context, forwarded, streamError, clientClosed, sawDone, aggregator.usage);
  }
}
