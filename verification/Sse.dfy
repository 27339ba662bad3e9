/**
 Server-sent event frames: rendering, and the incremental parser that accepts any TCP chunking.
 Follows the repository's parser, which keeps to sections 9.2.5 and 9.2.6 of the WHATWG HTML
 Living Standard except that a lone CR ends no line, a block with an event name but no data
 still yields a frame, and the end of the stream flushes a trailing frame.
 */
module Sse {
  import opened Wrappers
  import opened Core
  import opened Utf8

  datatype SseFrame = SseFrame(event: Option<Bytes>, data: Bytes)

  // The literals "event: ", "data: ", "event", "data" and "data:".
  const EVENT_PREFIX: Bytes := [101, 118, 101, 110, 116, 58, 32]
  const DATA_PREFIX: Bytes := [100, 97, 116, 97, 58, 32]
  const EVENT_FIELD: Bytes := [101, 118, 101, 110, 116]
  const DATA_FIELD: Bytes := [100, 97, 116, 97]
  const DATA_COLON: Bytes := [100, 97, 116, 97, 58]

  const INVALID_UTF8 := GatewayError(UpstreamError, "upstream SSE contains invalid UTF-8")

  /** Position of the first `b` in `s`; `|s|` when there is none. */
  function IndexOf(s: Bytes, b: Byte): (k: nat)
    ensures k <= |s|
    ensures b !in s[..k]
    ensures k < |s| ==> s[k] == b
    ensures k == |s| <==> b !in s
  {
    if s == [] then 0
    else if s[0] == b then 0
    else
      var k := 1 + IndexOf(s[1..], b);
      assert s[..k] == [s[0]] + s[1..][..k - 1];
      assert s == [s[0]] + s[1..];
      k
  }

  // ---------------------------------------------------------------- rendering

  lemma EmptyConcat<T>(s: seq<T>)
    ensures s + [] == s && [] + s == s
  {
  }

  lemma TailOfConcat<T>(a: seq<T>, b: seq<T>)
    requires a != []
    ensures (a + b)[0] == a[0] && (a + b)[1..] == a[1..] + b
  {
  }

  lemma ConcatAssoc<T>(a: seq<T>, b: seq<T>, c: seq<T>)
    ensures a + b + c == a + (b + c)
  {
  }

  /** `str::split('\n')`: the pieces between line feeds, at least one. */
  function SplitLines(s: Bytes): (pieces: seq<Bytes>)
    ensures pieces != []
  {
    var k := IndexOf(s, LF);
    if k == |s| then [s] else [s[..k]] + SplitLines(s[k + 1..])
  }

  /** `join("\n")`. */
  function JoinLines(pieces: seq<Bytes>): Bytes {
    if pieces == [] then []
    else if |pieces| == 1 then pieces[0]
    else pieces[0] + [LF] + JoinLines(pieces[1..])
  }

  function RenderEvent(event: Option<Bytes>): Bytes {
    match event
    case None => []
    case Some(name) => EVENT_PREFIX + name + [LF]
  }

  function RenderData(pieces: seq<Bytes>): Bytes {
    if pieces == [] then [] else DataLine(pieces[0]) + RenderData(pieces[1..])
  }

  /** The wire form of a frame, closing blank line included. */
  function Render(frame: SseFrame): Bytes {
    RenderEvent(frame.event) + RenderData(SplitLines(frame.data)) + [LF]
  }

  function RenderAll(frames: seq<SseFrame>): Bytes {
    if frames == [] then [] else Render(frames[0]) + RenderAll(frames[1..])
  }

  /** The gateway's own one-line renderer, which does not split multi-line data. */
  function SseBytes(frame: SseFrame): Bytes {
    RenderEvent(frame.event) + DATA_PREFIX + frame.data + [LF, LF]
  }

  /** The wire form of one data line. */
  function DataLine(piece: Bytes): Bytes {
    DATA_PREFIX + piece + [LF]
  }

  lemma {:induction false} RenderDataAppend(pieces: seq<Bytes>, last: Bytes)
    ensures RenderData(pieces + [last]) == RenderData(pieces) + DataLine(last)
  {
    if pieces == [] {
      EmptyConcat([last]);
      EmptyConcat(DataLine(last));
    } else {
      TailOfConcat(pieces, [last]);
      RenderDataAppend(pieces[1..], last);
      ConcatAssoc(DataLine(pieces[0]), RenderData(pieces[1..]), DataLine(last));
    }
  }

  /** Appends the wire form of `frame` to `out`, line by line. */
  method RenderInto(frame: SseFrame, out: Bytes) returns (r: Bytes)
    ensures r == out + Render(frame)
  {
    r := out;
    if frame.event.Some? {
      r := r + (EVENT_PREFIX + frame.event.value + [LF]);
    } else {
      EmptyConcat(out);
    }
    ghost var head := r;
    assert head == out + RenderEvent(frame.event);
    EmptyConcat(head);
    var pieces := SplitLines(frame.data);
    var i := 0;
    while i < |pieces|
      invariant 0 <= i <= |pieces|
      invariant r == head + RenderData(pieces[..i])
    {
      RenderDataNext(pieces, i);
      ConcatAssoc(head, RenderData(pieces[..i]), DataLine(pieces[i]));
      r := r + (DATA_PREFIX + pieces[i] + [LF]);
      i := i + 1;
    }
    r := r + [LF];
    assert pieces[..i] == pieces;
    RenderAppended(out, RenderEvent(frame.event), RenderData(pieces));
  }

  lemma RenderDataNext(pieces: seq<Bytes>, i: nat)
    requires i < |pieces|
    ensures RenderData(pieces[..i + 1]) == RenderData(pieces[..i]) + DataLine(pieces[i])
  {
    assert pieces[..i + 1] == pieces[..i] + [pieces[i]];
    RenderDataAppend(pieces[..i], pieces[i]);
  }

  lemma RenderAppended(out: Bytes, event: Bytes, data: Bytes)
    ensures out + event + data + [LF] == out + (event + data + [LF])
  {
  }

  // ------------------------------------------------------------------ parsing

  /** What the parser remembers between chunks. */
  datatype ParserState = ParserState(buffer: Bytes, event: Option<Bytes>, data: seq<Bytes>)

  const NEW_PARSER := ParserState([], None, [])

  function StripCr(line: Bytes): Bytes {
    if line != [] && line[|line| - 1] == CR then line[..|line| - 1] else line
  }

  /** Field name and value of a line: split at the first colon, one leading space dropped. */
  function ParseField(line: Bytes): (Bytes, Bytes) {
    var k := IndexOf(line, COLON);
    if k == |line| then (line, [])
    else
      var v := line[k + 1..];
      (line[..k], if v != [] && v[0] == SPACE then v[1..] else v)
  }

  /** The effect of a complete non-empty line on the pending frame. */
  function TakeLine(p: ParserState, line: Bytes): ParserState
    requires line != []
  {
    if line[0] == COLON then p
    else
      var (field, value) := ParseField(line);
      if field == EVENT_FIELD then p.(event := Some(value))
      else if field == DATA_FIELD then p.(data := p.data + [value])
      else p
  }

  /** The pending frame, if it has an event name or a data line. */
  function Pending(p: ParserState): seq<SseFrame> {
    if p.data == [] && p.event.None? then [] else [SseFrame(p.event, JoinLines(p.data))]
  }

  function FlushState(p: ParserState): ParserState {
    p.(event := None, data := [])
  }

  /** The effect of any complete line: a blank one closes the pending frame. */
  function AfterLine(p: ParserState, line: Bytes): ParserState {
    if line == [] then FlushState(p) else TakeLine(p, line)
  }

  function FramesAt(p: ParserState, line: Bytes): seq<SseFrame> {
    if line == [] then Pending(p) else []
  }

  /** The first complete line of the buffer; `k` is the position of its line feed. */
  function LineAt(buffer: Bytes, k: nat): Bytes
    requires k < |buffer|
  {
    StripCr(buffer[..k])
  }

  function DropLine(p: ParserState, k: nat): ParserState
    requires k < |p.buffer|
  {
    p.(buffer := p.buffer[k + 1..])
  }

  datatype Fed = Fed(parser: ParserState, result: Result<seq<SseFrame>, GatewayError>)

  function Prepend(frames: seq<SseFrame>, rest: Fed): Fed {
    match rest.result
    case Ok(more) => Fed(rest.parser, Ok(frames + more))
    case Err(_) => rest
  }

  lemma PrependNothing(rest: Fed)
    ensures Prepend([], rest) == rest
  {
    if rest.result.Ok? {
      assert [] + rest.result.value == rest.result.value;
    }
  }

  lemma PrependTwice(a: seq<SseFrame>, b: seq<SseFrame>, rest: Fed)
    ensures Prepend(a, Prepend(b, rest)) == Prepend(a + b, rest)
  {
    if rest.result.Ok? {
      assert a + (b + rest.result.value) == a + b + rest.result.value;
    }
  }

  /** Consumes every complete line of the buffer, up to the first one that is not UTF-8. */
  function Drain(p: ParserState): (r: Fed)
    ensures r.result.Ok? ==> LF !in r.parser.buffer
    decreases |p.buffer|
  {
    var k := IndexOf(p.buffer, LF);
    if k == |p.buffer| then Fed(p, Ok([]))
    else
      var line := LineAt(p.buffer, k);
      var q := DropLine(p, k);
      if !IsUtf8(line) then Fed(q, Err(INVALID_UTF8))
      else Prepend(FramesAt(q, line), Drain(AfterLine(q, line)))
  }

  function Feed(p: ParserState, chunk: Bytes): Fed {
    Drain(p.(buffer := p.buffer + chunk))
  }

  /** Whether `c` is the encoding of a character that Unicode calls white space. */
  predicate IsWhitespaceChar(c: Bytes) {
    || (|c| == 1 && (9 <= c[0] <= 13 || c[0] == SPACE))
    || (|c| == 2 && c[0] == 0xC2 && (c[1] == 0x85 || c[1] == 0xA0))
    || (|c| == 3 && c[0] == 0xE1 && c[1] == 0x9A && c[2] == 0x80)
    || (|c| == 3 && c[0] == 0xE2 && c[1] == 0x80
        && (0x80 <= c[2] <= 0x8A || c[2] == 0xA8 || c[2] == 0xA9 || c[2] == 0xAF))
    || (|c| == 3 && c[0] == 0xE2 && c[1] == 0x81 && c[2] == 0x9F)
    || (|c| == 3 && c[0] == 0xE3 && c[1] == 0x80 && c[2] == 0x80)
  }

  predicate StartsInSpace(s: Bytes, k: nat) {
    k <= |s| && IsWhitespaceChar(s[..k])
  }

  predicate EndsInSpace(s: Bytes, k: nat) {
    k <= |s| && IsWhitespaceChar(s[|s| - k..])
  }

  /** Length of the white space character that starts `s`; 0 when none does. */
  function LeadingSpace(s: Bytes): (w: nat)
    ensures w <= |s|
  {
    if StartsInSpace(s, 1) then 1
    else if StartsInSpace(s, 2) then 2
    else if StartsInSpace(s, 3) then 3
    else 0
  }

  /** Length of the white space character that ends `s`; 0 when none does. */
  function TrailingSpace(s: Bytes): (w: nat)
    ensures w <= |s|
  {
    if EndsInSpace(s, 1) then 1
    else if EndsInSpace(s, 2) then 2
    else if EndsInSpace(s, 3) then 3
    else 0
  }

  function TrimStart(s: Bytes): Bytes {
    if LeadingSpace(s) == 0 then s else TrimStart(s[LeadingSpace(s)..])
  }

  function TrimEnd(s: Bytes): Bytes {
    if TrailingSpace(s) == 0 then s else TrimEnd(s[..|s| - TrailingSpace(s)])
  }

  function Trim(s: Bytes): Bytes {
    TrimEnd(TrimStart(s))
  }

  /** End of stream: a residual `data:` line joins the pending frame, which is flushed. */
  function Finish(p: ParserState): Fed {
    var q := p.(buffer := []);
    if p.buffer == [] then Fed(FlushState(q), Ok(Pending(q)))
    else if !IsUtf8(p.buffer) then Fed(q, Err(INVALID_UTF8))
    else
      var trimmed := Trim(p.buffer);
      var r := if DATA_COLON <= trimmed then q.(data := q.data + [TrimStart(trimmed[|DATA_COLON|..])]) else q;
      Fed(FlushState(r), Ok(Pending(r)))
  }

  /** The incremental parser; its three fields are the ones of the source. */
  class SseParser {
    var buffer: Bytes
    var event: Option<Bytes>
    var data: seq<Bytes>

    function View(): ParserState
      reads this
    {
      ParserState(buffer, event, data)
    }

    constructor ()
      ensures View() == NEW_PARSER
    {
      buffer := [];
      event := None;
      data := [];
    }

    method FeedBytes(chunk: Bytes) returns (result: Result<seq<SseFrame>, GatewayError>)
      modifies this
      ensures Fed(View(), result) == Feed(old(View()), chunk)
    {
      buffer := buffer + chunk;
      var frames := [];
      PrependNothing(Drain(View()));
      while true
        invariant Prepend(frames, Drain(View())) == Feed(old(View()), chunk)
        decreases |buffer|
      {
        ghost var before := View();
        var pos := IndexOf(buffer, LF);
        if pos == |buffer| {
          assert frames + [] == frames;
          return Ok(frames);
        }
        var line := StripCr(buffer[..pos]);
        buffer := buffer[pos + 1..];
        assert View() == DropLine(before, pos) && line == LineAt(before.buffer, pos);
        if !IsUtf8(line) {
          return Err(INVALID_UTF8);
        }
        PrependTwice(frames, FramesAt(View(), line), Drain(AfterLine(View(), line)));
        if line == [] {
          var flushed := Flush();
          frames := frames + flushed;
          continue;
        }
        assert frames + [] == frames;
        if line[0] == COLON {
          continue;
        }
        var (field, value) := ParseField(line);
        if field == EVENT_FIELD {
          event := Some(value);
        } else if field == DATA_FIELD {
          data := data + [value];
        }
      }
    }

    method FinishBytes() returns (result: Result<seq<SseFrame>, GatewayError>)
      modifies this
      ensures Fed(View(), result) == Finish(old(View()))
    {
      if buffer != [] {
        var rest := buffer;
        buffer := [];
        if !IsUtf8(rest) {
          return Err(INVALID_UTF8);
        }
        var trimmed := Trim(rest);
        if DATA_COLON <= trimmed {
          data := data + [TrimStart(trimmed[|DATA_COLON|..])];
        }
      }
      var flushed := Flush();
      return Ok(flushed);
    }

    /** Takes the pending frame out of the parser: no frame or one. */
    method Flush() returns (frames: seq<SseFrame>)
      modifies this
      ensures frames == Pending(old(View())) && View() == FlushState(old(View()))
    {
      if data == [] && event.None? {
        return [];
      }
      frames := [SseFrame(event, JoinLines(data))];
      data := [];
      event := None;
    }
  }
}
