/**
 What the incremental parser guarantees: it does not see chunk boundaries, it agrees with a
 whole-stream reading by lines and blocks, and it undoes the renderer exactly when it can.
 */
module SseProofs {
  import opened Wrappers
  import opened Core
  import opened Utf8
  import opened Sse

  // --------------------------------------------------------- chunk invariance

  function Concat(chunks: seq<Bytes>): Bytes {
    if chunks == [] then [] else chunks[0] + Concat(chunks[1..])
  }

  /** A caller that feeds chunk after chunk and stops at the first error. */
  function FeedAll(p: ParserState, chunks: seq<Bytes>): Fed
    decreases chunks
  {
    if chunks == [] then Fed(p, Ok([]))
    else
      var first := Feed(p, chunks[0]);
      match first.result
      case Err(_) => first
      case Ok(frames) => Prepend(frames, FeedAll(first.parser, chunks[1..]))
  }

  function Extend(p: ParserState, tail: Bytes): ParserState {
    p.(buffer := p.buffer + tail)
  }

  lemma {:induction false} IndexOfIs(s: Bytes, b: Byte, k: nat)
    requires k < |s| && s[k] == b && forall i :: 0 <= i < k ==> s[i] != b
    ensures IndexOf(s, b) == k
  {
    if k > 0 {
      IndexOfIs(s[1..], b, k - 1);
    }
  }

  lemma IndexOfPrefix(a: Bytes, b: Byte, tail: Bytes)
    requires b in a
    ensures IndexOf(a + tail, b) == IndexOf(a, b)
  {
    var k := IndexOf(a, b);
    assert forall i :: 0 <= i < k ==> a[i] == a[..k][i];
    IndexOfIs(a + tail, b, k);
  }

  lemma AfterLineExtends(p: ParserState, line: Bytes, tail: Bytes)
    ensures AfterLine(Extend(p, tail), line) == Extend(AfterLine(p, line), tail)
    ensures FramesAt(Extend(p, tail), line) == FramesAt(p, line)
    ensures AfterLine(p, line).buffer == p.buffer
  {
  }

  /** One turn of the parser's loop. */
  lemma DrainOne(p: ParserState, k: nat)
    requires k == IndexOf(p.buffer, LF) < |p.buffer|
    ensures var line := LineAt(p.buffer, k);
            var q := DropLine(p, k);
            Drain(p) == if IsUtf8(line) then Prepend(FramesAt(q, line), Drain(AfterLine(q, line)))
                        else Fed(q, Err(INVALID_UTF8))
  {
  }

  lemma FirstLineExtends(p: ParserState, k: nat, tail: Bytes)
    requires k == IndexOf(p.buffer, LF) < |p.buffer|
    ensures IndexOf(Extend(p, tail).buffer, LF) == k
    ensures LineAt(Extend(p, tail).buffer, k) == LineAt(p.buffer, k)
    ensures DropLine(Extend(p, tail), k) == Extend(DropLine(p, k), tail)
  {
    IndexOfPrefix(p.buffer, LF, tail);
    assert (p.buffer + tail)[..k] == p.buffer[..k];
    assert (p.buffer + tail)[k + 1..] == p.buffer[k + 1..] + tail;
  }

  /** Draining a longer buffer is draining its front, then what is left with the rest behind it. */
  lemma {:induction false} DrainExtend(p: ParserState, tail: Bytes)
    ensures match Drain(p).result
            case Ok(frames) => Drain(Extend(p, tail)) == Prepend(frames, Drain(Extend(Drain(p).parser, tail)))
            case Err(e) => Drain(Extend(p, tail)).result == Err(e)
    decreases |p.buffer|
  {
    var k := IndexOf(p.buffer, LF);
    if k == |p.buffer| {
      PrependNothing(Drain(Extend(p, tail)));
    } else {
      FirstLineExtends(p, k, tail);
      var line, q := LineAt(p.buffer, k), DropLine(p, k);
      DrainOne(p, k);
      DrainOne(Extend(p, tail), k);
      if IsUtf8(line) {
        AfterLineExtends(q, line, tail);
        var next := AfterLine(q, line);
        DrainExtend(next, tail);
        if Drain(next).result.Ok? {
          PrependTwice(FramesAt(q, line), Drain(next).result.value, Drain(Extend(Drain(next).parser, tail)));
        }
      }
    }
  }

  lemma FeedSplit(p: ParserState, a: Bytes, b: Bytes)
    ensures match Feed(p, a).result
            case Ok(frames) => Feed(p, a + b) == Prepend(frames, Feed(Feed(p, a).parser, b))
            case Err(e) => Feed(p, a + b).result == Err(e)
  {
    ConcatAssoc(p.buffer, a, b);
    assert Extend(Extend(p, a), b) == Extend(p, a + b);
    DrainExtend(Extend(p, a), b);
  }

  /**
   Any partition of a byte stream gives the frames, and leaves the parser state, of the stream fed
   whole; and it meets an error exactly when the whole does.
   */
  lemma {:induction false} ChunkInvariance(p: ParserState, chunks: seq<Bytes>)
    requires LF !in p.buffer
    ensures var whole := Feed(p, Concat(chunks));
            if whole.result.Ok? then FeedAll(p, chunks) == whole else FeedAll(p, chunks).result == whole.result
    decreases chunks
  {
    if chunks == [] {
      assert p.buffer + [] == p.buffer;
    } else {
      FeedSplit(p, chunks[0], Concat(chunks[1..]));
      if Feed(p, chunks[0]).result.Ok? {
        ChunkInvariance(Feed(p, chunks[0]).parser, chunks[1..]);
      }
    }
  }

  // ------------------------------------------------------------------ field lines

  /** The bytes of an ASCII text. */
  function Ascii(text: string): Bytes
    requires forall i :: 0 <= i < |text| ==> text[i] as int < 128
  {
    seq(|text|, i requires 0 <= i < |text| => (assert text[i] as int < 128; text[i] as int))
  }

  /** The literals of the wire format. */
  lemma LiteralsSpell()
    ensures EVENT_PREFIX == Ascii("event: ") && DATA_PREFIX == Ascii("data: ")
    ensures EVENT_FIELD == Ascii("event") && DATA_FIELD == Ascii("data") && DATA_COLON == Ascii("data:")
    ensures [LF, CR, SPACE, COLON] == Ascii("\n\r :")
  {
  }

  /** How a line is read: up to its first colon the name, after it the value, less one leading space. */
  lemma FieldMeans(name: Bytes, value: Bytes)
    requires COLON !in name
    ensures ParseField(name) == (name, [])
    ensures ParseField(name + [COLON] + value)
         == (name, if value != [] && value[0] == SPACE then value[1..] else value)
    ensures ParseField(name + [COLON] + [SPACE] + value) == (name, value)
  {
    var short, long := name + [COLON] + value, name + [COLON] + [SPACE] + value;
    IndexOfIs(short, COLON, |name|);
    IndexOfIs(long, COLON, |name|);
    assert short[..|name|] == name && short[|name| + 1..] == value;
    assert long[..|name|] == name && long[|name| + 1..] == [SPACE] + value;
  }

  // --------------------------------------------- reference reading of a stream

  /** The complete lines of a byte stream, each without its LF or CRLF. */
  function CompleteLines(s: Bytes): seq<Bytes> {
    var k := IndexOf(s, LF);
    if k == |s| then [] else [StripCr(s[..k])] + CompleteLines(s[k + 1..])
  }

  /** What follows the last line feed. */
  function Remainder(s: Bytes): Bytes {
    var k := IndexOf(s, LF);
    if k == |s| then s else Remainder(s[k + 1..])
  }

  predicate NamesField(line: Bytes, field: Bytes) {
    line != [] && line[0] != COLON && ParseField(line).0 == field
  }

  /** The value of the last `event` line of a block. */
  function LastEvent(block: seq<Bytes>): Option<Bytes> {
    if block == [] then None
    else
      var line := block[|block| - 1];
      if NamesField(line, EVENT_FIELD) then Some(ParseField(line).1) else LastEvent(block[..|block| - 1])
  }

  /** The values of the `data` lines of a block, in order. */
  function DataValues(block: seq<Bytes>): seq<Bytes> {
    if block == [] then []
    else
      var line := block[|block| - 1];
      DataValues(block[..|block| - 1]) + (if NamesField(line, DATA_FIELD) then [ParseField(line).1] else [])
  }

  function FrameOf(block: seq<Bytes>): seq<SseFrame> {
    if LastEvent(block).None? && DataValues(block) == [] then []
    else [SseFrame(LastEvent(block), JoinLines(DataValues(block)))]
  }

  function FirstBlank(lines: seq<Bytes>): (k: nat)
    ensures k <= |lines|
    ensures forall i :: 0 <= i < k ==> lines[i] != []
    ensures k < |lines| ==> lines[k] == []
  {
    if lines == [] || lines[0] == [] then 0 else 1 + FirstBlank(lines[1..])
  }

  /** The frames of the blocks that a blank line closes. */
  function BlockFrames(lines: seq<Bytes>): seq<SseFrame> {
    var k := FirstBlank(lines);
    if k == |lines| then [] else FrameOf(lines[..k]) + BlockFrames(lines[k + 1..])
  }

  /** The lines after the last blank one. */
  function OpenBlock(lines: seq<Bytes>): seq<Bytes> {
    var k := FirstBlank(lines);
    if k == |lines| then lines else OpenBlock(lines[k + 1..])
  }

  predicate AllUtf8(lines: seq<Bytes>) {
    forall i :: 0 <= i < |lines| ==> IsUtf8(lines[i])
  }

  function StateOf(buffer: Bytes, block: seq<Bytes>): ParserState {
    ParserState(buffer, LastEvent(block), DataValues(block))
  }

  lemma FirstBlankIs(lines: seq<Bytes>, k: nat)
    requires k <= |lines| && (forall i :: 0 <= i < k ==> lines[i] != [])
    requires k == |lines| || lines[k] == []
    ensures FirstBlank(lines) == k
  {
  }

  /** Reading one more line of a block. */
  lemma TakeMeetsReference(rest: Bytes, block: seq<Bytes>, line: Bytes)
    requires line != []
    ensures TakeLine(StateOf(rest, block), line) == StateOf(rest, block + [line])
  {
    var longer := block + [line];
    assert longer[..|longer| - 1] == block;
    assert DataValues(block) + [] == DataValues(block);
  }

  /** A blank line closes the block before it. */
  lemma BlankMeetsReference(block: seq<Bytes>, more: seq<Bytes>)
    requires forall i :: 0 <= i < |block| ==> block[i] != []
    ensures BlockFrames(block + [[]] + more) == FrameOf(block) + BlockFrames(more)
    ensures OpenBlock(block + [[]] + more) == OpenBlock(more)
  {
    var lines := block + [[]] + more;
    FirstBlankIs(lines, |block|);
    assert lines[..|block|] == block && lines[|block| + 1..] == more;
  }

  lemma NoBlankMeetsReference(block: seq<Bytes>)
    requires forall i :: 0 <= i < |block| ==> block[i] != []
    ensures BlockFrames(block) == [] && OpenBlock(block) == block
  {
    FirstBlankIs(block, |block|);
  }

  /** What a reader of complete `lines` makes of them; `ok` says that they are UTF-8. */
  function Reading(ok: bool, remainder: Bytes, lines: seq<Bytes>): Fed {
    if ok then Fed(StateOf(remainder, OpenBlock(lines)), Ok(BlockFrames(lines)))
    else Fed(NEW_PARSER, Err(INVALID_UTF8))
  }

  /** What a reader of the whole stream `s` makes of it, when the lines `block` came before. */
  function Reference(s: Bytes, block: seq<Bytes>): Fed {
    Reading(AllUtf8(CompleteLines(s)), Remainder(s), block + CompleteLines(s))
  }

  lemma ReadingBlank(ok: bool, remainder: Bytes, block: seq<Bytes>, more: seq<Bytes>)
    requires forall i :: 0 <= i < |block| ==> block[i] != []
    ensures Reading(ok, remainder, block + ([[]] + more))
         == Prepend(FrameOf(block), Reading(ok, remainder, [] + more))
  {
    ConcatAssoc(block, [[]], more);
    EmptyConcat(more);
    if ok {
      BlankMeetsReference(block, more);
    }
  }

  lemma FirstLine(s: Bytes, k: nat)
    requires k == IndexOf(s, LF) < |s|
    ensures CompleteLines(s) == [LineAt(s, k)] + CompleteLines(s[k + 1..])
    ensures Remainder(s) == Remainder(s[k + 1..])
    ensures AllUtf8(CompleteLines(s)) <==> IsUtf8(LineAt(s, k)) && AllUtf8(CompleteLines(s[k + 1..]))
  {
    var lines := CompleteLines(s);
    assert lines[0] == LineAt(s, k) && lines[1..] == CompleteLines(s[k + 1..]);
    if IsUtf8(lines[0]) {
      AllUtf8Cons(lines);
    }
  }

  /** The open block after one more line. */
  function NextBlock(block: seq<Bytes>, line: Bytes): seq<Bytes> {
    if line == [] then [] else block + [line]
  }

  /** The frames that one more line closes. */
  function ClosedBy(block: seq<Bytes>, line: Bytes): seq<SseFrame> {
    if line == [] then FrameOf(block) else []
  }

  lemma ReferenceStep(s: Bytes, block: seq<Bytes>, k: nat)
    requires forall i :: 0 <= i < |block| ==> block[i] != []
    requires k == IndexOf(s, LF) < |s| && IsUtf8(LineAt(s, k))
    ensures var line := LineAt(s, k);
            Reference(s, block) == Prepend(ClosedBy(block, line), Reference(s[k + 1..], NextBlock(block, line)))
  {
    var line, more := LineAt(s, k), CompleteLines(s[k + 1..]);
    FirstLine(s, k);
    if line == [] {
      ReadingBlank(AllUtf8(more), Remainder(s), block, more);
    } else {
      ConcatAssoc(block, [line], more);
      PrependNothing(Reference(s[k + 1..], block + [line]));
    }
  }

  lemma DrainStep(s: Bytes, block: seq<Bytes>, k: nat)
    requires k == IndexOf(s, LF) < |s| && IsUtf8(LineAt(s, k))
    ensures var line := LineAt(s, k);
            Drain(StateOf(s, block))
              == Prepend(ClosedBy(block, line), Drain(StateOf(s[k + 1..], NextBlock(block, line))))
  {
    var line, rest := LineAt(s, k), s[k + 1..];
    DrainOne(StateOf(s, block), k);
    assert DropLine(StateOf(s, block), k) == StateOf(rest, block);
    LineMeetsReference(rest, block, line);
  }

  lemma LineMeetsReference(rest: Bytes, block: seq<Bytes>, line: Bytes)
    ensures FramesAt(StateOf(rest, block), line) == ClosedBy(block, line)
    ensures AfterLine(StateOf(rest, block), line) == StateOf(rest, NextBlock(block, line))
  {
    if line != [] {
      TakeMeetsReference(rest, block, line);
    }
  }

  lemma ReferenceEnd(s: Bytes, block: seq<Bytes>)
    requires forall i :: 0 <= i < |block| ==> block[i] != []
    requires LF !in s
    ensures Reference(s, block) == Fed(StateOf(s, block), Ok([]))
  {
    EmptyConcat(block);
    NoBlankMeetsReference(block);
  }

  lemma ReferenceError(s: Bytes, block: seq<Bytes>, k: nat)
    requires k == IndexOf(s, LF) < |s| && !IsUtf8(LineAt(s, k))
    ensures Reference(s, block).result == Err(INVALID_UTF8)
  {
    FirstLine(s, k);
  }

  /** The same frames and what stays in the parser, or the same error. */
  predicate Meets(fed: Fed, reference: Fed) {
    fed.result == reference.result && (reference.result.Ok? ==> fed.parser == reference.parser)
  }

  lemma PrependMeets(frames: seq<SseFrame>, fed: Fed, reference: Fed)
    requires Meets(fed, reference)
    ensures Meets(Prepend(frames, fed), Prepend(frames, reference))
  {
  }

  /** The incremental parser, resumed inside a block, against the reading of the whole stream. */
  lemma {:induction false} DrainMeetsReference(s: Bytes, block: seq<Bytes>)
    requires forall i :: 0 <= i < |block| ==> block[i] != []
    ensures Meets(Drain(StateOf(s, block)), Reference(s, block))
    decreases |s|
  {
    var k := IndexOf(s, LF);
    if k == |s| {
      ReferenceEnd(s, block);
    } else {
      var line, rest := LineAt(s, k), s[k + 1..];
      if IsUtf8(line) {
        DrainMeetsReference(rest, NextBlock(block, line));
        DrainStep(s, block, k);
        ReferenceStep(s, block, k);
        PrependMeets(ClosedBy(block, line), Drain(StateOf(rest, NextBlock(block, line))),
                     Reference(rest, NextBlock(block, line)));
      } else {
        DrainOne(StateOf(s, block), k);
        ReferenceError(s, block, k);
      }
    }
  }

  lemma AllUtf8Cons(lines: seq<Bytes>)
    requires lines != [] && IsUtf8(lines[0])
    ensures AllUtf8(lines) <==> AllUtf8(lines[1..])
  {
    if AllUtf8(lines[1..]) {
      forall i | 0 <= i < |lines|
        ensures IsUtf8(lines[i])
      {
        if i > 0 {
          assert lines[i] == lines[1..][i - 1];
        }
      }
    }
  }

  /**
   For every byte stream and every chunking of it: an error is met exactly when some complete line
   is not UTF-8; otherwise the frames are those of the closed blocks, and what stays in the parser
   is the unterminated line and the fields of the open block.
   */
  lemma ParserMeetsReference(chunks: seq<Bytes>)
    ensures var lines := CompleteLines(Concat(chunks));
            var fed := FeedAll(NEW_PARSER, chunks);
            if AllUtf8(lines)
            then fed == Fed(StateOf(Remainder(Concat(chunks)), OpenBlock(lines)), Ok(BlockFrames(lines)))
            else fed.result == Err(INVALID_UTF8)
  {
    var s := Concat(chunks);
    ChunkInvariance(NEW_PARSER, chunks);
    DrainMeetsReference(s, []);
    assert Concat(chunks) == [] + s && StateOf(s, []) == NEW_PARSER.(buffer := [] + s);
    assert [] + CompleteLines(s) == CompleteLines(s);
  }

  // ------------------------------------------------- where a stream closes its frames

  /** Lines that pend a frame: an event name or a data line. */
  predicate OpensFrame(line: Bytes) {
    NamesField(line, EVENT_FIELD) || NamesField(line, DATA_FIELD)
  }

  /** Some blank line comes after a line with an event name or data. */
  predicate ClosesFrame(lines: seq<Bytes>) {
    exists i, j :: 0 <= i < j < |lines| && OpensFrame(lines[i]) && lines[j] == []
  }

  predicate OpensNone(block: seq<Bytes>) {
    forall i :: 0 <= i < |block| ==> !OpensFrame(block[i])
  }

  lemma OpensNoneStep(block: seq<Bytes>)
    requires block != []
    ensures OpensNone(block) <==> OpensNone(block[..|block| - 1]) && !OpensFrame(block[|block| - 1])
  {
    var front := block[..|block| - 1];
    assert forall i :: 0 <= i < |front| ==> front[i] == block[i];
    if OpensNone(front) && !OpensFrame(block[|block| - 1]) {
      forall i | 0 <= i < |block|
        ensures !OpensFrame(block[i])
      {
        assert i < |front| ==> !OpensFrame(front[i]);
      }
    }
  }

  lemma FrameOfOneMore(block: seq<Bytes>)
    requires block != []
    ensures FrameOf(block) == [] <==> FrameOf(block[..|block| - 1]) == [] && !OpensFrame(block[|block| - 1])
  {
  }

  lemma {:induction false} FrameOfIsEmpty(block: seq<Bytes>)
    ensures FrameOf(block) == [] <==> OpensNone(block)
  {
    if block != [] {
      FrameOfIsEmpty(block[..|block| - 1]);
      FrameOfOneMore(block);
      OpensNoneStep(block);
    }
  }

  lemma BlockFramesStep(lines: seq<Bytes>, k: nat)
    requires k == FirstBlank(lines) < |lines|
    ensures BlockFrames(lines) == [] <==> FrameOf(lines[..k]) == [] && BlockFrames(lines[k + 1..]) == []
  {
  }

  /** A stream yields no frame exactly when no blank line follows an event name or data. */
  lemma {:induction false} NoFrameIfNoneClosed(lines: seq<Bytes>)
    ensures BlockFrames(lines) == [] <==> !ClosesFrame(lines)
    decreases |lines|
  {
    var k := FirstBlank(lines);
    if k < |lines| {
      NoFrameIfNoneClosed(lines[k + 1..]);
      FrameOfIsEmpty(lines[..k]);
      BlockFramesStep(lines, k);
      ClosesFrameStep(lines, k);
    } else {
      NoBlankMeetsReference(lines);
    }
  }

  lemma ClosesFrameStep(lines: seq<Bytes>, k: nat)
    requires k < |lines| && lines[k] == [] && forall i :: 0 <= i < k ==> lines[i] != []
    ensures ClosesFrame(lines)
       <==> ClosesFrame(lines[k + 1..]) || !OpensNone(lines[..k])
  {
    var block, more := lines[..k], lines[k + 1..];
    if i, j :| 0 <= i < j < |more| && OpensFrame(more[i]) && more[j] == [] {
      assert lines[k + 1 + i] == more[i] && lines[k + 1 + j] == more[j];
    }
    if i :| 0 <= i < k && OpensFrame(block[i]) {
      assert lines[i] == block[i];
    }
    if i, j :| 0 <= i < j < |lines| && OpensFrame(lines[i]) && lines[j] == [] {
      if i < k {
        assert block[i] == lines[i];
      } else {
        assert more[i - k - 1] == lines[i] && more[j - k - 1] == lines[j];
      }
    }
  }

  /** The lines of a stream that starts with `line`. */
  lemma LinesAfterLine(line: Bytes, more: Bytes)
    requires LF !in line
    ensures CompleteLines(line + [LF] + more) == [StripCr(line)] + CompleteLines(more)
  {
    var s := line + [LF] + more;
    IndexOfIs(s, LF, |line|);
    assert s[..|line|] == line && s[|line| + 1..] == more;
  }

  lemma RemainderAfterLine(line: Bytes, more: Bytes)
    requires LF !in line
    ensures Remainder(line + [LF] + more) == Remainder(more)
  {
    var s := line + [LF] + more;
    IndexOfIs(s, LF, |line|);
    assert s[|line| + 1..] == more;
  }

  lemma StripCrMeans(line: Bytes)
    ensures StripCr(line + [CR]) == line
    ensures line == [] || line[|line| - 1] != CR ==> StripCr(line) == line
  {
    assert (line + [CR])[..|line|] == line;
  }

  /** Where lines end: at a line feed, and one CR before it belongs to the line end. */
  lemma LinesMean(line: Bytes, more: Bytes)
    requires LF !in line
    ensures CompleteLines(line + [CR] + [LF] + more) == [line] + CompleteLines(more)
    ensures line == [] || line[|line| - 1] != CR ==> CompleteLines(line + [LF] + more) == [line] + CompleteLines(more)
    ensures CompleteLines(line) == [] && Remainder(line) == line && Remainder(line + [LF] + more) == Remainder(more)
  {
    StripCrMeans(line);
    LinesAfterLine(line + [CR], more);
    LinesAfterLine(line, more);
    RemainderAfterLine(line, more);
  }

  /** The complete lines of a prefix are the first of the whole. */
  lemma {:induction false} LinesOfPrefix(a: Bytes, b: Bytes)
    ensures CompleteLines(a) <= CompleteLines(a + b)
    decreases |a|
  {
    var k := IndexOf(a, LF);
    if k < |a| {
      var line, more := a[..k], a[k + 1..];
      CutAt(a, k);
      ConcatAssoc(line + [LF], more, b);
      LinesOfPrefix(more, b);
      LinesAfterLine(line, more);
      LinesAfterLine(line, more + b);
    }
  }

  lemma TakeAfterFirst<T>(first: T, others: seq<T>, n: nat)
    requires 0 < n <= |others| + 1
    ensures ([first] + others)[..n] == [first] + others[..n - 1]
  {
  }

  lemma CutLater(line: Bytes, more: Bytes, b: Bytes, n: nat)
    requires LF !in line && 0 < n <= |CompleteLines(more + b)| + 1
    requires CompleteLines(more) == CompleteLines(more + b)[..n - 1]
    ensures var s := line + [LF] + (more + b);
            && s == line + [LF] + more + b
            && n <= |CompleteLines(s)| && CompleteLines(line + [LF] + more) == CompleteLines(s)[..n]
  {
    ConcatAssoc(line + [LF], more, b);
    LinesAfterLine(line, more);
    LinesAfterLine(line, more + b);
    TakeAfterFirst(StripCr(line), CompleteLines(more + b), n);
  }

  /** A stream can be cut after any number of its complete lines. */
  lemma {:induction false} CutAfterLines(s: Bytes, n: nat) returns (a: Bytes, b: Bytes)
    requires n <= |CompleteLines(s)|
    ensures s == a + b && CompleteLines(a) == CompleteLines(s)[..n]
    decreases n
  {
    if n == 0 {
      a, b := [], s;
    } else {
      var k := IndexOf(s, LF);
      var line, rest := s[..k], s[k + 1..];
      CutAt(s, k);
      LinesAfterLine(line, rest);
      var more;
      more, b := CutAfterLines(rest, n - 1);
      CutLater(line, more, b, n);
      a := line + [LF] + more;
    }
  }

  /** Position of the first line that is not UTF-8; `|lines|` when there is none. */
  function FirstBad(lines: seq<Bytes>): (n: nat)
    ensures n <= |lines| && AllUtf8(lines[..n])
    ensures n < |lines| ==> !IsUtf8(lines[n])
  {
    if lines == [] || !IsUtf8(lines[0]) then 0
    else
      var n := 1 + FirstBad(lines[1..]);
      assert lines[..n][1..] == lines[1..][..n - 1];
      AllUtf8Cons(lines[..n]);
      n
  }

  // --------------------------------------------------- printing, then parsing

  /** What the wire format can carry: no line feed in the name, no CR where one would be dropped. */
  predicate Renderable(frame: SseFrame) {
    && (frame.event.Some? ==> LF !in frame.event.value && !EndsWithCr(frame.event.value))
    && forall i :: 0 <= i < |SplitLines(frame.data)| ==> !EndsWithCr(SplitLines(frame.data)[i])
  }

  predicate EndsWithCr(s: Bytes) {
    s != [] && s[|s| - 1] == CR
  }

  /** Both strings of a frame are Rust `String`s, hence UTF-8. */
  predicate WellTyped(frame: SseFrame) {
    IsUtf8(frame.data) && (frame.event.Some? ==> IsUtf8(frame.event.value))
  }

  predicate EventHasNoLf(frame: SseFrame) {
    frame.event.Some? ==> LF !in frame.event.value
  }

  function StripAll(pieces: seq<Bytes>): seq<Bytes> {
    seq(|pieces|, i requires 0 <= i < |pieces| => StripCr(pieces[i]))
  }

  /** The frame that comes back: one CR is lost at the end of the name and of every data line. */
  function Stripped(frame: SseFrame): SseFrame {
    SseFrame(if frame.event.Some? then Some(StripCr(frame.event.value)) else None,
             JoinLines(StripAll(SplitLines(frame.data))))
  }

  function StrippedAll(frames: seq<SseFrame>): seq<SseFrame> {
    if frames == [] then [] else [Stripped(frames[0])] + StrippedAll(frames[1..])
  }

  lemma JoinFirst(first: Bytes, others: seq<Bytes>)
    requires others != []
    ensures JoinLines([first] + others) == first + [LF] + JoinLines(others)
  {
    assert ([first] + others)[1..] == others;
  }

  lemma {:induction false} JoinSplit(s: Bytes)
    ensures JoinLines(SplitLines(s)) == s
    decreases |s|
  {
    var k := IndexOf(s, LF);
    if k < |s| {
      var rest := s[k + 1..];
      JoinSplit(rest);
      JoinFirst(s[..k], SplitLines(rest));
      CutAt(s, k);
    }
  }

  lemma CutAt(s: Bytes, k: nat)
    requires k < |s|
    ensures s == s[..k] + [s[k]] + s[k + 1..]
  {
  }

  lemma {:induction false} SplitHasNoLf(s: Bytes)
    ensures forall i :: 0 <= i < |SplitLines(s)| ==> LF !in SplitLines(s)[i]
    decreases |s|
  {
    var k := IndexOf(s, LF);
    if k < |s| {
      SplitHasNoLf(s[k + 1..]);
      assert SplitLines(s)[1..] == SplitLines(s[k + 1..]);
    }
  }

  lemma {:induction false} SplitUtf8(s: Bytes)
    requires IsUtf8(s)
    ensures AllUtf8(SplitLines(s))
    decreases |s|
  {
    var k := IndexOf(s, LF);
    if k < |s| {
      CutAt(s, k);
      Utf8CutAtAscii(s[..k], LF, s[k + 1..]);
      SplitUtf8(s[k + 1..]);
    }
  }

  lemma StripCrUtf8(s: Bytes)
    requires IsUtf8(s)
    ensures IsUtf8(StripCr(s))
  {
    if EndsWithCr(s) {
      var t := s[..|s| - 1];
      assert s == t + [CR] + [];
      Utf8CutAtAscii(t, CR, []);
    }
  }

  lemma PrefixesAreUtf8()
    ensures IsUtf8(EVENT_PREFIX) && IsUtf8(DATA_PREFIX)
  {
    AsciiIsUtf8(EVENT_PREFIX);
    AsciiIsUtf8(DATA_PREFIX);
  }

  lemma {:induction false} AsciiIsUtf8(s: Bytes)
    requires forall i :: 0 <= i < |s| ==> s[i] < 0x80
    ensures IsUtf8(s)
  {
    if s != [] {
      AsciiIsUtf8(s[1..]);
    }
  }

  lemma StripCrOfConcat(prefix: Bytes, value: Bytes)
    requires !EndsWithCr(prefix)
    ensures StripCr(prefix + value) == prefix + StripCr(value)
  {
    EmptyConcat(prefix);
  }

  lemma PrefixedLineIsUtf8(prefix: Bytes, value: Bytes)
    requires IsUtf8(prefix) && !EndsWithCr(prefix) && IsUtf8(value)
    ensures StripCr(prefix + value) == prefix + StripCr(value) && IsUtf8(prefix + StripCr(value))
  {
    StripCrOfConcat(prefix, value);
    StripCrUtf8(value);
    Utf8Concat(prefix, StripCr(value));
  }

  /** One line of the wire form, `prefix` + `value`, read by the parser. */
  lemma DrainPrefixedLine(p: ParserState, prefix: Bytes, value: Bytes, rest: Bytes)
    requires prefix == EVENT_PREFIX || prefix == DATA_PREFIX
    requires p.buffer == prefix + value + [LF] + rest
    requires LF !in value && IsUtf8(value)
    ensures var q := p.(buffer := rest);
            Drain(p) == Drain(if prefix == EVENT_PREFIX then q.(event := Some(StripCr(value)))
                              else q.(data := q.data + [StripCr(value)]))
  {
    var k := |prefix + value|;
    IndexOfIs(p.buffer, LF, k);
    assert p.buffer[..k] == prefix + value && p.buffer[k + 1..] == rest;
    PrefixesAreUtf8();
    PrefixedLineIsUtf8(prefix, value);
    DrainOne(p, k);
    PrefixedAfterLine(p.(buffer := rest), prefix, StripCr(value));
    PrependNothing(Drain(AfterLine(p.(buffer := rest), prefix + StripCr(value))));
  }

  lemma PrefixedAfterLine(q: ParserState, prefix: Bytes, value: Bytes)
    requires prefix == EVENT_PREFIX || prefix == DATA_PREFIX
    ensures FramesAt(q, prefix + value) == []
    ensures AfterLine(q, prefix + value) == if prefix == EVENT_PREFIX then q.(event := Some(value))
                                            else q.(data := q.data + [value])
  {
    ParsePrefixed(prefix, value);
  }

  lemma ParsePrefixed(prefix: Bytes, value: Bytes)
    requires prefix == EVENT_PREFIX || prefix == DATA_PREFIX
    ensures ParseField(prefix + value) == (if prefix == EVENT_PREFIX then EVENT_FIELD else DATA_FIELD, value)
  {
    var field := if prefix == EVENT_PREFIX then EVENT_FIELD else DATA_FIELD;
    var line := prefix + value;
    assert line == field + [COLON] + ([SPACE] + value);
    assert COLON !in field;
    IndexOfIs(line, COLON, |field|);
    assert line[|field| + 1..] == [SPACE] + value;
    assert line[..|field|] == field;
  }

  lemma StripAllFirst(pieces: seq<Bytes>)
    requires pieces != []
    ensures StripAll(pieces) == [StripCr(pieces[0])] + StripAll(pieces[1..])
  {
  }

  lemma RenderDataFirst(pieces: seq<Bytes>, rest: Bytes)
    requires pieces != []
    ensures RenderData(pieces) + rest == DATA_PREFIX + pieces[0] + [LF] + (RenderData(pieces[1..]) + rest)
  {
  }

  lemma {:induction false} DrainDataLines(p: ParserState, pieces: seq<Bytes>, rest: Bytes)
    requires p.buffer == RenderData(pieces) + rest
    requires AllUtf8(pieces) && forall i :: 0 <= i < |pieces| ==> LF !in pieces[i]
    ensures Drain(p) == Drain(ParserState(rest, p.event, p.data + StripAll(pieces)))
    decreases pieces
  {
    if pieces == [] {
      assert p.data + StripAll(pieces) == p.data;
      assert p.buffer == rest;
    } else {
      var first, others := pieces[0], pieces[1..];
      var tail := RenderData(others) + rest;
      RenderDataFirst(pieces, rest);
      DrainPrefixedLine(p, DATA_PREFIX, first, tail);
      var q := ParserState(tail, p.event, p.data + [StripCr(first)]);
      assert AllUtf8(others) && forall i :: 0 <= i < |others| ==> LF !in others[i];
      DrainDataLines(q, others, rest);
      StripAllFirst(pieces);
      ConcatAssoc(p.data, [StripCr(first)], StripAll(others));
    }
  }

  /** The field lines of a frame, read by a fresh parser. */
  lemma DrainFields(frame: SseFrame, rest: Bytes)
    requires WellTyped(frame) && EventHasNoLf(frame)
    ensures Drain(NEW_PARSER.(buffer := RenderEvent(frame.event) + (RenderData(SplitLines(frame.data)) + rest)))
         == Drain(ParserState(rest, Stripped(frame).event, StripAll(SplitLines(frame.data))))
  {
    var pieces := SplitLines(frame.data);
    var body := RenderData(pieces) + rest;
    var p := NEW_PARSER.(buffer := RenderEvent(frame.event) + body);
    if frame.event.Some? {
      DrainPrefixedLine(p, EVENT_PREFIX, frame.event.value, body);
    } else {
      EmptyConcat(body);
    }
    SplitHasNoLf(frame.data);
    SplitUtf8(frame.data);
    DrainDataLines(ParserState(body, Stripped(frame).event, []), pieces, rest);
    EmptyConcat(StripAll(pieces));
  }

  lemma DrainRendered(frame: SseFrame, rest: Bytes)
    requires WellTyped(frame) && EventHasNoLf(frame)
    ensures Drain(NEW_PARSER.(buffer := Render(frame) + rest))
         == Prepend([Stripped(frame)], Drain(NEW_PARSER.(buffer := rest)))
  {
    var pieces := SplitLines(frame.data);
    DrainFields(frame, [LF] + rest);
    ConcatAssoc(RenderEvent(frame.event) + RenderData(pieces), [LF], rest);
    ConcatAssoc(RenderEvent(frame.event), RenderData(pieces), [LF] + rest);
    var last := ParserState([LF] + rest, Stripped(frame).event, StripAll(pieces));
    IndexOfIs(last.buffer, LF, 0);
    assert last.buffer[..0] == [] && last.buffer[1..] == rest;
    DrainOne(last, 0);
  }

  lemma {:induction false} DrainRenderedAll(frames: seq<SseFrame>)
    requires forall f :: f in frames ==> WellTyped(f) && EventHasNoLf(f)
    ensures Drain(NEW_PARSER.(buffer := RenderAll(frames))) == Fed(NEW_PARSER, Ok(StrippedAll(frames)))
  {
    if frames != [] {
      DrainRendered(frames[0], RenderAll(frames[1..]));
      DrainRenderedAll(frames[1..]);
    }
  }

  lemma {:induction false} StripShortens(pieces: seq<Bytes>)
    ensures |JoinLines(StripAll(pieces))| <= |JoinLines(pieces)|
    ensures JoinLines(StripAll(pieces)) == JoinLines(pieces)
       <==> forall i :: 0 <= i < |pieces| ==> !EndsWithCr(pieces[i])
  {
    var stripped := StripAll(pieces);
    if |pieces| > 1 {
      StripShortens(pieces[1..]);
      assert stripped[1..] == StripAll(pieces[1..]);
      assert forall i :: 0 < i < |pieces| ==> pieces[i] == pieces[1..][i - 1];
      if !EndsWithCr(pieces[0]) {
        if JoinLines(stripped) == JoinLines(pieces) {
          var n := |pieces[0]| + 1;
          assert JoinLines(stripped)[n..] == JoinLines(stripped[1..]);
          assert JoinLines(pieces)[n..] == JoinLines(pieces[1..]);
        }
      }
    }
  }

  lemma StrippedIsSame(frame: SseFrame)
    requires EventHasNoLf(frame)
    ensures Stripped(frame) == frame <==> Renderable(frame)
  {
    JoinSplit(frame.data);
    StripShortens(SplitLines(frame.data));
  }

  lemma {:induction false} StrippedAllIsSame(frames: seq<SseFrame>)
    requires forall f :: f in frames ==> EventHasNoLf(f)
    ensures StrippedAll(frames) == frames <==> forall f :: f in frames ==> Renderable(f)
  {
    if frames != [] {
      StrippedIsSame(frames[0]);
      StrippedAllIsSame(frames[1..]);
      assert frames == [frames[0]] + frames[1..];
      assert StrippedAll(frames)[1..] == StrippedAll(frames[1..]);
    }
  }

  /** Neither a frame nor the pending event has a line feed in the event name. */
  predicate EventsHaveNoLf(fed: Fed) {
    fed.result.Ok? ==>
      EventHasNoLf(SseFrame(fed.parser.event, [])) && forall f :: f in fed.result.value ==> EventHasNoLf(f)
  }

  lemma LineHasNoLf(q: ParserState, line: Bytes)
    requires EventHasNoLf(SseFrame(q.event, [])) && LF !in line
    ensures EventHasNoLf(SseFrame(AfterLine(q, line).event, []))
    ensures forall f :: f in FramesAt(q, line) ==> EventHasNoLf(f)
  {
    if line != [] {
      assert LF !in ParseField(line).1;
    }
  }

  lemma PrependHasNoLf(frames: seq<SseFrame>, rest: Fed)
    requires EventsHaveNoLf(rest) && forall f :: f in frames ==> EventHasNoLf(f)
    ensures EventsHaveNoLf(Prepend(frames, rest))
  {
  }

  /** Neither a frame that the parser produces nor its pending one has a line feed in the event name. */
  lemma {:induction false} ParsedEventsHaveNoLf(p: ParserState)
    requires EventHasNoLf(SseFrame(p.event, []))
    ensures EventsHaveNoLf(Drain(p))
    decreases |p.buffer|
  {
    var k := IndexOf(p.buffer, LF);
    if k < |p.buffer| {
      var line, q := LineAt(p.buffer, k), DropLine(p, k);
      DrainOne(p, k);
      if IsUtf8(line) {
        LineHasNoLf(q, line);
        ParsedEventsHaveNoLf(AfterLine(q, line));
        PrependHasNoLf(FramesAt(q, line), Drain(AfterLine(q, line)));
      }
    }
  }

  /** A frame that lacks only its closing blank line when the stream ends comes back exactly if it is renderable. */
  lemma FinishKeepsTrailingFrame(frame: SseFrame)
    requires WellTyped(frame)
    ensures var fed := Feed(NEW_PARSER, Render(frame)[..|Render(frame)| - 1]);
            fed.result == Ok([]) && Finish(fed.parser) == Fed(NEW_PARSER, Ok([frame])) <==> Renderable(frame)
  {
    var pieces := SplitLines(frame.data);
    var cut := Render(frame)[..|Render(frame)| - 1];
    assert cut == RenderEvent(frame.event) + RenderData(pieces);
    EmptyConcat(RenderData(pieces));
    EmptyConcat(cut);
    if EventHasNoLf(frame) {
      DrainFields(frame, []);
      StrippedIsSame(frame);
    } else {
      ParsedEventsHaveNoLf(NEW_PARSER.(buffer := cut));
      FinishKeepsEvent(Feed(NEW_PARSER, cut).parser);
    }
  }

  /** The end of the stream leaves the pending event name as it is. */
  lemma FinishKeepsEvent(p: ParserState)
    ensures Finish(p).result.Ok? ==> forall f :: f in Finish(p).result.value ==> f.event == p.event
  {
  }

  /**
   A list of frames, rendered and fed in any chunking, comes back as that very list with nothing
   left in the parser, exactly when every frame is renderable.
   */
  lemma RoundTrip(frames: seq<SseFrame>, chunks: seq<Bytes>)
    requires forall f :: f in frames ==> WellTyped(f)
    requires Concat(chunks) == RenderAll(frames)
    ensures FeedAll(NEW_PARSER, chunks) == Fed(NEW_PARSER, Ok(frames))
       <==> forall f :: f in frames ==> Renderable(f)
  {
    ChunkInvariance(NEW_PARSER, chunks);
    var wire := NEW_PARSER.(buffer := RenderAll(frames));
    assert [] + RenderAll(frames) == RenderAll(frames);
    if forall f :: f in frames ==> EventHasNoLf(f) {
      DrainRenderedAll(frames);
      StrippedAllIsSame(frames);
    } else {
      ParsedEventsHaveNoLf(wire);
    }
  }

  lemma {:induction false} SplitWithLf(s: Bytes)
    ensures LF !in s ==> SplitLines(s) == [s]
    ensures LF in s ==> |RenderData(SplitLines(s))| > |DATA_PREFIX + s + [LF]|
    decreases |s|
  {
    var k := IndexOf(s, LF);
    if k < |s| {
      var rest := s[k + 1..];
      SplitWithLf(rest);
      assert SplitLines(s)[1..] == SplitLines(rest);
      EmptyConcat(DataLine(rest));
    }
  }

  /** The gateway's one-line renderer agrees with the full one exactly on data without line feeds. */
  lemma SseBytesIsRender(frame: SseFrame)
    ensures SseBytes(frame) == Render(frame) <==> LF !in frame.data
  {
    SplitWithLf(frame.data);
    if LF !in frame.data {
      EmptyConcat(DataLine(frame.data));
      assert [LF, LF] == [LF] + [LF];
    }
  }
}
