/**
 Folding a free-form stream of unified events into content blocks and usage.
 Blocks are filed by index and kind, because upstreams reuse one index for several kinds.
 */
module Aggregator {
  import opened Wrappers
  import opened Utf8
  import opened Sse
  import opened Ir

  datatype PartKind = TextKind | ThinkingKind | ToolUseKind | RefusalKind

  datatype StopReason =
    | Stopped | MaxTokens | StopSequence | ToolUseStop | ContentFilter | RefusalStop | PauseTurn | Other

  datatype StreamEvent =
    | Start(id: Bytes, model: Bytes, usage: Option<Usage>)
    | ContentStart(index: nat, kind: PartKind)
    | TextDelta(index: nat, text: Bytes)
    | ThinkingDelta(index: nat, text: Bytes)
    | ThinkingSignature(index: nat, sig: Bytes)
    | RefusalDelta(index: nat, text: Bytes)
    | ToolCallStart(index: nat, id: Bytes, name: Bytes, signature: Option<Bytes>)
    | ToolCallArgsDelta(index: nat, fragment: Bytes)
    | ContentStop(index: nat)
    | UsageReport(report: Usage)
    | Stop(reason: StopReason, stopSequence: Option<Bytes>)
    | Done
    | Error(message: string, errorKind: string)
    | Ping

  datatype BlockAccum =
    | Text(buf: Bytes)
    | Thinking(text: Bytes, signature: Option<Bytes>)
    | ToolUse(id: Bytes, name: Bytes, args: Bytes, toolSignature: Option<Bytes>)
    | Refusal(buf: Bytes)
  {
    function Kind(): PartKind {
      match this
      case Text(_) => TextKind
      case Thinking(_, _) => ThinkingKind
      case ToolUse(_, _, _, _) => ToolUseKind
      case Refusal(_) => RefusalKind
    }
  }

  datatype Block = Block(index: nat, accum: BlockAccum) {
    function Key(): BlockKey {
      BlockKey(index, accum.Kind())
    }
  }

  datatype BlockKey = BlockKey(index: nat, kind: PartKind)

  function Fresh(kind: PartKind): (b: BlockAccum)
    ensures b.Kind() == kind
  {
    match kind
    case TextKind => Text([])
    case ThinkingKind => Thinking([], None)
    case ToolUseKind => ToolUse([], [], [], None)
    case RefusalKind => Refusal([])
  }

  /** The block an event opens or adds to. */
  function Touches(e: StreamEvent): Option<BlockKey> {
    match e
    case ContentStart(index, kind) => Some(BlockKey(index, kind))
    case TextDelta(index, _) => Some(BlockKey(index, TextKind))
    case ThinkingDelta(index, _) => Some(BlockKey(index, ThinkingKind))
    case ThinkingSignature(index, _) => Some(BlockKey(index, ThinkingKind))
    case RefusalDelta(index, _) => Some(BlockKey(index, RefusalKind))
    case ToolCallStart(index, _, _, _) => Some(BlockKey(index, ToolUseKind))
    case ToolCallArgsDelta(index, _) => Some(BlockKey(index, ToolUseKind))
    case _ => None
  }

  /** The block of that kind after the event's own contribution. */
  function Grow(b: BlockAccum, e: StreamEvent): (r: BlockAccum)
    requires Touches(e).Some? && Touches(e).value.kind == b.Kind()
    ensures r.Kind() == b.Kind()
  {
    match e
    case TextDelta(_, text) => b.(buf := b.buf + text)
    case ThinkingDelta(_, text) => b.(text := b.text + text)
    case ThinkingSignature(_, sig) => b.(signature := Some(sig))
    case RefusalDelta(_, text) => b.(buf := b.buf + text)
    case ToolCallStart(_, id, name, signature) =>
      b.(id := if id != [] then id else b.id,
         name := if name != [] then name else b.name,
         toolSignature := if signature.Some? then signature else b.toolSignature)
    case ToolCallArgsDelta(_, fragment) => b.(args := b.args + fragment)
    case _ => b
  }

  /** Position of the block filed under `key`; `|blocks|` when there is none. */
  function Find(blocks: seq<Block>, key: BlockKey): (k: nat)
    ensures k <= |blocks|
    ensures forall i :: 0 <= i < k ==> blocks[i].Key() != key
    ensures k < |blocks| ==> blocks[k].Key() == key
  {
    if blocks == [] || blocks[0].Key() == key then 0 else 1 + Find(blocks[1..], key)
  }

  function Ensured(blocks: seq<Block>, key: BlockKey): (r: seq<Block>)
    ensures Find(blocks, key) < |r| && r[Find(blocks, key)].Key() == key
  {
    if Find(blocks, key) < |blocks| then blocks else blocks + [Block(key.index, Fresh(key.kind))]
  }

  function GrowBlocks(blocks: seq<Block>, key: BlockKey, e: StreamEvent): seq<Block>
    requires Touches(e) == Some(key)
  {
    var k := Find(blocks, key);
    var all := Ensured(blocks, key);
    all[k := Block(key.index, Grow(all[k].accum, e))]
  }

  /** The aggregator's fields. */
  datatype Aggregate = Aggregate(
    id: Bytes,
    model: Bytes,
    stopReason: Option<StopReason>,
    stopSequence: Option<Bytes>,
    usage: Usage,
    blocks: seq<Block>)

  const NEW_AGGREGATE := Aggregate([], [], None, None, NO_USAGE, [])

  /** The whole state after one more event. */
  function Absorbed(a: Aggregate, e: StreamEvent): Aggregate {
    if Touches(e).Some? then a.(blocks := GrowBlocks(a.blocks, Touches(e).value, e))
    else
      match e
      case Start(id, model, usage) =>
        a.(id := id, model := model, usage := if usage.Some? then MergeMax(a.usage, usage.value) else a.usage)
      case UsageReport(report) => a.(usage := MergeMax(a.usage, report))
      case Stop(reason, sequence) =>
        a.(stopReason := Some(reason), stopSequence := if sequence.Some? then sequence else a.stopSequence)
      case _ => a
  }

  /** All events absorbed, one after the other. */
  function AbsorbAll(a: Aggregate, events: seq<StreamEvent>): Aggregate {
    if events == [] then a
    else Absorbed(AbsorbAll(a, events[..|events| - 1]), events[|events| - 1])
  }

  /** The aggregator of the source, updated in place. */
  class StreamAggregator {
    var id: Bytes
    var model: Bytes
    var stopReason: Option<StopReason>
    var stopSequence: Option<Bytes>
    var usage: Usage
    var blocks: seq<Block>

    function View(): Aggregate
      reads this
    {
      Aggregate(id, model, stopReason, stopSequence, usage, blocks)
    }

    constructor ()
      ensures View() == NEW_AGGREGATE
    {
      id, model := [], [];
      stopReason, stopSequence := None, None;
      usage := NO_USAGE;
      blocks := [];
    }

    method Absorb(event: StreamEvent)
      modifies this
      ensures View() == Absorbed(old(View()), event)
    {
      match event {
        case Start(newId, newModel, first) =>
          id := newId;
          model := newModel;
          if first.Some? {
            usage := MergeMax(usage, first.value);
          }
        case ContentStart(index, kind) =>
          SetBlock(index, kind);
        case TextDelta(index, text) =>
          var pos := Ensure(index, TextKind);
          var b := blocks[pos].accum;
          blocks := blocks[pos := Block(index, b.(buf := b.buf + text))];
        case ThinkingDelta(index, text) =>
          var pos := Ensure(index, ThinkingKind);
          var b := blocks[pos].accum;
          blocks := blocks[pos := Block(index, b.(text := b.text + text))];
        case ThinkingSignature(index, sig) =>
          var pos := Ensure(index, ThinkingKind);
          blocks := blocks[pos := Block(index, blocks[pos].accum.(signature := Some(sig)))];
        case RefusalDelta(index, text) =>
          var pos := Ensure(index, RefusalKind);
          var b := blocks[pos].accum;
          blocks := blocks[pos := Block(index, b.(buf := b.buf + text))];
        case ToolCallStart(index, callId, name, signature) =>
          var pos := Ensure(index, ToolUseKind);
          var b := blocks[pos].accum;
          if callId != [] {
            b := b.(id := callId);
          }
          if name != [] {
            b := b.(name := name);
          }
          if signature.Some? {
            b := b.(toolSignature := signature);
          }
          blocks := blocks[pos := Block(index, b)];
        case ToolCallArgsDelta(index, fragment) =>
          var pos := Ensure(index, ToolUseKind);
          var b := blocks[pos].accum;
          blocks := blocks[pos := Block(index, b.(args := b.args + fragment))];
        case UsageReport(report) =>
          usage := MergeMax(usage, report);
        case Stop(reason, sequence) =>
          stopReason := Some(reason);
          if sequence.Some? {
            stopSequence := sequence;
          }
        case _ =>
      }
    }

    /** Opens a block unless it is open: a repeated start must not wipe what has arrived. */
    method SetBlock(index: nat, kind: PartKind)
      modifies this`blocks
      ensures blocks == Ensured(old(blocks), BlockKey(index, kind))
    {
      if Find(blocks, BlockKey(index, kind)) == |blocks| {
        blocks := blocks + [Block(index, Fresh(kind))];
      }
    }

    /** Position of the block, opened on the spot when the upstream skipped its start. */
    method Ensure(index: nat, kind: PartKind) returns (pos: nat)
      modifies this`blocks
      ensures blocks == Ensured(old(blocks), BlockKey(index, kind))
      ensures pos == Find(old(blocks), BlockKey(index, kind)) < |blocks|
    {
      pos := Find(blocks, BlockKey(index, kind));
      if pos == |blocks| {
        blocks := blocks + [Block(index, Fresh(kind))];
      }
    }
  }

  // ------------------------------------------------------------------ content

  /** `serde_json` is not part of the model: non-blank arguments are kept as they were received. */
  datatype ToolInput = EmptyObject | FromArgs(args: Bytes)

  datatype ContentPart =
    | TextPart(text: Bytes)
    | ThinkingPart(text: Bytes, signature: Option<Bytes>)
    | ToolUsePart(id: Bytes, name: Bytes, input: ToolInput, signature: Option<Bytes>)
    | RefusalPart(text: Bytes)

  /** What a block contributes to the content: nothing when it stayed empty. */
  function PartOf(b: BlockAccum): seq<ContentPart> {
    match b
    case Text(text) => if text == [] then [] else [TextPart(text)]
    case Thinking(text, signature) => if text == [] && signature.None? then [] else [ThinkingPart(text, signature)]
    case ToolUse(id, name, args, signature) =>
      [ToolUsePart(id, name, if Trim(args) == [] then EmptyObject else FromArgs(args), signature)]
    case Refusal(text) => if text == [] then [] else [RefusalPart(text)]
  }

  function PartsOf(blocks: seq<Block>): seq<ContentPart> {
    if blocks == [] then [] else PartOf(blocks[0].accum) + PartsOf(blocks[1..])
  }

  /** Puts `b` before the first block of a larger index. */
  function InsertByIndex(blocks: seq<Block>, b: Block): seq<Block> {
    if blocks == [] || b.index < blocks[0].index then [b] + blocks
    else [blocks[0]] + InsertByIndex(blocks[1..], b)
  }

  /** `sort_by_key` on the index. */
  function SortByIndex(blocks: seq<Block>): seq<Block> {
    if blocks == [] then []
    else InsertByIndex(SortByIndex(blocks[..|blocks| - 1]), blocks[|blocks| - 1])
  }

  function IntoContent(a: Aggregate): seq<ContentPart> {
    PartsOf(SortByIndex(a.blocks))
  }
}
