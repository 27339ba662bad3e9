/**
 What the aggregator promises about a whole stream, stated on the events alone: every block is
 the in-order concatenation of exactly its own deltas, usage is the maximum of the reports, and
 the content is the stable ordering of the blocks by index.
 */
module AggregatorProofs {
  import opened Wrappers
  import opened Utf8
  import opened Sse
  import opened Ir
  import opened Aggregator

  /** An event that starts or adds to the block of a kind at an index. */
  predicate IsFor(e: StreamEvent, key: BlockKey) {
    || e == ContentStart(key.index, key.kind)
    || match key.kind
       case TextKind => e.TextDelta? && e.index == key.index
       case ThinkingKind => (e.ThinkingDelta? || e.ThinkingSignature?) && e.index == key.index
       case ToolUseKind => (e.ToolCallStart? || e.ToolCallArgsDelta?) && e.index == key.index
       case RefusalKind => e.RefusalDelta? && e.index == key.index
  }

  lemma TouchesMeans(e: StreamEvent, key: BlockKey)
    ensures Touches(e) == Some(key) <==> IsFor(e, key)
  {
  }

  /** The keys that events touch, by first appearance. */
  function FirstKeys(events: seq<StreamEvent>): seq<BlockKey> {
    if events == [] then []
    else
      var keys := FirstKeys(events[..|events| - 1]);
      match Touches(events[|events| - 1])
      case Some(key) => if key in keys then keys else keys + [key]
      case None => keys
  }

  function DeltaOf(e: StreamEvent): Bytes {
    match e
    case TextDelta(_, text) => text
    case ThinkingDelta(_, text) => text
    case RefusalDelta(_, text) => text
    case ToolCallArgsDelta(_, fragment) => fragment
    case _ => []
  }

  /** The deltas for `key`, concatenated in order. */
  function Deltas(events: seq<StreamEvent>, key: BlockKey): Bytes {
    if events == [] then []
    else
      var e := events[|events| - 1];
      Deltas(events[..|events| - 1], key) + (if IsFor(e, key) then DeltaOf(e) else [])
  }

  function SignatureOf(e: StreamEvent): Option<Bytes> {
    match e
    case ThinkingSignature(_, sig) => Some(sig)
    case ToolCallStart(_, _, _, signature) => signature
    case _ => None
  }

  function CallIdOf(e: StreamEvent): Option<Bytes> {
    if e.ToolCallStart? && e.id != [] then Some(e.id) else None
  }

  function CallNameOf(e: StreamEvent): Option<Bytes> {
    if e.ToolCallStart? && e.name != [] then Some(e.name) else None
  }

  /** The last value that `pick` finds in an event. */
  function Last<V>(events: seq<StreamEvent>, pick: StreamEvent -> Option<V>): Option<V> {
    if events == [] then None
    else
      var found := pick(events[|events| - 1]);
      if found.Some? then found else Last(events[..|events| - 1], pick)
  }

  function For(key: BlockKey, pick: StreamEvent -> Option<Bytes>): StreamEvent -> Option<Bytes> {
    e => if IsFor(e, key) then pick(e) else None
  }

  function OrEmpty(v: Option<Bytes>): Bytes {
    if v.Some? then v.value else []
  }

  /** What a block must hold, read off the events that touch it. */
  function BlockOf(events: seq<StreamEvent>, key: BlockKey): (b: BlockAccum)
    ensures b.Kind() == key.kind
  {
    match key.kind
    case TextKind => Text(Deltas(events, key))
    case ThinkingKind => Thinking(Deltas(events, key), Last(events, For(key, SignatureOf)))
    case ToolUseKind =>
      ToolUse(OrEmpty(Last(events, For(key, CallIdOf))), OrEmpty(Last(events, For(key, CallNameOf))),
              Deltas(events, key), Last(events, For(key, SignatureOf)))
    case RefusalKind => Refusal(Deltas(events, key))
  }

  function BlocksOf(events: seq<StreamEvent>, keys: seq<BlockKey>): seq<Block> {
    seq(|keys|, i requires 0 <= i < |keys| => Block(keys[i].index, BlockOf(events, keys[i])))
  }

  function UsageOf(e: StreamEvent): seq<Usage> {
    match e
    case Start(_, _, usage) => if usage.Some? then [usage.value] else []
    case UsageReport(report) => [report]
    case _ => []
  }

  /** All usage reports of a stream, in order. */
  function Reports(events: seq<StreamEvent>): seq<Usage> {
    if events == [] then []
    else Reports(events[..|events| - 1]) + UsageOf(events[|events| - 1])
  }

  function IdOf(e: StreamEvent): Option<Bytes> {
    if e.Start? then Some(e.id) else None
  }

  function ModelOf(e: StreamEvent): Option<Bytes> {
    if e.Start? then Some(e.model) else None
  }

  function ReasonOf(e: StreamEvent): Option<StopReason> {
    if e.Stop? then Some(e.reason) else None
  }

  function SequenceOf(e: StreamEvent): Option<Bytes> {
    if e.Stop? then e.stopSequence else None
  }

  /** `events` is `front` with one more event. */
  predicate Extends(events: seq<StreamEvent>, front: seq<StreamEvent>, e: StreamEvent) {
    events != [] && events[..|events| - 1] == front && events[|events| - 1] == e
  }

  lemma LastForStep(events: seq<StreamEvent>, front: seq<StreamEvent>, e: StreamEvent,
                    key: BlockKey, pick: StreamEvent -> Option<Bytes>)
    requires Extends(events, front, e)
    ensures Last(events, For(key, pick)) == if IsFor(e, key) && pick(e).Some? then pick(e)
                                            else Last(front, For(key, pick))
  {
    assert For(key, pick)(e) == if IsFor(e, key) then pick(e) else None;
  }

  lemma BlockOfStep(events: seq<StreamEvent>, front: seq<StreamEvent>, e: StreamEvent, key: BlockKey)
    requires Extends(events, front, e)
    ensures BlockOf(events, key)
         == if Touches(e) == Some(key) then Grow(BlockOf(front, key), e) else BlockOf(front, key)
  {
    TouchesMeans(e, key);
    EmptyConcat(Deltas(front, key));
    LastForStep(events, front, e, key, SignatureOf);
    LastForStep(events, front, e, key, CallIdOf);
    LastForStep(events, front, e, key, CallNameOf);
  }

  /** Each key is listed once, and listed exactly if some event starts it or adds to it. */
  lemma {:induction false} FirstKeysAreTheTouched(events: seq<StreamEvent>)
    ensures forall i, j :: 0 <= i < j < |FirstKeys(events)| ==> FirstKeys(events)[i] != FirstKeys(events)[j]
    ensures forall key :: key in FirstKeys(events) <==> exists i :: 0 <= i < |events| && IsFor(events[i], key)
  {
    if events != [] {
      var n := |events| - 1;
      var front := events[..n];
      FirstKeysAreTheTouched(front);
      forall key
        ensures key in FirstKeys(events) <==> exists i :: 0 <= i < |events| && IsFor(events[i], key)
      {
        TouchesMeans(events[n], key);
        if key in FirstKeys(front) {
          var i :| 0 <= i < |front| && IsFor(front[i], key);
          assert IsFor(events[i], key);
        }
        if i :| 0 <= i < |events| && IsFor(events[i], key) && i < n {
          assert IsFor(front[i], key);
        }
      }
    }
  }

  lemma {:induction false} UntouchedIsFresh(events: seq<StreamEvent>, key: BlockKey)
    requires key !in FirstKeys(events)
    ensures BlockOf(events, key) == Fresh(key.kind)
  {
    if events != [] {
      var n := |events| - 1;
      UntouchedIsFresh(events[..n], key);
      BlockOfStep(events, events[..n], events[n], key);
    }
  }

  lemma FindIs(blocks: seq<Block>, key: BlockKey, k: nat)
    requires k <= |blocks| && (forall i :: 0 <= i < k ==> blocks[i].Key() != key)
    requires k == |blocks| || blocks[k].Key() == key
    ensures Find(blocks, key) == k
  {
  }

  /** The touched block grows and the others stay, wherever the key is listed. */
  lemma GrowBlocksMeetsReference(events: seq<StreamEvent>, front: seq<StreamEvent>, e: StreamEvent,
                                 keys: seq<BlockKey>, k: nat, key: BlockKey)
    requires Extends(events, front, e) && Touches(e) == Some(key)
    requires k <= |keys| && forall i :: 0 <= i < |keys| ==> (keys[i] == key <==> i == k)
    requires k == |keys| ==> BlockOf(front, key) == Fresh(key.kind)
    ensures GrowBlocks(BlocksOf(front, keys), key, e) == BlocksOf(events, if k < |keys| then keys else keys + [key])
  {
    var blocks := BlocksOf(front, keys);
    var all := if k < |keys| then keys else keys + [key];
    assert forall i :: 0 <= i < |keys| ==> blocks[i].Key() == keys[i];
    FindIs(blocks, key, k);
    var grown, expected := GrowBlocks(blocks, key, e), BlocksOf(events, all);
    assert |grown| == |expected|;
    forall i | 0 <= i < |all|
      ensures grown[i] == expected[i]
    {
      BlockOfStep(events, front, e, all[i]);
    }
  }

  lemma {:induction false} BlocksMeetReference(events: seq<StreamEvent>)
    ensures AbsorbAll(NEW_AGGREGATE, events).blocks == BlocksOf(events, FirstKeys(events))
  {
    if events != [] {
      var n := |events| - 1;
      var front, e := events[..n], events[n];
      var keys := FirstKeys(front);
      BlocksMeetReference(front);
      FirstKeysAreTheTouched(front);
      if Touches(e).Some? {
        var key := Touches(e).value;
        if key in keys {
          var k :| 0 <= k < |keys| && keys[k] == key;
          GrowBlocksMeetsReference(events, front, e, keys, k, key);
        } else {
          UntouchedIsFresh(front, key);
          GrowBlocksMeetsReference(events, front, e, keys, |keys|, key);
        }
      } else {
        forall i | 0 <= i < |keys|
          ensures BlockOf(events, keys[i]) == BlockOf(front, keys[i])
        {
          BlockOfStep(events, front, e, keys[i]);
        }
        assert BlocksOf(events, keys) == BlocksOf(front, keys);
      }
    }
  }

  lemma MaxUsageAppend(reports: seq<Usage>, u: Usage)
    ensures MaxUsage(reports + [u]) == MergeMax(MaxUsage(reports), u)
  {
    assert (reports + [u])[..|reports|] == reports;
  }

  lemma AbsorbedUsage(a: Aggregate, e: StreamEvent)
    ensures Absorbed(a, e).usage == if UsageOf(e) == [] then a.usage else MergeMax(a.usage, UsageOf(e)[0])
  {
  }

  lemma ReportsStep(events: seq<StreamEvent>, front: seq<StreamEvent>, e: StreamEvent)
    requires Extends(events, front, e)
    ensures MaxUsage(Reports(events)) == if UsageOf(e) == [] then MaxUsage(Reports(front))
                                         else MergeMax(MaxUsage(Reports(front)), UsageOf(e)[0])
  {
    if UsageOf(e) == [] {
      EmptyConcat(Reports(front));
    } else {
      MaxUsageAppend(Reports(front), UsageOf(e)[0]);
    }
  }

  lemma {:induction false} UsageMeetsReference(events: seq<StreamEvent>)
    ensures AbsorbAll(NEW_AGGREGATE, events).usage == MaxUsage(Reports(events))
  {
    if events != [] {
      var n := |events| - 1;
      var front, e := events[..n], events[n];
      UsageMeetsReference(front);
      AbsorbedUsage(AbsorbAll(NEW_AGGREGATE, front), e);
      ReportsStep(events, front, e);
    }
  }

  lemma AbsorbedScalars(a: Aggregate, e: StreamEvent)
    ensures Absorbed(a, e).id == (if IdOf(e).Some? then IdOf(e).value else a.id)
    ensures Absorbed(a, e).model == (if ModelOf(e).Some? then ModelOf(e).value else a.model)
    ensures Absorbed(a, e).stopReason == (if ReasonOf(e).Some? then ReasonOf(e) else a.stopReason)
    ensures Absorbed(a, e).stopSequence == (if SequenceOf(e).Some? then SequenceOf(e) else a.stopSequence)
  {
  }

  lemma {:induction false} ScalarsMeetReference(events: seq<StreamEvent>)
    ensures var a := AbsorbAll(NEW_AGGREGATE, events);
            && a.id == OrEmpty(Last(events, IdOf)) && a.model == OrEmpty(Last(events, ModelOf))
            && a.stopReason == Last(events, ReasonOf) && a.stopSequence == Last(events, SequenceOf)
  {
    if events != [] {
      var n := |events| - 1;
      ScalarsMeetReference(events[..n]);
      AbsorbedScalars(AbsorbAll(NEW_AGGREGATE, events[..n]), events[n]);
    }
  }

  /**
   For every event stream: one block per touched index and kind, by first appearance, holding
   exactly its own deltas in order; usage is the maximum of all reports; identifiers and stop data
   are the last ones given.
   */
  lemma AggregatorLosesNothing(events: seq<StreamEvent>)
    ensures AbsorbAll(NEW_AGGREGATE, events) == Aggregate(
              OrEmpty(Last(events, IdOf)), OrEmpty(Last(events, ModelOf)),
              Last(events, ReasonOf), Last(events, SequenceOf),
              MaxUsage(Reports(events)), BlocksOf(events, FirstKeys(events)))
  {
    BlocksMeetReference(events);
    UsageMeetsReference(events);
    ScalarsMeetReference(events);
  }

  // ------------------------------------------------------------------ content

  /** Whether anything of a key reaches the content. */
  predicate Leaves(events: seq<StreamEvent>, key: BlockKey) {
    match key.kind
    case TextKind => Deltas(events, key) != []
    case ThinkingKind => Deltas(events, key) != [] || Last(events, For(key, SignatureOf)).Some?
    case ToolUseKind => true
    case RefusalKind => Deltas(events, key) != []
  }

  /** The part that a key's events amount to. */
  predicate IsPart(part: ContentPart, events: seq<StreamEvent>, key: BlockKey) {
    var deltas, signature := Deltas(events, key), Last(events, For(key, SignatureOf));
    match part
    case TextPart(text) => key.kind.TextKind? && text == deltas
    case ThinkingPart(text, sig) => key.kind.ThinkingKind? && text == deltas && sig == signature
    case RefusalPart(text) => key.kind.RefusalKind? && text == deltas
    case ToolUsePart(id, name, input, sig) =>
      && key.kind.ToolUseKind? && sig == signature
      && id == OrEmpty(Last(events, For(key, CallIdOf))) && name == OrEmpty(Last(events, For(key, CallNameOf)))
      && (input == EmptyObject <==> Trim(deltas) == []) && (input != EmptyObject ==> input == FromArgs(deltas))
  }

  /**
   What reaches the content of the events for a key: one part with all of its deltas, or nothing when
   there were none. A thinking block also survives on a signature alone, a tool call on its mere
   start; the call keeps the last identifier, name and signature given, and blank arguments are none.
   */
  lemma PartHoldsAllDeltas(events: seq<StreamEvent>, key: BlockKey)
    ensures var parts := PartOf(BlockOf(events, key));
            if Leaves(events, key) then |parts| == 1 && IsPart(parts[0], events, key) else parts == []
  {
  }

  /** There is only one such part. */
  lemma PartIsDetermined(a: ContentPart, b: ContentPart, events: seq<StreamEvent>, key: BlockKey)
    requires IsPart(a, events, key) && IsPart(b, events, key)
    ensures a == b
  {
  }

  predicate SortedByIndex(blocks: seq<Block>) {
    forall i, j :: 0 <= i < j < |blocks| ==> blocks[i].index <= blocks[j].index
  }

  /** The blocks of one index, in their order. */
  function AtIndex(blocks: seq<Block>, index: nat): seq<Block> {
    if blocks == [] then []
    else (if blocks[0].index == index then [blocks[0]] else []) + AtIndex(blocks[1..], index)
  }

  lemma {:induction false} AtIndexConcat(a: seq<Block>, b: seq<Block>, index: nat)
    ensures AtIndex(a + b, index) == AtIndex(a, index) + AtIndex(b, index)
  {
    if a == [] {
      EmptyConcat(b);
    } else {
      TailOfConcat(a, b);
      AtIndexConcat(a[1..], b, index);
      ConcatAssoc(if a[0].index == index then [a[0]] else [], AtIndex(a[1..], index), AtIndex(b, index));
    }
  }

  lemma {:induction false} AtIndexAbove(blocks: seq<Block>, index: nat)
    requires forall i :: 0 <= i < |blocks| ==> blocks[i].index > index
    ensures AtIndex(blocks, index) == []
  {
    if blocks != [] {
      AtIndexAbove(blocks[1..], index);
    }
  }

  lemma {:induction false} InsertIsSorted(blocks: seq<Block>, b: Block)
    requires SortedByIndex(blocks)
    ensures SortedByIndex(InsertByIndex(blocks, b))
    ensures forall x :: x in InsertByIndex(blocks, b) ==> x == b || x in blocks
  {
    if blocks != [] && b.index >= blocks[0].index {
      InsertIsSorted(blocks[1..], b);
      var rest := InsertByIndex(blocks[1..], b);
      var all := InsertByIndex(blocks, b);
      assert all[1..] == rest;
      forall i, j | 0 <= i < j < |all|
        ensures all[i].index <= all[j].index
      {
        assert all[j] == rest[j - 1] && rest[j - 1] in rest;
      }
    }
  }

  lemma {:induction false} InsertGoesLast(blocks: seq<Block>, b: Block, index: nat)
    requires SortedByIndex(blocks)
    ensures AtIndex(InsertByIndex(blocks, b), index) == AtIndex(blocks, index) + AtIndex([b], index)
  {
    if blocks == [] || b.index < blocks[0].index {
      if b.index == index {
        AtIndexAbove(blocks, index);
      }
      AtIndexConcat([b], blocks, index);
    } else {
      InsertGoesLast(blocks[1..], b, index);
      assert InsertByIndex(blocks, b)[1..] == InsertByIndex(blocks[1..], b);
      ConcatAssoc(if blocks[0].index == index then [blocks[0]] else [],
                  AtIndex(blocks[1..], index), AtIndex([b], index));
    }
  }

  /** The sort orders by index and keeps the first-appearance order inside every index. */
  lemma {:induction false} SortIsStable(blocks: seq<Block>, index: nat)
    ensures SortedByIndex(SortByIndex(blocks))
    ensures AtIndex(SortByIndex(blocks), index) == AtIndex(blocks, index)
  {
    if blocks != [] {
      var n := |blocks| - 1;
      SortIsStable(blocks[..n], index);
      InsertIsSorted(SortByIndex(blocks[..n]), blocks[n]);
      InsertGoesLast(SortByIndex(blocks[..n]), blocks[n], index);
      AtIndexConcat(blocks[..n], [blocks[n]], index);
      assert blocks == blocks[..n] + [blocks[n]];
    }
  }

  lemma {:induction false} AtIndexNonEmpty(blocks: seq<Block>, k: nat)
    requires k < |blocks|
    ensures AtIndex(blocks, blocks[k].index) != []
  {
    if k > 0 {
      AtIndexNonEmpty(blocks[1..], k - 1);
    }
  }

  lemma {:induction false} AtIndexMember(blocks: seq<Block>, index: nat)
    requires AtIndex(blocks, index) != []
    ensures exists k :: 0 <= k < |blocks| && blocks[k].index == index
  {
    if blocks[0].index != index {
      AtIndexMember(blocks[1..], index);
      var k :| 0 <= k < |blocks[1..]| && blocks[1..][k].index == index;
      assert blocks[k + 1].index == index;
    }
  }

  lemma FirstIndexIsLeast(s: seq<Block>, t: seq<Block>)
    requires s != [] && SortedByIndex(t)
    requires forall index: nat :: AtIndex(s, index) == AtIndex(t, index)
    ensures t != [] && t[0].index <= s[0].index
  {
    AtIndexNonEmpty(s, 0);
    assert AtIndex(t, s[0].index) == AtIndex(s, s[0].index);
    AtIndexMember(t, s[0].index);
  }

  /** There is only one stable ordering by index. */
  lemma {:induction false} StableOrderIsUnique(s: seq<Block>, t: seq<Block>)
    requires SortedByIndex(s) && SortedByIndex(t)
    requires forall index: nat :: AtIndex(s, index) == AtIndex(t, index)
    ensures s == t
  {
    if s != [] && t != [] {
      FirstIndexIsLeast(s, t);
      FirstIndexIsLeast(t, s);
      var first := s[0].index;
      assert AtIndex(s, first)[0] == s[0] && AtIndex(t, first)[0] == t[0];
      assert AtIndex(s, first) == AtIndex(t, first);
      forall index: nat
        ensures AtIndex(s[1..], index) == AtIndex(t[1..], index)
      {
        assert AtIndex(s, index) == AtIndex(t, index);
        var head := if first == index then [s[0]] else [];
        assert AtIndex(s[1..], index) == AtIndex(s, index)[|head|..];
        assert AtIndex(t[1..], index) == AtIndex(t, index)[|head|..];
      }
      StableOrderIsUnique(s[1..], t[1..]);
    } else if s != [] {
      FirstIndexIsLeast(s, t);
    } else if t != [] {
      FirstIndexIsLeast(t, s);
    }
  }

  /** The keys of one index, in their order. */
  function KeysAt(keys: seq<BlockKey>, index: nat): seq<BlockKey> {
    if keys == [] then []
    else (if keys[0].index == index then [keys[0]] else []) + KeysAt(keys[1..], index)
  }

  /** Ordered by index and, inside an index, by first appearance. */
  ghost predicate InContentOrder(events: seq<StreamEvent>, keys: seq<BlockKey>) {
    && (forall i, j :: 0 <= i < j < |keys| ==> keys[i].index <= keys[j].index)
    && (forall index: nat :: KeysAt(keys, index) == KeysAt(FirstKeys(events), index))
  }

  /** The keys of which something reaches the content. */
  function Kept(events: seq<StreamEvent>, keys: seq<BlockKey>): seq<BlockKey> {
    if keys == [] then []
    else (if Leaves(events, keys[0]) then [keys[0]] else []) + Kept(events, keys[1..])
  }

  lemma {:induction false} AtIndexOfKeys(events: seq<StreamEvent>, keys: seq<BlockKey>, index: nat)
    ensures AtIndex(BlocksOf(events, keys), index) == BlocksOf(events, KeysAt(keys, index))
  {
    if keys != [] {
      AtIndexOfKeys(events, keys[1..], index);
      assert BlocksOf(events, keys)[1..] == BlocksOf(events, keys[1..]);
      if keys[0].index == index {
        BlocksOfCons(events, keys[0], KeysAt(keys[1..], index));
      } else {
        EmptyConcat(KeysAt(keys[1..], index));
        EmptyConcat(AtIndex(BlocksOf(events, keys[1..]), index));
      }
    }
  }

  lemma BlocksOfCons(events: seq<StreamEvent>, key: BlockKey, keys: seq<BlockKey>)
    ensures BlocksOf(events, [key] + keys) == [Block(key.index, BlockOf(events, key))] + BlocksOf(events, keys)
  {
  }

  lemma {:induction false} PartsOfKeys(events: seq<StreamEvent>, keys: seq<BlockKey>)
    ensures var content, kept := PartsOf(BlocksOf(events, keys)), Kept(events, keys);
            |content| == |kept| && forall i :: 0 <= i < |kept| ==> IsPart(content[i], events, kept[i])
  {
    if keys != [] {
      PartsOfKeys(events, keys[1..]);
      PartHoldsAllDeltas(events, keys[0]);
      assert BlocksOf(events, keys)[1..] == BlocksOf(events, keys[1..]);
      var head, rest := PartOf(BlockOf(events, keys[0])), PartsOf(BlocksOf(events, keys[1..]));
      assert PartsOf(BlocksOf(events, keys)) == head + rest;
    }
  }

  /**
   The content of a stream, position by position: the touched keys in content order, those left out
   of which nothing remains, and at each position exactly the part its key's events amount to.
   */
  lemma ContentIsOrderedBlocks(events: seq<StreamEvent>, keys: seq<BlockKey>)
    requires InContentOrder(events, keys)
    ensures var content, kept := IntoContent(AbsorbAll(NEW_AGGREGATE, events)), Kept(events, keys);
            |content| == |kept| && forall i :: 0 <= i < |kept| ==> IsPart(content[i], events, kept[i])
  {
    var blocks, ordered := BlocksOf(events, FirstKeys(events)), BlocksOf(events, keys);
    BlocksMeetReference(events);
    SortIsStable(blocks, 0);
    forall index: nat
      ensures AtIndex(SortByIndex(blocks), index) == AtIndex(ordered, index)
    {
      SortIsStable(blocks, index);
      AtIndexOfKeys(events, keys, index);
      AtIndexOfKeys(events, FirstKeys(events), index);
    }
    StableOrderIsUnique(SortByIndex(blocks), ordered);
    PartsOfKeys(events, keys);
  }

  /** Every stream has such an order of its keys. */
  lemma ContentOrderExists(events: seq<StreamEvent>) returns (keys: seq<BlockKey>)
    ensures InContentOrder(events, keys)
  {
    var blocks := BlocksOf(events, FirstKeys(events));
    var sorted := SortByIndex(blocks);
    keys := KeysOf(sorted);
    SortIsStable(blocks, 0);
    forall index: nat
      ensures KeysAt(keys, index) == KeysAt(FirstKeys(events), index)
    {
      SortIsStable(blocks, index);
      KeysAtOf(sorted, index);
      KeysAtOf(blocks, index);
      assert KeysOf(blocks) == FirstKeys(events);
    }
  }

  function KeysOf(blocks: seq<Block>): seq<BlockKey> {
    seq(|blocks|, i requires 0 <= i < |blocks| => blocks[i].Key())
  }

  lemma {:induction false} KeysAtOf(blocks: seq<Block>, index: nat)
    ensures KeysAt(KeysOf(blocks), index) == KeysOf(AtIndex(blocks, index))
  {
    if blocks != [] {
      KeysAtOf(blocks[1..], index);
      assert KeysOf(blocks)[1..] == KeysOf(blocks[1..]);
    }
  }
}
