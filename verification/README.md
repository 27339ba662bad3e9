# Refract: a verified model of the gateway's stateful core

Refract is a gateway in front of language-model upstreams. This project models, in Dafny 4.11, the
parts of it that hold state and decide money, routing or availability, and proves what they promise
over every input, every run and every interleaving of calls:

- `Utf8.dfy`, `Sse.dfy`, `SseProofs.dfy`, `SseEndings.dfy`: server-sent event frames, their renderers, and
  the incremental parser that must work for any TCP chunking and for streams that end in mid-line.
- `Aggregator.dfy`, `AggregatorProofs.dfy`, `Ir.dfy`: folding a stream of unified events into content
  blocks and usage; billing usage; reasoning budgets.
- `Relay.dfy`, `RelayProofs.dfy`, `RelayOutcomes.dfy`: the native stream relay, which forwards bytes while
  parser, decoder and aggregator watch, and then settles status, endpoint health, affinity and billing.
- `Affinity.dfy`, `AffinityProofs.dfy`, `AffinitySessions.dfy`: the channel-affinity cache with sliding TTL,
  capacity bound, least-recently-used eviction, statistics and hot reload, and how long sessions stick.
- `Channel.dfy`, `Keys.dfy`, `Modular.dfy`: credentials, key pools, channel validation, round-robin and
  sticky selection, and the rotator that walks a pool when keys fail.
- `Rate.dfy`: rate limits by natural minute, per key and per client address.
- `Notify.dfy`: automatic switching-off after repeated auth failures, and notification spacing.
- `Admin.dfy`: redaction of credentials and restoration of masks that come back.
- `Routing.dfy`: weighted choice.

What the source updates in place is a class whose methods are proved equal to a function of the old
state; what is promised about runs is proved about those functions. Strings of the wire protocol are
byte sequences with the real UTF-8 well-formedness test. A decoder is any deterministic machine; a
client is any function saying which sends succeed; regex engines and JSON documents are function or map
parameters. Every locked method is one step that reads the clock once, and time is an argument. Whoever
calls a method in the order of the clock meets the assumption `InOrder` or `ClockInOrder`; the rate limits
need less, and exactly what is proved below.

## What turned out to need a condition

- Chunking: the bill is independent of TCP boundaries, for every decoder, exactly if the stream is
  `Harmless`: all complete lines are UTF-8, or no blank line closes an event name or data before the first
  one that is not (`BilledAlikeIfHarmless`). Otherwise a parser error discards the frames that the same
  chunk completed before it; status, health and affinity still cannot differ.
- Rendering: a frame comes back exactly when its event name has no line feed and neither the name nor a
  data line ends in CR.
- Cache keys: a comment calls NUL impossible in the three parts. A NUL in the value is harmless. One in the
  used model or in the rule name, which rule validation does not exclude, makes identities of different
  meaning collide; injectivity holds exactly for identities without either (`SeparableIsExact`).
- Affinity switching: with switching off, a second winner is dropped. The cache stays inside the unbounded
  store exactly if no record of the run is refused (`AgreesIfNeverRefused`).
- Affinity capacity: with a limit of zero an empty cache grows to one entry; that is the only exception.
  Making room comes before looking at the key, so refreshing a binding can cost another one that is alive. It
  never does exactly if the living entries do not fill the cache or the refreshed key alone is least recently
  used among them; it always does exactly if they fill it and the key is expired or one of them was used
  before it (`RefreshCostsAnother`).
- Round-robin: fairness across the wrap of the 64-bit cursor holds exactly for pool sizes dividing 2^64. The
  cursor is the channel's, so starts with other pools, as of an endpoint with its own key, turn it too. When
  every g-th start is for a pool of n, that pool is treated fairly exactly if no 0 < d < n makes g * d a
  multiple of n (`StridesAreFair`); a pool of two that alternates with a single key never begins with its
  other key (`WholeRoundsStarve`).
- End of stream: an unterminated last line is read as if it were terminated exactly if it is not UTF-8, is a
  `data:` line without white space around its value, or is no event or data line, trimmed or not
  (`FinishReadsAsTerminated`); so a last `event:` line is lost.
- Rate limits: the clock is read before the lock is taken, so readings can arrive out of order. All answers
  are those of the history exactly if no minute comes back after another one (`FollowedIfNoMinuteReturns`),
  and in any span of time the limit holds once per stay of the clock in a minute, no less (`BoundIsExact`).
- Notifications: pruning the table is unobservable exactly from an age of one window on.
- Reasoning tiers: they survive the way to a budget and back exactly for ceilings from 2926 to 2^30 - 1;
  from 2^30 on the 32-bit product wraps in a release build, and exactly then high falls below medium.
- Masks: pool rows survive every edit of the masked list exactly when masks tell the stored secrets apart.

## Model

| member | source | states |
|---|---|---|
| Utf8.Utf8CutAtAscii | crates/refract-protocol/src/stream.rs:238-243 | a byte string can be cut around any ASCII byte without changing whether it is UTF-8, which is why lines may be checked one by one |
| Utf8.Utf8IffEncoded | crates/refract-protocol/src/stream.rs:240-243 | a byte string is accepted if and only if it is a concatenation of encodings of Unicode scalar values |
| Sse.RenderInto | crates/refract-protocol/src/stream.rs:181-194 | appends exactly the wire form of the frame to the buffer, one prefixed line per data line |
| Sse.SseParser.FeedBytes | crates/refract-protocol/src/stream.rs:228-268 | new fields and result, frames or error, are those of draining the old buffer extended by the chunk |
| Sse.SseParser.FinishBytes | crates/refract-protocol/src/stream.rs:277-292 | new fields and result at the end of the stream, trailing line and undecodable rest included |
| Sse.SseParser.Flush | crates/refract-protocol/src/stream.rs:294-303 | takes the pending frame out, if there is an event name or a data line, and leaves nothing pending |
| SseProofs.LiteralsSpell | crates/refract-protocol/src/stream.rs:181-194 | the literals of the wire format are the texts "event: ", "data: " and so on |
| SseProofs.FieldMeans | crates/refract-protocol/src/stream.rs:250-266 | a line is its name up to the first colon and its value after it, less one leading space; without a colon the value is empty |
| SseProofs.LinesMean | crates/refract-protocol/src/stream.rs:233-240 | a line ends at a line feed, and one CR before it belongs to the line end; what follows the last line feed is no line yet |
| SseProofs.FeedSplit | crates/refract-protocol/src/stream.rs:228-268 | feeding two chunks equals feeding their concatenation, frames and state, and an error in the first is an error of the whole |
| SseProofs.ChunkInvariance | crates/refract-protocol/src/stream.rs:203-213 | from any parser state between lines, any partition of a byte stream yields the frames, final state and error verdict of the stream fed whole |
| SseProofs.DrainMeetsReference | crates/refract-protocol/src/stream.rs:228-268 | the parser, resumed inside any block, agrees with a reading of the whole stream by lines and blank-line blocks |
| SseProofs.ParserMeetsReference | crates/refract-protocol/src/stream.rs:203-268 | under every chunking an error occurs exactly when some complete line is not UTF-8; else the frames are those of the closed blocks and the residue is the open line and block |
| SseProofs.RoundTrip | crates/refract-protocol/src/stream.rs:181-201 | a list of frames rendered and fed in any chunking comes back as that list with an empty parser if and only if every frame is renderable |
| SseProofs.SseBytesIsRender | crates/refract-api/src/gateway.rs:1817-1828 | the gateway's one-line renderer equals the full renderer if and only if the data has no line feed |
| SseProofs.NoFrameIfNoneClosed | crates/refract-protocol/src/stream.rs:228-303 | the lines of a stream yield no frame exactly if no blank line follows an event name or data line |
| SseProofs.FinishKeepsTrailingFrame | crates/refract-protocol/src/stream.rs:276-292 | a frame that lacks only its closing blank line is produced at the end of the stream, as it was, if and only if it is renderable |
| SseEndings.WhitespaceIsUnicode | crates/refract-protocol/src/stream.rs:281-287 | what trimming takes for a space is exactly an encoded Unicode white space character |
| SseEndings.TrimMeans | crates/refract-protocol/src/stream.rs:281-287 | trimming cuts white space off both ends, nothing else, and leaves none there |
| SseEndings.FinishTakesResidue | crates/refract-protocol/src/stream.rs:277-292 | an unterminated `data:` line, with or without the space, contributes exactly its value without surrounding white space |
| SseEndings.FinishReadsAsTerminated | crates/refract-protocol/src/stream.rs:277-292 | for every last line: it is read as if terminated, whatever is pending, if and only if it is not UTF-8, a `data:` line with a bare value, or no event or data line even when trimmed |
| Ir.MaxUsageIsLeast | crates/refract-protocol/src/ir.rs:585-591 | merged usage is below a bound exactly when every report is: it is the pointwise maximum |
| Ir.MaxUsageIgnoresOrder | crates/refract-protocol/src/ir.rs:581-591 | order and repetition of usage reports do not change the merged usage |
| Ir.AnthropicInputIsWholeInput | crates/refract-protocol/src/ir.rs:564-579 | billing input of an Anthropic upstream is the saturated sum of plain, cached and cache-write input; other protocols are untouched |
| Ir.BudgetInNumbers | crates/refract-protocol/src/ir.rs:354-373 | the budget in numbers: a given one, or a fifth, a half and four fifths of the ceiling between 1024 and one below it, and when there is none |
| Ir.TierInNumbers | crates/refract-protocol/src/ir.rs:376-396 | the tier in numbers: a given effort, or high from 65 and medium from 35 percent of the ceiling on |
| Ir.TierHasLegalBudget | crates/refract-protocol/src/ir.rs:354-373 | a tier has a budget exactly above a ceiling of 1024, and then at least 1024 and below the ceiling, wrap or no wrap |
| Ir.BudgetsAreMonotone | crates/refract-protocol/src/ir.rs:366-373 | the low budget never exceeds the medium one, and the medium one never the high one exactly for ceilings below 2^30 |
| Ir.TiersRoundTrip | crates/refract-protocol/src/ir.rs:354-395 | all tiers convert to a budget and back to themselves if and only if the ceiling is from 2926 to 2^30 - 1 |
| Aggregator.StreamAggregator.Absorb | crates/refract-protocol/src/stream.rs:415-493 | the whole new state is the old one with the event absorbed |
| Aggregator.StreamAggregator.Ensure | crates/refract-protocol/src/stream.rs:543-562 | finds the block of an index and kind or opens it at the end, and nothing else changes |
| AggregatorProofs.FirstKeysAreTheTouched | crates/refract-protocol/src/stream.rs:337-344 | every index and kind is listed once, and listed exactly if some event of that kind and index starts it or adds to it |
| AggregatorProofs.BlocksMeetReference | crates/refract-protocol/src/stream.rs:415-562 | for every event sequence the blocks are one per touched key, by first appearance, each holding exactly its own deltas in order |
| AggregatorProofs.AggregatorLosesNothing | crates/refract-protocol/src/stream.rs:346-493 | for every event sequence the entire aggregate: blocks, maximum usage, last identifiers and stop data |
| AggregatorProofs.PartHoldsAllDeltas | crates/refract-protocol/src/stream.rs:574-607 | all deltas of a key reach the content in one part, or none was received; signatures and tool starts survive alone; a tool call carries its last identifier, name and signature, and the empty input exactly for blank arguments |
| AggregatorProofs.PartIsDetermined | crates/refract-protocol/src/stream.rs:574-607 | these facts leave no choice: there is one such part |
| AggregatorProofs.SortIsStable | crates/refract-protocol/src/stream.rs:568-571 | content order is by index and keeps first appearance inside an index |
| AggregatorProofs.StableOrderIsUnique | crates/refract-protocol/src/stream.rs:564-571 | there is only one such order |
| AggregatorProofs.ContentIsOrderedBlocks | crates/refract-protocol/src/stream.rs:568-608 | position by position the content is the part of the next key, by index and first appearance, of which anything remains |
| AggregatorProofs.ContentOrderExists | crates/refract-protocol/src/stream.rs:564-571 | every stream has such an order of its keys |
| Relay.InspectNativeFrames | crates/refract-api/src/gateway.rs:1776-1800 | decoder state, absorbed events, completion flag and first error of inspecting a batch of frames |
| Relay.RelayNativeStream | crates/refract-api/src/gateway.rs:1587-1735 | the relay program computes the outcome of the specified run for every decoder, client and upstream |
| RelayProofs.LoopSafety | crates/refract-api/src/gateway.rs:1603-1627 | along every run the client holds an exact prefix of the upstream chunks, every send before the first refused one succeeded, and a healthy end has forwarded everything |
| RelayProofs.RelaySafety | crates/refract-api/src/gateway.rs:1587-1735 | error and client close exclude each other; 200 means everything forwarded and completion seen (or Gemini); 499 means client close; success is recorded exactly with 200; a close records nothing; unbinding exactly on errors whose rule allows it |
| RelayProofs.BilledUsageIsMaximum | crates/refract-api/src/gateway.rs:1668-1671 | billed usage is the normalized maximum of the usage in all absorbed events |
| RelayProofs.AbsorbsUpToFirstError | crates/refract-api/src/gateway.rs:1789-1797 | exactly the events before the first error event are absorbed, and its message becomes the error |
| RelayProofs.InspectConcat | crates/refract-api/src/gateway.rs:1776-1800 | inspecting two batches equals inspecting them at once, stopping at the first error |
| RelayProofs.LoopIsWhole | crates/refract-api/src/gateway.rs:1603-1627 | for readable bytes the loop over any chunking ends as one feeding of all bytes does |
| RelayProofs.UnreadableFails | crates/refract-api/src/gateway.rs:1603-1627 | a stream with a line that is not UTF-8 ends in an upstream error under every chunking |
| RelayProofs.ChunkingIsUnbilled | crates/refract-api/src/gateway.rs:1603-1735 | two chunkings of the same bytes give the same status, health update and affinity verdict, and for a harmless stream the same outcome but for the cut of the forwarded bytes |
| RelayProofs.BilledAlikeIfHarmless | crates/refract-api/src/gateway.rs:1603-1735 | for every stream: all chunkings bill alike for every decoder and end of the upstream if and only if the stream is harmless |
| RelayProofs.RelayDecodesRenderedFrames | crates/refract-api/src/gateway.rs:1596-1627 | frames an upstream rendered reach the decoder as those frames under every chunking |
| RelayProofs.UnreadableStreamIsBilledByChunk | crates/refract-protocol/src/stream.rs:233-248 | frames completed before a line that is not UTF-8 are billed if a chunk ends between, and not at all in one chunk |
| RelayProofs.FrameThenBadLineIsHarmful | crates/refract-protocol/src/stream.rs:233-248 | any rendered frame followed by a line that is not UTF-8 is such a stream: one token in two chunks, none in one |
| RelayOutcomes.WholeStreamOutcome | crates/refract-api/src/gateway.rs:1587-1735 | a stream that arrives whole, its last frame closed or not, in any chunking: with its completion event, or from Gemini, all is forwarded, 200, success recorded, nothing unbound, and the bill is the largest reports with input plus output; otherwise exactly the missing-completion error, 502 |
| RelayOutcomes.UnfinishedStreamOutcome | crates/refract-api/src/gateway.rs:1653-1662 | an error of the decoder at the end is the outcome's error, with the bill of the frames |
| RelayOutcomes.BrokenStreamOutcome | crates/refract-api/src/gateway.rs:1623-1735 | an upstream error is the outcome's error: its HTTP status for each kind, a recorded failure exactly for the seven kinds that speak against the endpoint, unbinding, and the bill of the frames that arrived whole |
| RelayOutcomes.ClosedClientOutcome | crates/refract-api/src/gateway.rs:1603-1620 | a client that leaves gets 499, nothing recorded or unbound, and the bill up to and including the chunk it did not take |
| RelayOutcomes.BadFrameOutcome | crates/refract-api/src/gateway.rs:1776-1800 | a frame that does not decode, or decodes to an error event, ends the run with that error, in any chunking, and the bill of what came before |
| Affinity.AffinityEngine.Load | crates/refract-router/src/affinity.rs:124-145 | rules and parameters are replaced, rules that do not compile dropped, entries and statistics kept |
| Affinity.AffinityEngine.Resolve | crates/refract-router/src/affinity.rs:178-257 | the decision and the whole new state, for a hit, an expired entry and a miss |
| Affinity.AffinityEngine.Record | crates/refract-router/src/affinity.rs:263-287 | the whole new state for some legal victim of the eviction |
| Affinity.AffinityEngine.EvictExpiredOrOldest | crates/refract-router/src/affinity.rs:424-439 | expired entries go, then one least recently used survivor if the cache is still full |
| Affinity.AffinityEngine.OldestKey | crates/refract-router/src/affinity.rs:429-435 | a key with minimal last use, in any iteration order |
| Affinity.AffinityEngine.ForgetIfBoundTo | crates/refract-router/src/affinity.rs:299-308 | removes and counts the binding only if it points to the channel |
| Affinity.AffinityEngine.ForgetChannel | crates/refract-router/src/affinity.rs:311-318 | removes and counts exactly the bindings to the channel |
| Affinity.AffinityEngine.Snapshot | crates/refract-router/src/affinity.rs:330-339 | expired entries are swept and counted before the snapshot |
| AffinityProofs.CacheKeyIsInjective | crates/refract-router/src/affinity.rs:350-361 | two identities share a key if and only if they mean the same, when rule name and used model have no NUL |
| AffinityProofs.ModelCountsIfIncluded | crates/refract-router/src/affinity.rs:355-361 | without the model in the rule the key is the same for all models; with it, keys of parts without NUL are equal only for the same rule, model and value |
| AffinityProofs.NulInModelCollides | crates/refract-router/src/affinity.rs:350-361 | a NUL in a used model makes different identities collide, whatever the other parts |
| AffinityProofs.NulInRuleCollides | crates/refract-core/src/affinity.rs:190-203 | so does a NUL in a rule name, which validation accepts |
| AffinityProofs.SeparableIsExact | crates/refract-router/src/affinity.rs:350-361 | rule name and used model have no NUL if and only if no such identity of another meaning has the same key |
| AffinityProofs.FirstMatchIsFirst | crates/refract-router/src/affinity.rs:183-210 | the decision is that of the first rule yielding an identity, both directions |
| AffinityProofs.ExtractedValueIsFirst | crates/refract-router/src/affinity.rs:364-383 | the identity value is that of the first source that has one, both directions |
| AffinityProofs.SourceValueMeans | crates/refract-router/src/affinity.rs:364-400 | what each source yields: the key id, a header that is not empty, a scalar of the body in its printed form |
| AffinityProofs.LoadedRuleMeansSettings | crates/refract-router/src/affinity.rs:402-420 | a configured rule, loaded, decides exactly the requests its patterns, sources and TTL say, and none if it does not compile |
| AffinityProofs.LoadMeansSettings | crates/refract-router/src/affinity.rs:124-145 | after a load every request is decided by the first configured rule that compiles and yields an identity, and by none if there is no such rule |
| AffinityProofs.LoadedEngineMeansSettings | crates/refract-router/src/affinity.rs:124-257 | so does the decision the loaded engine resolves, binding aside |
| AffinityProofs.CacheIsSubmapOfIdeal | crates/refract-router/src/affinity.rs:178-327 | while no record is refused, the cache is a sub-map of an unbounded store without expiry under the same records and removals |
| AffinityProofs.AgreesIfNeverRefused | crates/refract-router/src/affinity.rs:263-273 | for every run: it is such a sub-map at every moment if and only if no record of the run is refused |
| AffinityProofs.SwitchingNeverLies | crates/refract-router/src/affinity.rs:263-273 | with switching on at every record the cache is a sub-map of the store at every moment |
| AffinityProofs.SwitchingSettingsNeverLie | crates/refract-router/src/affinity.rs:124-273 | so it is when settings that switch on success are loaded before anything else and at every reload |
| AffinityProofs.SwitchingIsNeeded | crates/refract-router/src/affinity.rs:263-273 | after any load with switching off, and for any request its rules match, a second winner is refused: the old channel is served and the store holds the new one |
| AffinityProofs.EveryEntryWasRecorded | crates/refract-router/src/affinity.rs:263-287 | every key in the cache was recorded, so the sub-map result covers all entries |
| AffinitySessions.ServedBindingIsIdeal | crates/refract-router/src/affinity.rs:212-236 | while no record is refused, the channel a request is pinned to is the unbounded store's for its identity |
| AffinityProofs.AccountingIsConserved | crates/refract-router/src/affinity.rs:178-339 | created entries equal live entries plus forgets plus evictions and are at most the records; hits plus misses equal matched resolves |
| AffinityProofs.ResolveMeans | crates/refract-router/src/affinity.rs:178-257 | nothing without an enabled engine and a matching rule, else the cached channel exactly while it has not expired; other entries are untouched |
| AffinityProofs.StatisticsAreExact | crates/refract-router/src/affinity.rs:178-339 | each counter is the sum, over the run, of what its name says: hits, misses, records, forgotten and evicted entries |
| AffinityProofs.SnapshotCountsTheLiving | crates/refract-router/src/affinity.rs:330-339 | the entry count of a snapshot is the number of unexpired entries |
| AffinityProofs.SettingsAreInForce | crates/refract-router/src/affinity.rs:124-145 | after any run the engine works with the settings loaded last |
| AffinityProofs.RoomIsUsed | crates/refract-router/src/affinity.rs:274-286 | below the loaded capacity a record loses no other entry and grows the cache by one for a new key |
| AffinityProofs.RecordRespectsCapacity | crates/refract-router/src/affinity.rs:274-286 | a record keeps the size within the larger of capacity and previous size if and only if not both are zero |
| AffinityProofs.CapacityHolds | crates/refract-router/src/affinity.rs:263-287 | no run whose loads allow at most a capacity ever holds more entries |
| AffinityProofs.VictimIsLeastRecentlyUsed | crates/refract-router/src/affinity.rs:424-439 | an eviction loses at most one entry that has not expired, and that one has minimal last use among them |
| AffinityProofs.RefreshOfFullCacheShrinksIt | crates/refract-router/src/affinity.rs:274-286 | refreshing a binding of a full cache with nothing expired removes the victim: one entry less if that is another key, the same keys if it is the refreshed one |
| AffinityProofs.RefreshCostsAnother | crates/refract-router/src/affinity.rs:274-286 | for every cache, expired entries included: refreshing a key never costs another living binding, and always costs one, exactly under conditions on the sizes and last uses before the call |
| AffinitySessions.OnlyRecordRebinds | crates/refract-router/src/affinity.rs:263-273 | a step that keeps a key changes its channel if and only if it records another winner with switching on |
| AffinitySessions.NoSilentRebind | crates/refract-router/src/affinity.rs:263-273 | with switching off a key never removed keeps its channel over a whole run |
| AffinitySessions.EntryWasTouched | crates/refract-router/src/affinity.rs:212-287 | every entry is exactly what some earlier record or hit wrote |
| AffinitySessions.LastUseIsLastTouch | crates/refract-router/src/affinity.rs:232-286 | an entry was last used at the moment of the last record or hit that touched it, and expires when the TTL granted then is over |
| AffinitySessions.RemovalHasACause | crates/refract-router/src/affinity.rs:212-339 | a step loses a binding if and only if it forgets it, finds it expired or evicts it |
| AffinitySessions.SessionSticks | crates/refract-router/src/affinity.rs:178-327 | from a record or hit on, over any run that neither removes nor rebinds the key nor shortens its TTL, every request of the identity within that TTL gets the same channel |
| AffinitySessions.VictimIsCrowdedOut | crates/refract-router/src/affinity.rs:424-439 | along any run, whoever is evicted is matched by capacity - 1 other entries used at least as recently, each touched by some step no earlier than its own last use |
| AffinitySessions.SessionSurvives | crates/refract-router/src/affinity.rs:178-327 | a session is served its channel within the TTL over any legal run in which nobody forgets, rebinds or shortens it and fewer than capacity - 1 other keys are touched since its own last use |
| AffinitySessions.RecordIsServed | crates/refract-router/src/affinity.rs:178-287 | directly after a record its channel is served to the identity until the TTL is over |
| AffinitySessions.ModelsShareSession | crates/refract-router/src/affinity.rs:178-287 | under a rule without the model a record made for one model is served to the same value asked with any other model the rule decides |
| AffinitySessions.ModelsSplitSession | crates/refract-router/src/affinity.rs:263-287 | under a rule with the model a record for one model does not touch the entry of another |
| AffinitySessions.HitKeepsSessionAlive | crates/refract-router/src/affinity.rs:218-236 | a hit slides the expiry: asked again next, within the TTL, the same decision comes back |
| AffinitySessions.ServedBindingIsFresh | crates/refract-router/src/affinity.rs:212-287 | a served binding was recorded or hit less than the TTL that touch granted before, and with an ordered clock not after the request |
| Channel.Validate | crates/refract-core/src/channel.rs:707-804 | no error exactly for well-formed channels, and every error reported, of all sixteen kinds, is true of the channel where it says so |
| Channel.WellFormedIff | crates/refract-core/src/channel.rs:707-804 | well-formed is exactly: names, one endpoint per protocol, pool rows, keys, model names, addresses, headers and retry bounds as the checks demand, spelled out |
| Channel.HeaderIsGoodIff | crates/refract-core/src/channel.rs:769-795 | an extra header is allowed if and only if its trimmed name is visible ASCII and none of the gateway's own in any letter case, and its value breaks no line |
| Channel.TrimMeans | crates/refract-core/src/channel.rs:707-710 | trimming cuts white space off both ends, nothing else, and leaves none there |
| Channel.MaskShows | crates/refract-core/src/channel.rs:151-164 | a mask is a bullet per character of a short secret, else the four characters at each end around an ellipsis |
| Channel.MaskTellsEndsOnly | crates/refract-core/src/channel.rs:151-164 | two secrets have the same mask exactly if both are short and equally long or both are long with the same four characters at each end |
| Channel.PoolHoldsConfiguredKeys | crates/refract-core/src/channel.rs:239-276 | position by position a pool is the endpoint's own key, or the default key followed by the rows |
| Channel.StoredPoolsHaveNoEmptyKey | crates/refract-core/src/channel.rs:818-844 | in a well-formed channel no pool position yields an empty key |
| Keys.KeySelector.NextCursor | crates/refract-router/src/keys.rs:125-131 | index and wrapped cursor |
| Keys.KeySelector.FirstIndex | crates/refract-router/src/keys.rs:98-124 | first index and new selector for the three strategies, stale sticky bindings dropped |
| Keys.KeyRotator.Rotate | crates/refract-router/src/keys.rs:175-195 | new rotator and verdict for every error kind |
| Keys.KeyRotator.ExhaustedError | crates/refract-router/src/keys.rs:204-218 | wraps the last error exactly when a real pool is exhausted, keeping kind and retry delay |
| Keys.OnlyKeyFailuresRotate | crates/refract-core/src/error.rs:142-150 | the rotator changes exactly on unauthenticated, permission and rate-limit failures, until it is exhausted |
| Keys.RotatorCountsKeyFailures | crates/refract-router/src/keys.rs:175-195 | after any mix of failures the rotator's state is a function of the number of key failures alone, exhausted exactly from pool length on |
| Keys.VisitedAreConsecutive | crates/refract-router/src/keys.rs:175-195 | the keys shown are consecutive positions from the first one |
| Keys.RotatorCoversPool | crates/refract-router/src/keys.rs:175-195 | no position is shown twice, all are in range, and an exhausted rotator has shown all |
| Keys.RotatorShowsRealKeys | crates/refract-core/src/channel.rs:818-844 | for well-formed channels the shown key is never empty |
| Keys.RoundRobinIsFair | crates/refract-router/src/keys.rs:125-131 | over consecutive starts without cursor wrap each key has its share rounded down or up |
| Keys.FairAcrossWraps | crates/refract-router/src/keys.rs:125-131 | fairness for all cursors and counts holds if and only if the pool size divides 2^64 |
| Keys.PicksAreTurns | crates/refract-router/src/keys.rs:67-131 | in any run that does not delete the channel its starts share one cursor: the i-th that asks it gets the i-th turn modulo the size of its own pool |
| Keys.SelectorIsFair | crates/refract-router/src/keys.rs:67-131 | fairness in any such run over pools of one size, with other channels, commits, random and bound starts interleaved |
| Keys.StridesAreFair | crates/refract-router/src/keys.rs:125-131 | taking every g-th turn is fair to all keys, from every cursor and at every moment, if and only if fewer than n strides never come back to the same key |
| Keys.MixedStartsAreFair | crates/refract-router/src/keys.rs:98-131 | so the pool of every g-th start is treated fairly although other pools use the cursor in between |
| Keys.WholeRoundsStarve | crates/refract-router/src/keys.rs:98-131 | if g is a multiple of the pool size, one key begins every time and the others never do |
| Keys.StickyHolds | crates/refract-router/src/keys.rs:85-124 | a committed key is what its identity starts with until it is recommitted, forgotten or out of range |
| Keys.StaleBindingIsDropped | crates/refract-router/src/keys.rs:107-118 | a binding out of the pool's range is dropped at the next start and does not come back when the pool grows |
| Keys.ForgottenChannelIsNew | crates/refract-router/src/keys.rs:57-63 | a deleted channel leaves neither cursor nor binding, and other channels keep theirs |
| Keys.SingleKeyStartTakesATurn | crates/refract-core/src/channel.rs:256-262 | a pool of one key starts with that key, takes the cursor one further modulo 2^64 and leaves every binding and other cursor alone |
| Keys.RandomStartIsTheDraw | crates/refract-router/src/keys.rs:120-120 | the random strategy begins with the drawn key and leaves no trace |
| Rate.RateLimiter.Admit | crates/refract-api/src/rate.rs:77-83 | no accounting without a limit, else the specified admission |
| Rate.RateLimiter.AdmitAt | crates/refract-api/src/rate.rs:91-122 | verdict and whole new table |
| Rate.RateLimiter.AddTokens | crates/refract-api/src/rate.rs:130-154 | whole new table after posting tokens, saturating at 64 bits |
| Rate.IpRateLimiter.Admit | crates/refract-api/src/rate.rs:176-208 | behaves as the key limiter without a token limit |
| Rate.WindowsAreHistory | crates/refract-api/src/rate.rs:91-154 | as long as a minute has not been left, each of its windows holds exactly that minute's admissions and saturating sum of posted tokens, whatever the clock read before |
| Rate.LimiterFollowsPolicy | crates/refract-api/src/rate.rs:91-122 | a call in a minute not left since it began is answered as counting the history answers it, for every pruning threshold |
| Rate.AnswerIsByCounting | crates/refract-api/src/rate.rs:91-122 | in a minute not left since it began a request is refused for requests exactly if that many of its key got through, else for tokens exactly if that many were posted, each under a positive limit, else admitted; with the advised delay |
| Rate.UnlimitedLeavesNoTrace | crates/refract-api/src/rate.rs:77-83 | a request without a limit is let through and not counted |
| Rate.FollowedIfNoMinuteReturns | crates/refract-api/src/rate.rs:81-122 | for given clock readings: every run over them is answered as the history says if and only if no minute comes back after another one |
| Rate.ClockMustNotGoBack | crates/refract-api/src/rate.rs:81-105 | for any readings x, y, z with x and z in one minute and y in another, a run over them lets through what the history refuses |
| Rate.AtMostRpmPerStay | crates/refract-api/src/rate.rs:91-122 | for every run and every clock the limiter lets at most rpm requests of a key through per stay of the clock in a minute, in any span of time |
| Rate.BoundIsExact | crates/refract-api/src/rate.rs:91-122 | all runs over given readings stay within n times their limit if and only if there are at most n such stays |
| Rate.AtMostRpmPerMinute | crates/refract-api/src/rate.rs:108-113 | the limiter's own answers let at most rpm requests through per natural minute, in all runs over given readings, if and only if no other minute interrupts that minute |
| Rate.AtMostTwiceRpmPerSixtySeconds | crates/refract-api/src/rate.rs:91-122 | at most twice as many in any sixty seconds if and only if these see at most two stays, as they do when no minute comes back |
| Rate.OrderedClockKeepsPromises | crates/refract-api/src/rate.rs:81-122 | with readings in order all answers are the history's and both bounds, per minute and per sixty seconds, hold |
| Rate.RetryLandsOnNextMinute | crates/refract-api/src/rate.rs:92-93 | the advised delay is 1 to 60 seconds and ends on the first second of the next minute |
| Rate.RetryIsAdmitted | crates/refract-api/src/rate.rs:92-93 | a caller who waits as told is admitted, whatever calls come in between, unless its key has been used in that next minute before |
| Notify.EventWorker.Handle | crates/refract-api/src/notify.rs:54-109 | whole new state, attempts to switch off and sent notifications |
| Notify.EventWorker.Notify | crates/refract-api/src/notify.rs:154-175 | whole new dedup table and whether the notification is sent |
| Notify.EveryThirdAuthFailureDisables | crates/refract-api/src/notify.rs:66-81 | per endpoint, attempts since the last success are a third of the auth failures, whatever interleaves |
| Notify.EventSends | crates/refract-api/src/notify.rs:54-175 | what the last event of any run does: switching off exactly at every third credential failure, and which of the three notifications is sent, under which text, if a webhook is configured and it was not sent in the last 300 seconds |
| Notify.DedupFollowsPolicy | crates/refract-api/src/notify.rs:165-175 | every decision is the one the history of deliveries gives, for every pruning age from the window on |
| Notify.PruningIsUnseenFromWindowOn | crates/refract-api/src/notify.rs:165-175 | pruning is unobservable for all ordered attempts if and only if the age is at least the window |
| Notify.DeliveriesAreSpaced | crates/refract-api/src/notify.rs:165-175 | two due attempts with the same key are at least the window apart |
| Notify.SentNoticesAreSpaced | crates/refract-api/src/notify.rs:54-175 | two events of a run that send the same notification are at least 300 seconds apart |
| Notify.NoticeKeyIsInjective | crates/refract-api/src/notify.rs:165 | keys tell apart event, channel name and protocol, colons in names notwithstanding |
| Admin.ChannelRecord.Redact | crates/refract-api/src/admin.rs:64-78 | all three kinds of credentials replaced by their masks, nothing else |
| Admin.RedactionShowsMasksOnly | crates/refract-api/src/admin.rs:64-78 | what leaves has the mask in all three places and is otherwise the channel itself |
| Admin.ChannelRecord.RestoreUnchangedCredentials | crates/refract-api/src/admin.rs:122-162 | default key, pool rows and endpoint keys restored where a stored secret has the mask |
| Admin.RowsComeBackIffTold | crates/refract-api/src/admin.rs:127-145 | pool rows, and a default key moved among them, survive every reordering, duplication and deletion if and only if masks tell the stored secrets apart |
| Admin.RedactThenRestore | crates/refract-api/src/admin.rs:64-162 | redact, edit, restore is the identity on all kept credentials, a default key moved into the pool included, and the mask check then accepts them |
| Admin.CheckAcceptsRealSecrets | crates/refract-api/src/admin.rs:84-116 | the mask check accepts exactly channels without an ellipsis or bullet in any secret |
| Admin.RefusalNamesTheMask | crates/refract-api/src/admin.rs:94-116 | the place a refusal names is masked: the default key first, then the pool, then the first such endpoint |
| Admin.NewSecretsAreKept | crates/refract-api/src/admin.rs:122-162 | a secret that is entered, an inherited endpoint key, and everything else of an endpoint are left as they came |
| Admin.MaskedRowPrefersDefault | crates/refract-api/src/admin.rs:127-145 | a masked row is the default key if that has the mask, else the first pool row that has it, else it stays |
| Admin.AcceptedIffMasksHaveOrigin | crates/refract-api/src/admin.rs:89-162 | for a stored channel without masks, over default key, pool rows and endpoint keys: the restored channel is accepted if and only if every mask stands where the stored channel has a secret with that mask |
| Admin.UnknownMaskIsRefused | crates/refract-api/src/admin.rs:89-162 | a mask in any of the three places that nothing matches is left and then refused, whatever is stored |
| Admin.MasksAreNeverStored | crates/refract-api/src/admin.rs:1930-1986 | no sequence of updates of a created channel ever stores a mask as a secret or an ill-formed channel |
| Routing.WeightedPick | crates/refract-core/src/routing.rs:125-139 | the index whose share of the range holds the draw; the trailing fallback is unreachable |
| Routing.PickIsUnique | crates/refract-core/src/routing.rs:125-139 | a draw falls into one share only |
| Routing.PickIsProportional | crates/refract-core/src/routing.rs:121-139 | as many of all draws pick an index as it weighs, one if it weighs nothing, so none is starved |
| Routing.TotalFits | crates/refract-core/src/routing.rs:129-131 | the sum fits 64 bits for up to 2^32 candidates |

## Left out

- Transcoded streams: their spawned tasks and keep-alive interleavings repeat the relay's state machine.
- HTTP plumbing, TLS, mail, backups, webhook delivery, static assets: input and output only.
- SQL repositories, wallets, health storage, route planner, executor and protocol codecs: the relay takes any decoder and reports the health update it asks for.
- Cryptography and session tickets: external primitives.
- Regex matching, JSON parsing, JSON Pointer and header lookup: parameters of the model; parsed tool arguments are kept as the received text.
- `text_preview` and the logged entry's remaining fields: diagnostics without influence on the outcome.
- Parts of error messages that count or locate (the position in a UTF-8 error, the number of keys in an exhausted pool).
- Lock poisoning and statistics counters beyond 64 bits; several reads of the clock inside one locked method are one reading.
- Registration limiter, brute-force guards and TTL cache: simpler repeats of the windowed limiter.
- Rank keys, protocol tables, metrics, admin CRUD and the web front ends: only easy members.
- Channel.Validate: states that the reported error is a true one, not which of several comes first, as the order of the checks carries no promise.
