# Kwaque: a verified model of its readiness protocol, buffers, codecs and crash limiter

Kwaque is a broker built on a shared-nothing runtime: one shard per core, each
with its own state, and messages between them. This project models four parts
of it in Dafny and proves what they promise for every input, every run or every
reachable state.

**Readiness.** Every shard may hold reasons for the broker not to be ready. A
shard sends its numbered statement to the owner on shard 0, one call at a time;
the owner counts holders, numbers each new union and broadcasts it; a start
samples every shard before any shard is marked started; a shutdown drains. The
model is a labelled transition system over all interleavings of these messages
(`ReadinessProtocol`), and the classes `ReadinessOwner` and `AdminState` carry
the source's fields and in-place updates. The classes and the transition system
use the same functions, and `ReadinessObjects` runs the objects themselves
through any schedule. Proved: agreement at rest, forward-only views, a shutdown
is final, a sampled reason is never overtaken, convergence of every schedule
with a bound, what each observer is told, and exactly when a shard is ready, in
terms of the reports, starts and shutdowns alone.

**Bytes.** A fragment is a window on a heap array; buffers, builders and
copies share arrays in every way the source allows. A builder appends into the
tail of its last array, grows new tails, packs small donations and takes over
large ones. `BuilderOracle.Run` drives any number of builders and buffers
through any operations and proves that each of them presents exactly the bytes a
flat oracle says, that an operation is refused exactly on its grounds, that no
allocation passes its ceiling, that no builder can write what any buffer or any
other builder presents, and that no two builders can write the same array; and
two runs of the same operations differ in nothing but where storage lies. Parsing, bounded export with resumable cursors, deep
copies, and slicing and trimming are proved against flat sequences as well.

**Codecs.** Cooperative work accounts, variable-length and fixed-width integers,
canonicalization of an unordered collection by sorted runs and a heap of their
heads, under memory and work bounds, the
ordered-map reader and writer on real parsers and builders with the round trip
between them, and the cost queries of buffers and slices.

**Crash limiter.** The record on disk, as text, with its round trip, and the
start policy over runs of starts.

Objects the source updates in place are classes, its buffers are arrays, and its
loops are loops; each such method is proved against a function of the old state.
Pure code is functions and lemmas. `dafny verify dfyconfig.toml` checks the
whole project.

## Model

| member | source | states |
|---|---|---|
| Readiness.ReadinessOwner.Apply | src/admin/admin_state.cc:47-73 | one statement updates the owner exactly as the first-principles rule does (newer statements only, union recomputed, a new number exactly when the union changed), and a broadcast is returned exactly then |
| Readiness.ReadinessOwner.Recount | src/admin/admin_state.cc:47-73 | the bit loop over holder counts keeps every count equal to the number of shards holding that reason, with no underflow, and collects exactly the union |
| Readiness.AbsorbAllIsLatest | src/admin/admin_state.cc:47-73 | after any deliveries the owner has, for each shard, the set of the highest-numbered statement delivered |
| Readiness.OwnerIsJoin | src/admin/admin_state.cc:47-73 | two delivery orders of the same statements, with any duplicates, leave the owner with the same sets, sequences, counts and union |
| ReadinessProtocol.StepInv | src/admin/admin_state.cc:159-312 | every step of the protocol keeps its invariant: truthful statements, promises of a message to every shard that is behind, starts no later than what they sampled |
| ReadinessProtocol.RunInv | src/admin/admin_state.cc:159-312 | every state any schedule reaches from the start has the invariant |
| ReadinessTheorems.ReachableQuietAgrees | src/admin/admin_state.cc:190-300 | in every reachable state with nothing in flight and no shard stopped, the owner knows each shard's set and every shard's view is the union of them |
| ReadinessTheorems.RunAdvances | src/admin/admin_state.cc:290-300 | along any run views only move forward through one history of numbered sets, and a number never changes its set |
| ReadinessTheorems.DrainingIsFinal | src/admin/admin_state.cc:168-175 | a shard that has heard the shutdown is never ready again, whatever arrives later |
| ReadinessTheorems.SampledReasonKeepsUnready | src/admin/admin_server.cc:172-182 | a reason reported before a start samples its shard, and not released since, keeps every shard that start hands its set from being ready ever after, whatever else is in flight and whatever other starts do |
| ReadinessTheorems.FirstStartKeepsAllUnready | src/admin/admin_server.cc:172-182 | before anything has started, a reason reported and not released keeps every shard unready whichever start reaches it |
| ReadinessRuns.HeldExactly | src/admin/admin_state.cc:190-203 | in every reachable state a shard holds a reason exactly when it was reported there and not released by a later report, told by the steps alone |
| ReadinessRuns.LifecycleExactly | src/admin/admin_state.cc:153-188 | in every reachable state a shard is in the last stage any step called for (handed a start, heard a shutdown, stopped), whatever order the steps came in, and its gate is closed exactly once it has stopped |
| ReadinessRuns.StoppedSendsNothing | src/admin/admin_state.cc:205-208 | once its gate is closed a shard sends no statement, and the first shard no broadcast |
| ReadinessVerdict.ReadyExactly | src/admin/admin_state.cc:325-328 | in every reachable state a shard is ready exactly when a start has handed it its set, it has neither heard a shutdown nor stopped, and the set it last heard is empty |
| ReadinessVerdict.VerdictAtRest | src/admin/admin_server.cc:172-182 | at rest with no shard stopped every shard gives the verdict the requests call for: ready exactly when a start was begun, no shutdown was, and no reason reported on any shard is unreleased |
| ReadinessConvergence.ScheduleConverges | src/admin/admin_state.cc:205-288 | from any reachable open state every maximal schedule of deliveries and answers ends within a computed number of steps, at rest, with every shard agreeing on the sets held at the beginning |
| ReadinessConvergence.Converges | src/admin/admin_state.cc:205-288 | such a schedule exists, and delivering whatever can be delivered is one |
| ReadinessConvergence.OneMessageEach | src/admin/admin_state.cc:205-288 | at most one statement per shard and one broadcast are ever unanswered |
| ReadinessNotices.RunKeepsUp | src/admin/admin_state.cc:302-312 | over any run an observer is told exactly the changes of readiness and reasons along the states its shard passed through, each once and in order, and the last thing told is how things are |
| ReadinessNotices.ObserverIsTold | src/admin/admin_state.cc:251-255 | from the moment it is set an observer is told exactly the changes that follow |
| ReadinessNotices.StoppedIsSilent | src/admin/admin_state.cc:177-188 | once its shard has stopped it is told nothing more |
| ReadinessObjects.PerformAll | src/admin/admin_state.cc:159-312 | the objects, driven through any schedule at all, are in the state the protocol reaches; at rest with no gate closed they agree with each other, and with no shard stopped each is ready exactly when a start was begun, no shutdown was, and everything reported is released |
| FragmentedBuffers.FragmentedBuffer.Share | src/bytes/fragmented_buffer.cc:370-382 | a slice exists exactly when it lies inside the buffer, presents exactly those bytes and copies none |
| FragmentedBuffers.FragmentedBuffer.ShareFrom | src/bytes/fragmented_buffer.cc:384-417 | from a position inside a fragment the loop gives the canonical windows of the slice, and its fragment ceiling and shortage branches are dead |
| FragmentedBuffers.FragmentedBuffer.TrimFront | src/bytes/fragmented_buffer.cc:463-499 | the remaining windows are exactly the old ones less the first bytes, sums stay exact, and the presentation number moves exactly when something was trimmed |
| FragmentedBuffers.FragmentedBuffer.TrimBack | src/bytes/fragmented_buffer.cc:501-535 | the same from the other end |
| FragmentedBuffers.FragmentedBuffer.ContentEquals | src/bytes/fragmented_buffer.cc:677-717 | two buffers compare equal exactly when their flat bytes are, however either is fragmented |
| FragmentedBuffers.FragmentedBuffer.Moved | src/bytes/fragmented_buffer.cc:80-87 | a moved buffer has all the windows and sums, and the one moved from is empty under a new presentation |
| FragmentedBuffers.FragmentedBuffer.Assign | src/bytes/fragmented_buffer.cc:89-100 | an assigned buffer takes the windows and sums over under a new presentation, the donor is empty under one too, and assigning a buffer to itself changes nothing |
| DeepCopy.Copy | src/bytes/fragmented_buffer.cc:419-461 | a copy presents the same bytes on whole arrays of its own, of exactly the sizes the chunk rule gives, with no more fragments than the ceiling and none above the contiguous ceiling |
| DeepCopy.ChunkSizeIs | src/bytes/fragmented_buffer.cc:56-68 | a small copy is one exact allocation, and a chunk of a larger one is the ceiling or the largest power of two there is room for |
| DeepCopy.CopyOf | src/bytes/fragmented_buffer.cc:170-196 | a caller's bytes become a buffer on arrays of its own, exactly when they are within the size ceiling, in pieces of exactly the contiguous ceiling but for the last |
| ScatterExport.ExportScatter | src/bytes/fragmented_buffer.cc:537-599 | when and how an export is refused, and that a batch presents exactly the next bytes within both caps, short of the end only at a cap; a refusal leaves the cursor where it was |
| ScatterExport.ExportWhole | src/bytes/fragmented_buffer.cc:537-599 | exporting again and again ends, and the batches together present exactly the buffer's bytes |
| ScatterRuns.Run | src/bytes/fragmented_buffer.cc:80-599 | one buffer and any cursors, over any run of exports, trims, donations, moves and replacements, do what a ledger with unbounded presentation numbers says, refusals and their errors included, although the buffer's counter stops at its maximum |
| ScatterRuns.SentInOrder | src/bytes/fragmented_buffer.h:90-106 | whatever happens in between, what a cursor has sent is the front of the one presentation it is bound to |
| ScatterExport.CoveredBytes | src/bytes/fragmented_buffer.cc:537-599 | batches that cover the front of a presentation, each within its own caps, are in bytes exactly that front: no byte missing, none twice |
| ScatterRuns.StaleForGood | src/bytes/fragmented_buffer.h:399-405 | once the buffer has presented anything else, every later export through a bound cursor is refused as an invalid argument |
| SizeClasses.ServedIsCeil | src/bytes/fragmented_buffer_builder.cc:18-47 | the bit arithmetic of the size classes is rounding up to the spacing of the request's power of two |
| SizeClasses.ServedBounds | src/bytes/fragmented_buffer_builder.cc:18-47 | a served size covers the request and is below twice it |
| SizeClasses.ServedMonotone | src/bytes/fragmented_buffer_builder.cc:18-47 | a larger request is never served less |
| SizeClasses.ServedIdempotent | src/bytes/fragmented_buffer_builder.cc:18-47 | what is served is served exactly |
| OpenTail.NextAllocationBounds | src/bytes/fragmented_buffer_builder.cc:116-139 | a new tail is at least the configured first size and what was asked for up to the ceiling, and never above it |
| OpenTail.NextAllocationLeast | src/bytes/fragmented_buffer_builder.cc:116-139 | a new tail is the least exactly served size that covers the request and half again the previous tail, if one is within the ceiling, and otherwise just what is wanted |
| OpenTail.TailsGrow | src/bytes/fragmented_buffer_builder.cc:116-139 | along an append each tail is half as large again as the one before, until the ceiling |
| BuilderSteps.GrowTail | src/bytes/fragmented_buffer_builder.cc:163-196 | a new tail is opened exactly when there is a slot and backing for it, has exactly the size the growth rule gives, and changes nothing that is shown |
| OpenTail.TailsFew | src/bytes/fragmented_buffer_builder.cc:116-139 | the tails an append opens, half as large again each time, are no more than its bytes over the first size call for, and together exceed them by less than the largest tail |
| OpenTail.PlentyAccepts | src/bytes/fragmented_buffer_builder.cc:220-253 | slots and backing in proportion to the bytes are enough for an append, wherever the growth of the tails stands |
| OpenTail.RewindRestores | src/bytes/fragmented_buffer_builder.cc:209-218 | after any number of growth rounds, rewinding to the mark restores the builder's windows and sums exactly |
| OpenTail.PlentyLeft | src/bytes/fragmented_buffer_builder.cc:220-253 | an append uses up its own bytes of the room that is left by slots and backing, and no more |
| BufferBuilder.Builder.Append | src/bytes/fragmented_buffer_builder.cc:220-253 | all the bytes are added or none, and they are added exactly when there are slots and backing for the tails the growth rule opens; the new fragments have exactly those sizes; only spare bytes are written, and everything shown comes from new storage, spare bytes or what was shown |
| BufferBuilder.Builder.AppendFragmentCopy | src/bytes/fragmented_buffer_builder.cc:255-302 | one external range, which may lie on the builder's own array, whole or not at all and exactly when it fits: over the packing threshold it becomes one allocation of its own, up to it it goes into the tail's room, or into a new tail if that is too small |
| BufferBuilder.Builder.AppendBuffer | src/bytes/fragmented_buffer_builder.cc:304-357 | a donated buffer's bytes are appended and it is left empty under a new presentation, or both are as they were, exactly when it does not fit; as many of its leading fragments as the packing threshold and the tail's room allow are copied, the others are spliced in as they are, and no storage is allocated; a donor within that room is always taken, whatever the slots and backing, and adds no fragment |
| OpenTail.SmallDonation | src/bytes/fragmented_buffer_builder.cc:308-328 | a donor that fits the room and the threshold needs neither a slot nor backing |
| OpenTail.AppendsToBounds | src/bytes/fragmented_buffer_builder.cc:163-175 | an append is refused exactly when its outcome would pass the fragment or the retained bound |
| OpenTail.CopiesToBounds | src/bytes/fragmented_buffer_builder.cc:255-302 | and so is a copied range |
| OpenTail.DonatesToBounds | src/bytes/fragmented_buffer_builder.cc:321-328 | and so is a donated buffer |
| BufferBuilder.Builder.AppendFragments | src/bytes/fragmented_buffer_builder.cc:359-392 | exactly the leading fragments go over, uncopied, exactly when they fit; each refusal has its own error and changes nothing |
| BufferBuilder.Builder.Reserve | src/bytes/fragmented_buffer_builder.cc:394-411 | room in the tail as asked, exactly when there is a slot and backing for it; content as it was, and the tail replaced only if it lacked the room, by one of exactly the growth rule's size |
| BufferBuilder.Builder.Share | src/bytes/fragmented_buffer_builder.cc:424-470 | a share of bytes already written presents them and lies outside what the builder may still write |
| BufferBuilder.Builder.Finish | src/bytes/fragmented_buffer_builder.cc:472-498 | publishes exactly the bytes appended, in canonical form, and closes the builder for good |
| BuilderWorld.AllAgree | src/bytes/fragmented_buffer_builder.cc:220-357 | after a step of one builder all the others and every buffer present what they did, and no builder can write what anything presents |
| BuilderOracle.Do | src/bytes/fragmented_buffer_fuzz.cc:87-338 | any operation on any of the builders and buffers is refused exactly on the oracle's grounds with nothing changed, or does what the oracle says to contents, windows and accounts |
| BuilderOracle.Run | src/bytes/fragmented_buffer_fuzz.cc:87-338 | over any run of operations on any number of builders and buffers, all of them present exactly the oracle's bytes, stay within every bound and the 128 KiB ceiling of one allocation, and stay out of each other's reach; each operation is refused exactly on its grounds |
| BuilderReplay.ReplaysAgree | src/bytes/fragmented_buffer_builder.cc:116-498 | two runs of the same operations have the same outcomes, and after every operation the same contents in windows of the same sizes with the same accounts: nothing but the place of storage is left open |
| AppendOnly.AppendAll | src/bytes/fragmented_buffer_builder.cc:220-253 | a builder that is only appended to holds the accepted parts in order, accepts every part there is room for however they are cut, and has no more fragments than its bytes call for |
| BufferParser.Parser.CopyOut | src/bytes/fragmented_buffer_parser.cc:107-142 | through the cached window or the walk, the bytes read are the flat ones, and the malformed-data branches are dead |
| BufferParser.Parser.ReadBuffer | src/bytes/fragmented_buffer_parser.cc:193-206 | an owning slice of the next bytes, and a move past them, or an error and no move |
| BufferParser.Parser.PeekCurrentFragment | src/bytes/fragmented_buffer_parser.cc:208-218 | the rest of the current fragment is a prefix of what is unread, empty only at the end |
| ParserRuns.Run | src/bytes/fragmented_buffer_parser.cc:62-245 | a run of reads, peeks, skips, checkpoints, rollbacks and commits gives a flat parser's replies and ends where it ends, however the input is fragmented |
| ParserRuns.CheckpointsNest | src/bytes/fragmented_buffer_parser.cc:220-245 | whatever is read, skipped or checkpointed in between, a rollback restores the parser as it was at its checkpoint, and a commit forgets the checkpoint and keeps the place |
| ParserRuns.ReadsJoin | src/bytes/fragmented_buffer_parser.cc:162-206 | reads, failed ones among them, give every byte between where they began and where they ended, once and in order |
| FixedWidth.ReadFixed | src/bytes/fragmented_buffer_parser.h:90-118 | a little- or big-endian value is read exactly when its bytes are there, and is the number they stand for |
| FixedWidth.LeRoundTrip | src/bytes/fragmented_buffer_parser.h:90-118 | every value of the width is read back from its bytes |
| FixedWidth.LeUnique | src/bytes/fragmented_buffer_parser.h:90-118 | and from no other bytes |
| CooperativeWork.Work.Admit | src/codec/cooperative.cc:51-92 | a leaf is admitted at its whole cost, or refused uncharged, for an abort or for a cost over the quantum only; between two questions to the reactor there is never more than a quantum of admitted work, no request is free, and the reactor has had the processor whenever it wanted it |
| CooperativeWork.Work.DrainCheckpoint | src/codec/cooperative.cc:148-159 | a checkpoint on the way out refills the account, abort or not |
| CooperativeWork.Work.Drain | src/codec/cooperative.cc:132-146 | cleanup within a quantum cannot fail, abort or not |
| Varuint.ProbeLoop | src/codec/integer.cc:83-135 | the shift-and-or loop finds exactly what the recursive reading finds |
| Varuint.DecodeSound | src/codec/integer.cc:83-135 | a value found is in range and the bytes are its one minimal encoding |
| Varuint.DecodeComplete | src/codec/integer.cc:83-135 | every value in range is found in its encoding, whatever follows |
| Varuint.DecodeBad | src/codec/integer.cc:83-135 | bytes found malformed stay malformed whatever follows |
| Varuint.DecodeShort | src/codec/integer.cc:83-135 | bytes found short can be completed, and are short of the widest encoding |
| Varuint.PartIsShort | src/codec/integer.cc:83-135 | any part of a minimal encoding but the whole is short |
| Varuint.VarLength | src/codec/collection.h:355-357 | the prefix length computed from the width of a count is the length of its encoding |
| OrderedMap.ReadVaruint | src/codec/integer.cc:145-156 | on a parser: a minimal encoding is consumed, anything else moves nothing |
| OrderedMap.ReadOrderedMap | src/codec/collection.h:85-265 | a whole map or none, against a reference reader on flat bytes: all its entries and exactly its bytes consumed, or the parser back where it was with an in-order prefix in the sink and the reference's own error, unless an abort, the quantum or the sink's owner stood in the way |
| OrderedMapWriter.AdmitCount | src/codec/collection.h:325-380 | the checks before anything is written, in their order: passing them gives every stated condition, and short of an abort they fail only where one of those does not hold |
| OrderedMapWriter.WriteCount | src/codec/collection.h:381-385 | the count goes into the reserved room of the tail, opens no tail, and is refused for the total bound only |
| OrderedMapWriter.WriteOrderedMap | src/codec/collection.h:276-421 | what is written is always the front of the map's encoding behind what there was, the reserved prefix holds the count, and with room, quanta and ordered keys only an abort stops it |
| MapCodec.MapRoundTrip | src/codec/collection.h:85-421 | the reference reading of a map's encoding gives back its entries, whatever follows |
| MapCodec.CutMap | src/codec/collection.h:50-66 | any part of a map's encoding but the whole is refused, as truncated while more may come and as malformed data in a complete parent |
| MapCodec.ParseOrdered | src/codec/collection.h:85-265 | whatever the bytes, only strictly increasing keys are taken |
| MapRoundTrip.WriteThenRead | src/codec/collection.h:85-421 | a map written into a builder, published and read back through a parser gives the same entries; exactly what can stop the writing and what can stop the reading |
| CanonicalPlan.ChooseRun | src/codec/collection.h:676-706 | the shrinking search finds the longest run of at most 64 entries and 8 KiB whose one allocation is allowed, or why there is none |
| CanonicalPlan.ValidateMemory | src/codec/collection.h:476-586 | the request list is admitted exactly when every block is allowed and all of them together are within every bound |
| CanonicalPlan.RequestsAreHeld | src/codec/collection.h:519-576 | the requests are exactly the blocks that will be held: one for each run at its own length, the vector of the runs, the heap, the chunks of the input and one ahead, and the chunks of the output |
| Canonicalize.BuildRuns | src/codec/collection.h:752-806 | entries are neither lost nor duplicated between the input and the sorted runs, on success and on abort, and there are as many runs, of the lengths, that were planned for |
| Canonicalize.MergeNext | src/codec/collection.h:823-850 | one step of the merge takes the least of all that is left, and its comparisons and swaps are within the items it was admitted for |
| Canonicalize.SortAndMerge | src/codec/collection.h:707-850 | what is held by the end of a merge, told by the runs it was made of and by the output, fits every bound |
| RunHeap.PushHeap | src/codec/collection.h:807-821 | the last entry of the vector rises to its place: a heap of the same entries, in no more than two steps a level |
| RunHeap.PopHeap | src/codec/collection.h:833-835 | the entry taken out comes before none of the others, and the others are a heap, in no more than three steps a level and one more |
| RunHeap.TopIsLeast | src/codec/collection.h:654-657 | under the reversed comparison the top of a heap is its least entry |
| RunHeap.PopRun | src/codec/collection.h:833-835 | the head taken out comes before nothing that is left of any run, and what is left of its run leaves with it |
| RunHeap.PushNext | src/codec/collection.h:843-849 | what follows a taken head goes back, nothing is lost, and nothing left comes before the taken head |
| Canonicalize.Merge | src/codec/collection.h:607-918 | the merge gives a strictly increasing arrangement of the runs' entries, or malformed data exactly when two of them are equivalent |
| Canonicalize.CanonicalizeUnordered | src/codec/collection.h:607-918 | a strictly increasing arrangement of the source when no two entries are equivalent, malformed data only when two are, and otherwise only an abort or an exactly stated bound can refuse it |
| BufferCost.AllocationCost | src/bytes/fragmented_buffer.cc:214-277 | an accounting of a range exists exactly when it is payable, and is the sum of what each fragment keeps alive |
| BufferCost.RangeCostIs | src/bytes/fragmented_buffer.cc:221-277 | category by category: the descriptor block once, and for every fragment of the range the backing it keeps alive and one share control |
| BufferCost.LargestBounds | src/bytes/fragmented_buffer.cc:25-46 | no single charge is larger than the largest reported |
| BufferCost.LargestIsCharged | src/bytes/fragmented_buffer.cc:25-46 | and the largest reported is one of them |
| BufferScan.BufferInputCost | src/codec/buffer_cost_internal.h:22-86 | scanning in admitted batches gives the accounting of the whole buffer whatever the batch size, and fails only for an abort, too small a quantum or an unpayable buffer |
| SliceCost.SliceAllocationCost | src/bytes/fragmented_buffer.cc:291-304 | the cost of a slice by offset is that of the fragments it touches |
| SliceCost.SliceCostFrom | src/bytes/fragmented_buffer.cc:306-368 | the same from a position inside a fragment |
| SliceCost.SliceDueIs | src/bytes/fragmented_buffer.cc:347-366 | category by category: the touched fragments, and one exact descriptor block for a share of the whole buffer or two blocks twice as large for any other |
| SliceCost.NextBufferCost | src/bytes/fragmented_buffer_parser.cc:184-191 | a parser's query gives the answer by the absolute offset it stands at |
| CrashRecord.RecordRoundTrip | src/broker/crash_limiter.cc:67-127 | every valid record is read back from its text |
| CrashRecord.EncodedShape | src/broker/crash_limiter.cc:105-127 | the text is the header and four lines: count, time and configuration checksum, and the hexadecimal checksum of all before it |
| CrashRecord.DecodeSound | src/broker/crash_limiter.cc:67-98 | whatever the text, what is accepted is a valid record of four lines that its last line covers |
| CrashRecord.RecordFits | src/broker/crash_limiter.cc:105-127 | no record outgrows the metadata limit |
| CrashLimiter.LimitPlusOne | src/broker/crash_limiter.cc:230-257 | starts of one configuration, none more than an hour after the recorded one, from any record they do not continue: exactly the first limit + 1 are admitted, however many are tried, and the record counts those and keeps the time of the last; without a finite limit all are |
| CrashLimiter.AdmittedAgain | src/broker/crash_limiter.cc:230-257 | after them one more is admitted exactly when it has another configuration or is more than an hour after the last recorded start, and then the count is one again |
| CrashLimiter.RefusedExactly | src/broker/crash_limiter.cc:230-257 | a start is refused exactly when a record of the same configuration, no more than an hour old, has a count over a finite limit; any other counts one, or one more up to the widest count |
| CrashLimiter.CountsAgain | src/broker/crash_limiter.cc:230-257 | whatever went before, a changed configuration or an expired record is admitted and counted from one, and from there the limit holds as it did at first |
| CrashLimiter.RefusalsKeepExpiry | src/broker/crash_limiter.cc:230-257 | refused starts change nothing and never postpone the expiry |
| CrashLimiter.LimitPlusOneExactly | src/broker/crash_limiter.cc:230-257 | of starts an hour or less apart exactly limit + 1 are admitted if and only if no later one is more than an hour after the last of those |
| CrashLimiter.CloseStartsCanExpire | src/broker/crash_limiter.cc:230-257 | starts an hour or less apart that pass the limit |
| CrashLimiter.Limiter.Start | src/broker/crash_limiter.cc:279-334 | one attempt per limiter; which error when; the record changes exactly when the attempt is recorded, and then as the policy says |
| CrashLimiter.Limiter.RecordCleanShutdown | src/broker/crash_limiter.cc:341-371 | a recorded attempt is forgotten, and nothing else is |
| CrashLimiter.StartAgain | src/broker/crash_limiter.cc:161-334 | a process that starts again and again over one directory, under any configurations, is admitted exactly as often as the policy over the starts says, through encoding, writing, reading and decoding |

## Findings

A natural reading of the crash-loop limit is that of starts an hour or less
apart exactly limit + 1 are admitted. That is false of the code: a refused start
is not recorded, so the hour runs from the last recorded start, not from the
last try. With limit 0, starts at 0, one hour, and one hour plus a millisecond
are all within an hour of the one before, and two of them are admitted
(`CrashLimiter.CloseStartsCanExpire`). The reading holds if and only if no start
after the first limit + 1 is more than an hour after the last of those
(`CrashLimiter.LimitPlusOneExactly`).

## Left out

- Wrap-around of 64-bit readiness sequences and versions: they are unbounded here. The presentation counter of a buffer, which the source saturates, is modelled with its width.
- Startup durations, metrics, HTTP handlers and the futures that carry messages: a message is a step of the transition system.
- Allocation failures and other exceptions; moves of builders; custom deleters of storage.
- Linearizing a buffer, copying it to a span and conversion to network packets: each would add only an easy member.
- ScatterExport.ExportScatter: the second position check of the source's loop is not repeated, because a tracked cursor always passes the first.
- BufferCost.AllocationCost: the capacity of the descriptor block is a parameter, because it comes from the growth policy of the vector, and the charge function is always given.
- BufferScan.BufferInputCost: where the whole and a batch both fail, the batch's error may be the other of the two codes, because the source stops at the first failing batch.
- OrderedMap.ReadOrderedMap: the callbacks are codecs that see the unread bytes; the decode budget they share and the coordinates in errors are not modelled.
- OrderedMapWriter.WriteOrderedMap: the write callbacks append what an encoding function gives; their own failures other than a full builder are not modelled.
- RunHeap.PopHeap: sinks an entry by swaps, where a library may move a hole; and Orders.SortRun sorts by insertion. Both are what the standard library's operations promise.
- Varuint.ProbeLoop: the bitwise or of disjoint groups is written as the sum it equals, and so is the fold in FixedWidth.ReadFixed.
- CrashLimiter.Limiter.Start: files, directories, synchronization to disk and the clock are parameters or a value in memory; the checksum function is any function into 32 bits.
- Configuration, storage, networking and the rest of the broker.
