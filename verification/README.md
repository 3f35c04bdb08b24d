# Verified model of miniperf

This project models the hard core of miniperf in Dafny and proves what it is built on.

- **Trace collector.** Producer threads enter through a guard, check the `accepting` gate and append tagged
  records to a buffer in a per-thread slot. Full buffers travel through a bounded queue to one writer, which
  decodes, batches and recycles them; shutdown stops acceptance, waits for quiescence, drains, closes and
  joins. `Collector` is an interleaving machine with one step per lock-protected section or observable atomic
  operation. `CollectorThreads`, `CollectorShutdown`, `CollectorBuffers`, `CollectorAccounting` and
  `CollectorOrder` hold the inductive invariants, `CollectorTheorems` the results over every run,
  `CollectorInputs` what becomes of every caller's input, told by a ledger that reads the steps alone,
  `CollectorDrops` when nothing is dropped, `CollectorFlush` what a flush brings to the writer,
  `CollectorSends` the packets, `CollectorProgress` the completion of shutdown.
  `BufferQueue` and `CollectorSlot` are the queue and the slot's critical section as classes that change their
  fields; the latter is proved to do what the machine's steps do. `TraceRecord` is the byte format of a buffer.
- **Allocation packets.** `Words` and `AllocationPacket`: the versioned codec and its validation.
- **Viewer analyses.** `Intervals`, `RegionSpans`, `RegionLanes`, `RegionTree`, `RegionData`, `RegionNesting`: span
  reconstruction, lanes, parents, self time and interval selections. `CallTree` and `FunctionTable`: call
  trees and the function table. `CpuTime` and `CpuBalance`: CPU time by bucket and by thread; `CpuInstants` measures
  both by counting instants. `Grid`: adaptive bin widths and the folded heatmap.
- **Metric language and counters.** `FormulaSyntax`, `FormulaParser`, `FormulaTheorems`: the formula parser.
  `TopDown` and `TopDownReads`: coherent counter groups, in-order evaluation and what a metric reads.
  `Evaluation`: evaluation against a stack machine and against the laws of real arithmetic. `Modular` and
  `EventTimer`: 64-bit wrapping time and counter conversion.

Machine integers are bounded by types (`u32`, `u64`) or by explicit `Min`/`%` where the code saturates or
wraps. Viewer weights held as floating-point numbers are exact reals; formula evaluation takes its arithmetic
as a parameter, so it says nothing about, and covers, floating point.

Some expectations one might have of the code are false, and are kept as results, each with the condition under
which it holds, exact unless the entry says otherwise:

- A span that contains another need not have the smaller depth (`RegionNesting.CrossingBreaksNesting`). It has,
  on any thread, if it is complete and no later container of the other outlasts it (`RegionTree.ContainedBelow`),
  and that condition cannot be weakened (`RegionNesting.AboveExactly`, `CrossThreadBelow`).
- The comment above `fold_period` (mperf-gui/src/profile_analysis.rs:1420) says that one second stays the cap of
  a row. The code applies no cap: rows exceed a second exactly for recordings over a minute
  (`Grid.OneSecondExactly`, `Grid.TwoMinutesExceedSecond`).
- Clipping an empty query can yield an empty piece (`Intervals.EmptyQueryYieldsPiece`, `IntersectionsProper`).
- The time conversion loses bits for some shifts above 32 (`EventTimer.WideShiftLoses`, `TimeDeltaExactly`).
- The heatmap and the thread balance differ on counter deltas without an interval start
  (`CpuBalance.OrphanTimeMissing`, `HeatmapMatchesBalance`, `LaneMatchesThread`).
- Validation does not keep a metric away from events of another group when a metric shares an event's name
  (`TopDown.ShadowingReadsOutside`). A metric that names no earlier metric stays within its support exactly if
  its variables do (`TopDownReads.DirectExactly`). With metric names given once and used only afterwards, any
  metric does exactly if all it can read lies there (`TopDownReads.DecidedExactly`). In other scenarios that is
  proved sufficient (`TopDownReads.ReadsDecide`), and necessary only for names a metric mentions itself and no
  earlier metric is called (`TopDownReads.ReadOutside`).

## Model

| member | source | states |
|---|---|---|
| CollectorTheorems.InvStep | collector-core/src/session.rs:317-410 | every step of every thread keeps the whole invariant: slot ownership, producer count, shutdown phase, buffer flow, counters, order |
| CollectorTheorems.ReachableInv | collector-core/src/session.rs:317-652 | the invariant holds in every state of every interleaving |
| CollectorTheorems.Quiescence | collector-core/src/session.rs:473-487 | once `finish` has seen no producers, no later step of any run appends to a slot or changes a counter, whoever enters afterwards |
| CollectorTheorems.AllocationsAccountedFor | collector-core/src/session.rs:594-652 | when the writer has ended with a sender attached, the footer exists, its four counters are the final ones, and produced = delivered records + channel drops + producer drops + paused |
| CollectorTheorems.DropsAccountedFor | collector-core/src/session.rs:367-410 | in every reachable state Loss-row values plus pending slot drops equal `total_dropped`, except for drops a thread is between counting in the slot and in the total |
| CollectorTheorems.ExactlyOnce | collector-core/src/session.rs:536-593 | what the writer has decoded from a slot is always a prefix of what was appended to it, and all of it once the writer has ended |
| CollectorTheorems.DecodedInOrder | collector-core/src/session.rs:317-353 | allocation sequence numbers decoded from a thread-owned slot strictly increase |
| CollectorTheorems.BufferConservation | collector-core/src/buffer.rs:18-92 | pool, queue, slots and writer together hold exactly 64 buffers, pooled ones are empty, none of them anywhere exceeds its size, and all are pooled when the writer has ended |
| CollectorInputs.InputsAccountedFor | collector-core/src/session.rs:317-410 | in every run the inputs of the calls let in while not paused, events cut to 64 frames and allocations numbered in order, are each once among the non-Loss items stored in the slots, the items threads still carry, and the items dropped, which the two drop counters count; numbers given out and allocations turned away are those of the steps |
| CollectorInputs.UnpausedCountsNone | collector-core/src/session.rs:328-331 | a run without a pause command counts no allocation as paused |
| CollectorInputs.LosslessRun | collector-core/src/session.rs:317-593 | when the writer has ended and nothing was dropped, it has decoded exactly those inputs, each once |
| CollectorInputs.FooterTellsInputs | collector-core/src/session.rs:640-652 | the footer told from the steps: numbers given out, allocations turned away while paused, allocations among the inputs dropped |
| CollectorDrops.NoLossWhilePoolLasts | collector-core/src/session.rs:336-410 | in a run where every thread that asks for a buffer finds one in the pool nothing is dropped, and the writer ends having decoded exactly the inputs kept |
| CollectorFlush.StepForward | collector-core/src/session.rs:355-362 | no step of any thread takes back what a slot has stored or submitted |
| CollectorFlush.FlushHandsOver | collector-core/src/session.rs:355-362 | once the writer polls again after a flush command or an idle wait, every item stored before is decoded or queued, whatever other threads did meanwhile |
| CollectorSends.PacketsSent | collector-core/src/session.rs:594-611 | in every reachable state the decoded buffers have been sent in order, 512 records to a packet with only the last one shorter; deliveries are the packets that arrived, channel drops the records of the others, and the rest of the current buffer is still to send |
| CollectorSends.LosslessChannel | collector-core/src/session.rs:594-611 | when the channel has lost nothing the deliveries put together are the allocations of the decoded buffers, in order |
| CollectorProgress.ShutdownCompletes | collector-core/src/session.rs:473-487 | from every reachable state after the stop, whatever threads, writer and `finish` are in the middle of, a run of their own steps, without a new thread, call or command, reaches the join |
| CollectorProgress.ShutdownNeverStuck | collector-core/src/session.rs:473-487 | in every such state before the join one of those steps is possible and lowers a well-founded measure of thread positions, slots to drain, outstanding buffers, writer position and unsent records |
| CollectorProgress.ClosedStepAdvances | collector-core/src/session.rs:484-486 | once the queue is closed every step of the session's own work lowers that measure |
| CollectorProgress.ClosedRunBounded | collector-core/src/session.rs:484-486 | after the close, in any run without a flush command, writer and `finish` take at most a number of steps fixed by queued records, buffers and slots, and one of theirs is possible until the join |
| CollectorProgress.OthersKeep | collector-core/src/session.rs:319-321 | new threads and calls, threads going away, producer steps, pause and resume leave that number as it is |
| CollectorBuffers.KeepsFlow | collector-core/src/session.rs:336-409 | each slot's decoded items followed by those in its queued, held and current buffers are exactly its appended items, through every step |
| CollectorBuffers.StoredFits | collector-core/src/session.rs:372-409 | a record stored after the room test fits its buffer even when a Loss row precedes it |
| CollectorShutdown.NobodyInside | collector-core/src/session.rs:822-833 | a producer count of zero means no thread is past the gate |
| CollectorShutdown.OutsideStep | collector-core/src/session.rs:319-321 | with acceptance off, a thread outside the gate changes nothing but itself and the producer count |
| CollectorAccounting.KeepsAccounts | collector-core/src/session.rs:317-410 | every step keeps the books of produced allocations and of dropped events |
| CollectorAccounting.KeepsFooter | collector-core/src/session.rs:640-652 | the counters the writer loads one after another are already final |
| CollectorOrder.KeepsOrder | collector-core/src/session.rs:324-353 | every step keeps the allocations stored in a thread-owned slot ascending and below the counter |
| CollectorSlot.Session.MakeRoom | collector-core/src/session.rs:336-345 | a buffer with room is kept; otherwise it is submitted and replaced by one from the pool, or by none if the pool is exhausted |
| CollectorSlot.Session.RecordEvent | collector-core/src/session.rs:372-409 | the critical section, with its Loss row and drop counts, leaves slot, queue and totals as the machine's roll, refill, write and count steps do |
| CollectorSlot.Session.RecordAllocation | collector-core/src/session.rs:336-352 | the same for an allocation, which leaves pending drops alone |
| BufferQueue.Queue.constructor | collector-core/src/buffer.rs:38-47 | a new queue is open, has nothing full and 64 empty buffers |
| BufferQueue.Queue.Acquire | collector-core/src/buffer.rs:50-52 | takes the pool's last buffer, or none when the pool is empty |
| BufferQueue.Queue.Submit | collector-core/src/buffer.rs:55-58 | appends to the full queue and changes nothing else |
| BufferQueue.Queue.Recycle | collector-core/src/buffer.rs:61-64 | returns the buffer emptied to the pool |
| BufferQueue.Queue.Poll | collector-core/src/buffer.rs:68-86 | one pass of `next_full`: the oldest full buffer, or the end if closing, or a wait |
| BufferQueue.Queue.Close | collector-core/src/buffer.rs:88-91 | marks the queue as closing and nothing else |
| TraceRecord.Append | collector-core/src/session.rs:490-499 | appends tag 0, header and frames to what is there |
| TraceRecord.DecodeBuffer | collector-core/src/session.rs:536-593 | the offset-driven loop yields exactly the events and allocations of the buffer's items, on any bytes |
| TraceRecord.DecodeFrames | collector-core/src/session.rs:560-568 | reads as many of the announced frames as the buffer holds |
| TraceRecord.EventRoundTrip | collector-core/src/session.rs:32-47 | a record header decodes from its bytes unchanged |
| TraceRecord.EventLayout | collector-core/src/session.rs:32-47 | where each field of a record header lies in its bytes |
| TraceRecord.BufferRoundTrip | collector-core/src/session.rs:490-593 | a buffer of appended items decodes to exactly those items: the loop neither stops early nor skips |
| TraceRecord.AppendDecodes | collector-core/src/session.rs:490-593 | appending items to a well-coded buffer appends exactly those items to what it decodes to |
| Words.DecodeOfEncodeWords | shmem/src/allocation.rs:59-80 | little-endian words decode to themselves |
| Words.EncodeOfDecodeWords | shmem/src/allocation.rs:82-115 | any whole number of words re-encodes to the same bytes |
| Words.ByteAt | shmem/src/allocation.rs:59-80 | byte i of a little-endian word is the word divided by 256^i, modulo 256 |
| AllocationPacket.DecodeRecordLoop | shmem/src/allocation.rs:82-115 | the decoding loop with its checks computes the record the words stand for, or none |
| AllocationPacket.EncodePacketLoop | shmem/src/allocation.rs:131-149 | the encoding loops write magic, header words and records in order |
| AllocationPacket.RecordRoundTrip | shmem/src/allocation.rs:59-115 | an encoded record decodes to itself exactly if the receiver's bounds hold, otherwise to nothing |
| AllocationPacket.RecordCanonical | shmem/src/allocation.rs:82-115 | bytes that decode re-encode to the same bytes |
| AllocationPacket.PacketRoundTrip | shmem/src/allocation.rs:131-176 | an encoded batch of any length decodes to itself exactly if every record is acceptable |
| AllocationPacket.PacketCanonical | shmem/src/allocation.rs:151-176 | any packet that decodes re-encodes to exactly the same bytes |
| AllocationPacket.PacketUnique | shmem/src/allocation.rs:151-176 | no two packets mean the same batch |
| AllocationPacket.RecordLayout | shmem/src/allocation.rs:14-80 | which word of an encoded record holds which field |
| AllocationPacket.PacketLayout | shmem/src/allocation.rs:131-149 | where magic, version, header counters and each record lie in a packet |
| Intervals.Merge | mperf-gui/src/regions.rs:91-106 | the sort-and-extend loop computes the merged list |
| Intervals.MergedExact | mperf-gui/src/regions.rs:91-106 | merged ranges are sorted, non-empty, strictly separated and have the same union |
| Intervals.ContainsExact | mperf-gui/src/regions.rs:63-69 | the last range that starts no later covers the instant exactly if some range does |
| Intervals.IntersectionsExact | mperf-gui/src/regions.rs:71-89 | clipping a non-empty query gives separated pieces inside it that cover exactly the common instants |
| Intervals.EmptyQueryYieldsPiece | mperf-gui/src/regions.rs:71-89 | an empty query can yield an empty piece |
| Intervals.IntersectionsProper | mperf-gui/src/regions.rs:71-89 | all pieces are non-empty exactly if the query is, or no range reaches around it |
| RegionSpans.PairSpans | mperf-gui/src/regions.rs:240-286 | the pairing loop over begin and end events computes, for each begin and each unmatched end, the span up to the next event of its key |
| RegionSpans.SpansWellFormed | mperf-gui/src/regions.rs:240-286 | every span is a forward range inside the recording |
| RegionLanes.SortSpansExact | mperf-gui/src/regions.rs:287-295 | the spans are put in order and are the same multiset |
| RegionLanes.OrderIsLexicographic | mperf-gui/src/regions.rs:287-295 | that order is the lexicographic one of start, later end first, process, thread and instance |
| RegionLanes.CollectIdentities | mperf-gui/src/regions.rs:296-300 | the map from process and instance to the last span with them |
| RegionLanes.FindRecorded | mperf-gui/src/regions.rs:316-328 | the recorded parent, if that instance was seen in the process, comes earlier, and is of another thread or encloses the span |
| RegionLanes.FindContainer | mperf-gui/src/regions.rs:305-310 | the innermost running complete span that ends no earlier |
| RegionLanes.FreeLane | mperf-gui/src/regions.rs:311-314 | the first depth from the base that no running span has; the search ends |
| RegionLanes.ParentExactly | mperf-gui/src/regions.rs:316-328 | a parent is the last span of the process with the recorded instance where that is admissible, and otherwise the innermost complete running span around; none exactly if neither exists |
| RegionLanes.LaneExactly | mperf-gui/src/regions.rs:301-315 | a depth is the lowest at or above one more than the container's, or zero, that no running span of the thread has |
| RegionLanes.Arrange | mperf-gui/src/regions.rs:296-328 | the loop with its identity map and active stacks gives every span its parent and its depth as these statements, by quantifiers over all spans, describe them |
| RegionTree.ParentForest | mperf-gui/src/regions.rs:316-328 | a parent comes before its child, is of the same process, and encloses it if of the same thread |
| RegionTree.ProperColouring | mperf-gui/src/regions.rs:301-328 | overlapping spans of one thread never share a depth |
| RegionTree.ContainerAbove | mperf-gui/src/regions.rs:305-314 | the container of a span has a smaller depth |
| RegionTree.LanesDetermined | mperf-gui/src/regions.rs:301-328 | the spans alone determine the depths |
| RegionTree.ContainedBelow | mperf-gui/src/regions.rs:301-328 | on any thread a complete span is above one it contains unless a later container of that one outlasts it |
| RegionNesting.AboveExactly | mperf-gui/src/regions.rs:301-328 | for complete spans a and b, a containing b, and a container k of b that starts in between: a is above b in every recording if and only if k ends no later than a, or a starts at time zero |
| RegionNesting.AboveFromZero | mperf-gui/src/regions.rs:301-328 | a span from time zero is above everything that starts while it runs |
| RegionNesting.CrossThreadBelow | mperf-gui/src/regions.rs:301-314 | for every span that ends on another thread and every later span it contains, a recording in which it is below |
| RegionNesting.CrossingBreaksNesting | mperf-gui/src/regions.rs:240-328 | ten events whose five complete spans get depths 0, 1, 2, 0, 1 although the third contains the fifth |
| RegionTree.NestedLanes | mperf-gui/src/regions.rs:301-328 | on a thread without crossings every span still running has the smaller depth |
| RegionTree.CollectChildren | mperf-gui/src/regions.rs:329-348 | collects and merges the complete same-thread child ranges of every span |
| RegionTree.SelfRanges | mperf-gui/src/regions.rs:398-414 | the cursor loop computes the gaps the children leave |
| RegionTree.ChildTimeWithin | mperf-gui/src/regions.rs:329-348 | merged child ranges lie in the span and cover exactly the instants of its complete same-thread children |
| RegionTree.SelfPartition | mperf-gui/src/regions.rs:387-414 | self ranges and child ranges partition the span, and the saturating subtraction for self time never saturates |
| RegionTree.EveryInstantOwned | mperf-gui/src/regions.rs:329-414 | every instant a thread's spans cover is in the self ranges of at least one of them |
| RegionTree.OwnedOnce | mperf-gui/src/regions.rs:329-414 | and of exactly one when the thread's spans are complete, properly nested and without explicit parents |
| RegionData.BuildNodes | mperf-gui/src/regions.rs:356-397 | each node lists exactly its spans with their counts, inclusive and self totals, and child lists match parent links |
| RegionData.NodeIsPath | mperf-gui/src/regions.rs:356-382 | two spans share a node exactly if their paths of events from the root are equal |
| RegionData.SelectIntervals | mperf-gui/src/regions.rs:129-148 | the merged index contains an instant exactly if a selected complete span of that thread covers it |
| RegionData.LoadedWellFormed | mperf-gui/src/regions.rs:213-295 | the spans of any time-ordered event list satisfy what the tree results need |
| RegionData.LoadRegions | mperf-gui/src/regions.rs:192-426 | the whole reconstruction from events: spans, parents, lanes, self ranges and nodes as specified |
| CallTree.StepDown | mperf-gui/src/profile_analysis.rs:383-408 | one frame down finds or creates the one child for that frame and adds the weight there |
| CallTree.AddWalk | mperf-gui/src/profile_analysis.rs:371-410 | adding a sample adds its weight to exactly the nodes of its prefixes and its self weight to its end |
| CallTree.BuildTree | mperf-gui/src/profile_analysis.rs:330-410 | the loop keeps shape, counts and completeness of the tree against a listing of the nodes' paths |
| CallTree.Build | mperf-gui/src/profile_analysis.rs:330-429 | read from the nodes alone: the nodes are the root and exactly one for each prefix that carries weight; inclusive is the total weight of samples with the node's path as prefix and self of samples equal to it, both capped at the largest word |
| CallTree.PathsDistinct | mperf-gui/src/profile_analysis.rs:369-404 | two nodes never stand for the same stack prefix |
| FunctionTable.BuildFunctions | mperf-gui/src/profile_analysis.rs:573-666 | inclusive counts samples that contain the function, recursion once; self counts samples that end in it |
| FunctionTable.NodeBalance | mperf-gui/src/profile_analysis.rs:330-429 | in the tree `Build` returns, inclusive equals self plus the children's inclusive at every node, short of overflow |
| FunctionTable.TableAndTreeAgree | mperf-gui/src/profile_analysis.rs:330-666 | with unit weights the table's counts are the tree's weights over outermost prefixes, over all prefixes ending in the function, and at depth one of the inverted tree |
| FunctionTable.NodesShowTable | mperf-gui/src/profile_analysis.rs:330-666 | the same read off the fields and parents of the trees `Build` returns |
| FunctionTable.CountsPermute | mperf-gui/src/profile_analysis.rs:342-357 | the counts do not depend on the order of the samples |
| CpuTime.PiecesExact | mperf-gui/src/profile_analysis.rs:166-176 | an observation's pieces are separated and cover exactly its interval inside the range and the selected regions |
| CpuTime.BoundsExact | mperf-gui/src/profile_analysis.rs:951-956 | the saturating bucket bounds are the exact ones |
| CpuTime.AddBucket | mperf-gui/src/profile_analysis.rs:951-963 | one bucket gains the share of the piece's time inside it |
| CpuTime.AttributePiece | mperf-gui/src/profile_analysis.rs:937-964 | walking from the first to the last touched bucket adds to every bucket its exact share, and the clamp changes nothing |
| CpuTime.Attribute | mperf-gui/src/profile_analysis.rs:897-965 | an eligible observation adds to every bucket what its definition by overlap gives |
| CpuTime.BucketsConserve | mperf-gui/src/profile_analysis.rs:897-965 | over all buckets an interval adds the share of its weight that its covered part is of it, and a point its weight |
| CpuInstants.BucketExact | mperf-gui/src/profile_analysis.rs:937-964 | what an interval adds to a bucket, times the interval's length, is its weight times the number of its instants in the bucket, the range and the selected regions |
| CpuInstants.IntervalConserves | mperf-gui/src/profile_analysis.rs:897-965 | the same over all buckets, with all its instants in range and regions |
| CpuInstants.WholeInterval | mperf-gui/src/profile_analysis.rs:897-965 | an interval inside the range and without a region filter adds exactly its weight |
| CpuInstants.LegacyCountsInstants | mperf-gui/src/profile.rs:89-99 | a legacy observation adds one nanosecond for each instant of the weight-long stretch before its time that counts |
| CpuInstants.PointExact | mperf-gui/src/profile_analysis.rs:908-916 | a point adds its weight to the one bucket that holds it and nothing elsewhere |
| CpuInstants.EligibleExactly | mperf-gui/src/profile_analysis.rs:850-877 | an observation is eligible exactly if it has weight and an instant of its interval, or its point, lies in the range |
| CpuBalance.ChooseBuckets | mperf-gui/src/profile_analysis.rs:836-851 | the buckets cover the range without an empty one; a chosen width is the least 1/2/5 width that keeps to the requested number |
| CpuBalance.BuildHeatmap | mperf-gui/src/profile_analysis.rs:830-966 | a heatmap exists exactly for a non-empty range, a non-zero bucket length and an eligible observation; the lanes are exactly those observations use, and every logical CPU; every bucket of every lane is the sum of its observations' shares |
| CpuBalance.LaneConserves | mperf-gui/src/profile_analysis.rs:886-966 | a lane's buckets add up to the contributions of its observations |
| CpuBalance.WeightOf | mperf-gui/src/profile_analysis.rs:1164-1196 | the weight one observation adds to the balance |
| CpuBalance.BuildBalance | mperf-gui/src/profile_analysis.rs:1164-1196 | per thread, the sum of the weights of the observations taken, and an entry for exactly the threads that have one |
| CpuInstants.BalanceExact | mperf-gui/src/profile_analysis.rs:1164-1196 | the weight an interval adds to the balance, times its length, is its weight times the number of its instants in range and regions |
| CpuInstants.BalancePoint | mperf-gui/src/profile_analysis.rs:1168-1195 | an observation without an interval is taken exactly if its time is in range, and counts in full |
| CpuBalance.PartsAgree | mperf-gui/src/profile_analysis.rs:850-1196 | observation by observation the two analyses differ only on counter deltas in range without an interval start |
| CpuBalance.HeatmapMatchesBalance | mperf-gui/src/profile_analysis.rs:830-1196 | the totals differ by exactly those observations' weights, so they agree if and only if none of them has weight |
| CpuBalance.LaneMatchesThread | mperf-gui/src/profile_analysis.rs:830-1196 | with thread lanes, per thread: the difference is the weight of that thread's such observations, and lane and balance agree if and only if none of them has weight |
| CpuInstants.LaneMatchesCpu | mperf-gui/src/profile_analysis.rs:830-966 | with CPU lanes, a lane's buckets add up to what the observations on that CPU contribute |
| CpuBalance.OrphanTimeMissing | mperf-gui/src/profile_analysis.rs:850-1196 | two observations of one thread for which the balance shows 5 ns and the heatmap 2 ns |
| CpuBalance.NoHeatmapOnlyOrphans | mperf-gui/src/profile_analysis.rs:875-877 | without an eligible observation the balance holds only those observations |
| Grid.NiceBinWidth | mperf-gui/src/profile_analysis.rs:1427-1444 | the least 1/2/5 times a power of ten at or above the minimum, below 2.5 times it unless equal, and the largest word above 10^19 |
| Grid.FirstReaching | mperf-gui/src/profile_analysis.rs:1437-1443 | the first of 1, 2, 5 and 10 times the magnitude that reaches the minimum is that least width |
| Grid.DivCeilExact | mperf-gui/src/profile_analysis.rs:1412-1417 | the least number of divisors that covers the value |
| Grid.FoldPeriod | mperf-gui/src/profile_analysis.rs:1418-1425 | the least 1/2/5 width of which sixty cover the duration, at most one second if and only if the duration is at most one minute |
| Grid.OneSecondExactly | mperf-gui/src/profile_analysis.rs:1418-1425 | that if-and-only-if for any such width |
| Grid.TwoMinutesExceedSecond | mperf-gui/src/profile_analysis.rs:1418-1425 | a two-minute recording gets rows of two seconds |
| Grid.ChooseShape | mperf-gui/src/profile_analysis.rs:212-234 | at most 60 rows and the allowed columns, rows cover the range and columns a row; the target is half a row's samples within its limits, the width the least 1/2/5 width of which the target covers a row, and the numbers of rows and columns the least that cover |
| Grid.OneCell | mperf-gui/src/profile_analysis.rs:247-257 | every instant of the range lies in exactly one cell, the one computed |
| Grid.BuildFlameScope | mperf-gui/src/profile_analysis.rs:205-273 | a grid exists exactly for a non-empty range and has that shape for the accepted samples in range; every cell counts exactly the samples in its stretch of time, and they sum to the total, which is every accepted sample in range |
| FormulaParser.Cursor.Whitespace | pmu-data/src/arith_parser.rs:226-230 | the cursor stops at the first character that is not white space |
| FormulaParser.Cursor.Identifier | pmu-data/src/arith_parser.rs:196-211 | the longest run of word characters, if it has a letter |
| FormulaParser.Cursor.Number | pmu-data/src/arith_parser.rs:213-224 | the longest run of digits and dots, if it is a number |
| FormulaSyntax.CharacterClasses | pmu-data/src/arith_parser.rs:196-230 | letters, digits, word and space characters, by code point |
| FormulaSyntax.LiteralExactly | pmu-data/src/arith_parser.rs:213-224 | a text is a number exactly if it is digits, or digits with one dot before, among or after them |
| FormulaParser.Cursor.ParseAtom | pmu-data/src/arith_parser.rs:152-194 | parentheses, constants, numbers, variables and calls, with every error case, as the grammar function gives |
| FormulaParser.Cursor.ParseArguments | pmu-data/src/arith_parser.rs:176-193 | the argument loop of a call |
| FormulaParser.Cursor.ParseProduct | pmu-data/src/arith_parser.rs:133-150 | the loop over products, on an input that shrinks |
| FormulaParser.Cursor.ParseSum | pmu-data/src/arith_parser.rs:114-131 | the loop over sums |
| FormulaParser.Cursor.ParseComparison | pmu-data/src/arith_parser.rs:85-112 | at most one comparison of sums |
| FormulaParser.Cursor.ParseAll | pmu-data/src/arith_parser.rs:76-83 | the whole text, with nothing left but white space |
| FormulaTheorems.ParseExactly | pmu-data/src/arith_parser.rs:62-194 | a text parses to a formula if and only if it is a written form of it: operators at their level, chains leaning left, no comparison in parentheses, any white space between tokens |
| FormulaTheorems.WrittenParses | pmu-data/src/arith_parser.rs:62-194 | every written form parses to its formula |
| FormulaTheorems.PrinterRoundTrip | pmu-data/src/arith_parser.rs:62-194 | printing with minimal parentheses and any white space and parsing returns the same formula |
| FormulaTheorems.ParseAccepted | pmu-data/src/arith_parser.rs:62-194 | only formulas of the accepted shape come out, so reprinting an accepted text keeps its meaning |
| TopDown.CollectVariables | mperf/src/counter_selection.rs:77-93 | inserts exactly the formula's variables into the set |
| TopDown.CounterGroups | mperf/src/counter_selection.rs:9-75 | accepts exactly the coherent scenarios, with one group of events per declared group, unmerged and in order; a rejection names the first problem |
| TopDown.CheckMetric | mperf/src/counter_selection.rs:37-73 | a metric passes exactly if its group exists, its formula parses and its variables are metrics or events of its group |
| TopDown.EvaluateScenario | mperf/src/stat.rs:254-271 | metrics are evaluated in declaration order, each result visible to later ones, and rows collected up to the level |
| TopDown.RowsExact | mperf/src/stat.rs:254-271 | the rows are the outcomes of exactly the shallow metrics that evaluate, each once and in order |
| Evaluation.EvalIsPostfix | mperf/src/stat.rs:278-321 | evaluating a formula is running its postfix code on a stack, left operand below right, for any arithmetic and whatever lies below |
| Evaluation.OperatorLaws | mperf/src/stat.rs:294-307 | over the reals: sums, differences, products and quotients of the operands' values, and comparisons that are one or zero |
| Evaluation.ArgumentsAt | mperf/src/stat.rs:309-312 | a call's arguments have values exactly if each has, each in its place |
| Evaluation.CallLaws | mperf/src/stat.rs:308-320 | over the reals: the largest, the smallest, the absolute value, the choice by a condition, and failure for other names or numbers of arguments |
| Evaluation.LowerExact | mperf/src/stat.rs:313 | call names are compared with each ASCII capital replaced by its small letter |
| Evaluation.DepthExact | mperf/src/stat.rs:229-231 | a metric's depth is one more than the number of dots in its name |
| TopDown.EvalAgrees | mperf/src/stat.rs:273-328 | an evaluation depends only on the values of the formula's variables, also when it fails |
| TopDown.OutcomeDepends | mperf/src/stat.rs:254-328 | a metric's outcome depends only on measured values of names it transitively reaches, in any scenario |
| TopDown.SupportDecides | mperf/src/stat.rs:254-328 | a metric depends only on constants and on the events of its own and transitively named groups as soon as no other name it reaches was measured, coherent scenario or not |
| TopDown.GroupCoherence | mperf/src/counter_selection.rs:37-73 | in an accepted scenario with metric and event names apart, a metric's outcome depends only on constants and the events of its group and of the groups of metrics it transitively names |
| TopDown.ShadowingReadsOutside | mperf/src/counter_selection.rs:56-64 | an accepted scenario whose metric shares an event's name, where a metric reads outside its group |
| TopDownReads.EvaluatesExactly | mperf/src/stat.rs:278-321 | a formula evaluates if and only if its calls are known, its constants present and all its variables have values |
| TopDownReads.RunsExactly | mperf/src/stat.rs:254-328 | a metric evaluates if and only if it runs on the measured names alone, whatever their values |
| TopDownReads.ReadsDecide | mperf/src/stat.rs:254-328 | in any scenario, maps that agree on the names a metric reads under either of them give it the same outcome |
| TopDownReads.ShelteredWithin | mperf/src/stat.rs:254-328 | a sheltered metric reads only its support |
| TopDownReads.ReadOutside | mperf/src/stat.rs:254-328 | a working metric that names something outside its support, which no earlier metric is called, has measured maps that agree on the support and differ in the outcome |
| TopDownReads.DirectExactly | mperf/src/stat.rs:254-328 | a working metric that names no earlier metric depends only on its support if and only if its variables lie there |
| TopDownReads.DecidedExactly | mperf/src/stat.rs:254-328 | with metric names given once and used only afterwards, a metric depends only on its support if and only if, whichever names are measured, all that it and the metrics it uses read lies there |
| EventTimer.TimeDeltaExactly | libprof/src/event_timer.rs:812-830 | for every shift the result is offset plus floor(cycles times mult over 2^shift) modulo 2^64 if and only if the fractional product loses no bit |
| EventTimer.SmallShiftExact | libprof/src/event_timer.rs:812-830 | for shifts up to 32 it always is |
| EventTimer.WideShiftLoses | libprof/src/event_timer.rs:812-830 | shift 33 can lose bits |
| EventTimer.ShortTimeExact | libprof/src/event_timer.rs:832-834 | with a mask of k ones the result is the one value in the window of 2^k from the reference, modulo 2^64, congruent to the reading |
| EventTimer.SignExtendExact | libprof/src/event_timer.rs:800-806 | the unique signed number of the counter's width congruent to the raw value, for every width |
| EventTimer.CounterValueExact | libprof/src/event_timer.rs:808-810 | a counter reads as offset plus the signed number of the counter's width congruent to the raw value, modulo 2^64 |
| Modular.AndMask | libprof/src/event_timer.rs:812-834 | masking with k ones is the remainder modulo 2^k |

## Left out

- Fork and exit handlers, environment lookup, registration, string interning, instance ids and hashing of the collector.
- Parquet segments, stack deduplication, process metadata, clock records and the statistics the writer publishes.
- The shared-memory channel inside: a send is delivered or counted as lost.
- Header counters of batches other than the footer, which are running totals at the time of sending.
- Weak memory: the collector machine is sequentially consistent, also for relaxed counters.
- Collector counters are unbounded; steps that would carry a sequence number or a slot's drop count past 63 bits are not taken.
- The process id, epoch, time and thread id that `record_allocation` stamps are part of its input.
- Event records are laid out as their little-endian fields.
- Drops still pending in a slot at shutdown do not become Loss rows, and nothing is claimed about order in the shared late slot.
- CollectorProgress.ShutdownCompletes: gives a run that completes; before the queue is closed an unfair scheduler can keep the writer ticking idly, and the counters must leave room below 63 bits for the threads inside.
- RegionNesting.AboveExactly: for a pair of spans on one given thread the condition is sufficient; necessary it is over all recordings with these spans.
- CollectorSlot.Session.RecordEvent: the section is proved without interruption; interleaving is the machine's subject.
- AllocationPacket.PacketRoundTrip: asks that the number of records fits the header word.
- SQL loading of events, samples and observations: they arrive as sequences, events already in time order.
- Names, contexts and labels of regions and functions, and the display order of children, lanes and rows.
- The sort of samples before a call tree is built is any permutation; callers and callees of the function table are not modelled.
- Sample and observation filters other than time and regions: the analyses take the accepted ones.
- Utilisation fractions, concurrency histograms, migrations and synchronisation fractions, which divide and clamp the modelled sums.
- The heatmap's summary of its observations' sources.
- Rounding, NaN and infinities of floating point: CPU-time weights are exact reals.
- Grid.BuildFlameScope: takes the analysed range and the times of accepted samples as given, at most 2^64 - 1 of them.
- FormulaParser.Cursor.Number: keeps the digits; their conversion to floating point is not modelled.
- FormulaParser.Cursor.ParseAll: positions in errors count characters where the source counts bytes, and messages are a datatype.
- TopDownReads.DecidedExactly: with a metric name given twice, or used before its metric, a missing name can leave the outcome to the arithmetic, and only the sufficient half is stated.
- RegionData.BuildNodes: node totals are unbounded where the source adds 64-bit words.
- TopDown.EvaluateScenario: metric depth is not cut to eight bits.
- TopDown.CounterGroups: events stay names, their mapping to counters is not modelled, and of several bad variables of one formula any may be named.
- The perf metadata page protocol, counter reads in assembly and the scaling around the conversions.
