# trace0: a verified model of its core

trace0 is a tracing profiler. Each thread packs events into a thread-local batch. Full batches cross bounded
lock-free rings to one background thread, which either streams them to an exporter or keeps a bounded history from
which it cuts windows. This project models that core in Dafny and proves what it promises.

Concurrent parts are step machines: a state, actions with guards, and theorems by induction over every run of
interleaved actions. Each atomic load or store, each lock section and each queue operation is one step. Sequential
parts are classes and loops in the shape of the source, proved against specification functions about which the
laws are then proved. History variables (`seen`, `pushed`, `closed`, `absorbed` and the like) record what happened;
no guard and no step chooses by them.

| file | modules | what it is about |
|---|---|---|
| `events.dfy`, `batches.dfy`, `sink.dfy` | Words, Events, Batches, Sink | machine words, bit packing, batches, code lookup |
| `seqlock.dfy` | Seqlock | reading a live batch without stopping its thread |
| `producer.dfy`, `queue.dfy`, `lanes.dfy` | Producing, Producer, Queue, Draining, Lanes, Fairness | pushing, batching, draining: conservation, exact time, fairness |
| `ring.dfy`, `recorder.dfy` | History, Ring, Windows, FlightRecorder | the bounded history, the floor of open windows, the recorder |
| `snapshot.dfy`, `losses.dfy` | Stacks, Replay, Nesting, Losses | cutting a window out of one thread's events, and what a lost event does |
| `assemble.dfy`, `dumps.dfy`, `ranks.dfy`, `depths.dfy`, `shapes.dfy`, `readout.dfy` | StableSort, Assemble, Dumps, Ranks, Depths, Shapes, Readout | a whole dump: what each thread contributes, its depth and names after the sort, and all of it as read off the events written |
| `dumpruns.dfy`, `captures.dfy` | DumpRuns, Captures | what a dump holds of a thread over whole runs |
| `shutdown.dfy`, `pipeline.dfy` | Shutdown, Pipeline, PipelineWriter | the two consumers and how they stop |
| `intern.dfy`, `codecache.dfy`, `codeids.dfy`, `coderuns.dfy`, `monitoring.dfy` | InternTable, Intern, CodeCache, CodeIds, CodeRuns, Monitoring | code ids: allocation, caches, invalidation |
| `recycling.dfy`, `recycleruns.dfy` | Recycling, RecyclingRuns | reuse of ids below a floor, against every place an event can still be |
| `clock.dfy` | Clock | ticks and nanoseconds |
| `wire.dfy`, `proto.dfy`, `shared.dfy` | Wire, Perfetto, EventBytes, Interning, Proto, SharedFile | the Perfetto trace and a reader of it, one process or several to a file |
| `pprof.dfy` | SelfTime, Pprof | self time and the profile's tables |
| `json.dfy` | JsonText, Json | the JSON stream and a reader of it |

Where a promise turned out not to hold of the code, the code is modelled as it is, a lemma exhibits the failure at an
input or a run, and the condition under which the promise holds is proved:

- A thread taken over by a new queue with unflushed events shows them to the new queue's reader, because the queue
  id is stored before the epoch goes odd (`Seqlock.UnflushedTakeoverLeaks`).
- Memory overwritten while it is still advertised shows in the tail read (`Seqlock.OverwriteLeaks`); tails are exact
  while it is spared, which is exactly what the invariant needs (`Seqlock.ScribbleKeepsInvIff`).
- An event whose tick lies before the window's start but which comes after the window was reached is dropped from a
  dump. What was emitted agrees with the capture on what is open, at every event, exactly when no such event opens a
  frame or closes a captured one (`Replay.CutHoldsIff`, `Replay.BackwardTicksBreakTheCut`).
- Such a loss can leave the emission of a nested trace unnested (`Losses.LostOpenMismatches`). One lost event after none
  does no harm to any continuation exactly when it is a close and all captured frames have one code
  (`Losses.OneLossIsHarmlessIff`); if none is lost the emission is nested (`Nesting.EmissionIsNested`).
- An event inside the window is dropped when one past its end came before it, because the loop stops there
  (`Dumps.LateEventIsCutOff`). A thread contributes all its captured events inside the window exactly when there is no
  such event (`Dumps.ThreadContribution`).
- After the sort a thread's depth can drop below zero, through a late horizon
  (`DumpRuns.LateHorizonTakesDepthBelowZero`) or a close that steps back (`Depths.BackwardCloseTakesDepthBelowZero`).
  Whatever the ticks, it does not exactly when at no emitted event more closes than opens come at or before it
  (`Depths.DepthNeverNegativeIff`). If ticks never step back, that is when the horizon is no later than the first close
  whose open was not captured (`Dumps.SortedDepthNeverNegativeIff`).
- After the sort its names can mismatch (`DumpRuns.TwoReturnsMismatch`, and with an event at the horizon's very tick
  `Shapes.TieMismatches`). If ticks never step back, they match exactly when that condition on the horizon holds and the
  closes after the horizon that match nothing after it find, from the top, the opens made up for the last of them and
  then the frames open at the horizon (`Shapes.SortedNamesMatchIff`); with the horizon before every event, when the
  unmatched closes read the same backwards (`Shapes.SortedNamesMatchIffPalindrome`).
- A flush leaves the base as it was, so a batch begun after it is left out of a dump as a copy of the flushed one
  (`Captures.FlushHidesTheTail`); a dump reaches as far as the pushes made when the tail was read exactly when no
  older batch in the history has the base of a batch still unfinished (`Captures.DumpsAreGapless`).
- When no id can be allocated, a thread's last-id entry can be marked current though it belongs to another object, or
  to none (`CodeRuns.StaleIsReached`). That does harm exactly when the interner does not have that id for that address
  and no destruction under way there will count a generation (`CodeRuns.FailedAllocationIsHarmfulIff`).
- A flush that began before its thread's tail was read and still holds its batch when its ring is found empty escapes
  the recycle floor, and an id is reused under a stored event (`RecyclingRuns.MissedFlushBreaksRecycling`). Runs without
  such a flush, and without a reader giving up on a batch from before the floor, are safe
  (`Recycling.StoredEventsResolve`); a floor is safe exactly when no id of a stored event, in hand or not, was given up
  before it (`Recycling.PublishKeepsIntactIff`), and one that is not does harm from every state
  (`RecyclingRuns.UnsparedIsReused`).
- An event of an open window is evicted within twice the capacity if a later event of its batch has a tick before the
  window (`Windows.BackwardTicksLeaveTheWindow`); every event of a batch that ends in the window is kept
  (`Windows.WindowIsKeptWhole`).
- The pipeline loses a batch offered between its last empty scan and the close, and only such a batch
  (`Pipeline.LateBatchIsLost`, `Pipeline.ExportsWhatTheLastScanSaw`). The recorder does not (`Shutdown.NothingIsLostAtClose`).
- A drain limit of zero is exceeded when anything waits (`Draining.DrainExceedsLimitIff`).
- A batch whose ticks wrap past 64 bits decodes by plain addition to other ticks (`Lanes.MarksMatchIff`).
- With 128 threads in one process a Perfetto trace shared by several gives two sequences one id
  (`Interning.SlotsStayApartIff`) and can become unreadable (`SharedFile.OneThreadTooMany`); up to 127 each process reads
  as it would alone, however the chunks fall (`SharedFile.SharedFileReads`).
- The measured clock gives up beyond 2^63 ticks (`Clock.TicksFromNs`); the self-describing one truncates exactly
  when `Clock.TruncatedIff` says.

## Model

| member | source | states |
|---|---|---|
| Events.PackingKeepsKindAndId | crates/core/src/event.rs:51-53 | the kind always survives packing with a code id; the id does exactly when it fits 24 bits |
| Events.OpensByNumber | crates/core/src/event.rs:16-45 | begin (1), resume (4) and throw (6) open a slice, end (2), yield (3) and unwind (5) close one, and an unknown number reads as begin |
| Events.BitsRoundTrip | crates/core/src/event.rs:65-74 | an event stored as one word reads back as itself, and the other way round |
| Seqlock.TailsAreExact | crates/core/src/tls.rs:161-199 | on every interleaving of pushes, batch swaps, memory reuse and reader steps that spares the events advertised the linearizability invariant holds: a tail returned is the batch that was live when its cursor was loaded |
| Seqlock.TailIsTheLiveBatchAtSomeCursorLoad | crates/core/src/tls.rs:161-199 | for a tail returned in such a run there is an instant of it, a load of the cursor, at which the live batch held exactly its base, tid and events; after flushed takeovers only, that batch was pushed to the queue asked for |
| Seqlock.TailsBelongToTheQueue | crates/core/src/evqueue.rs:139-149 | if threads are flushed before a new queue takes them over, the queue test of the reader is never stale |
| Seqlock.ReadsAlone | crates/core/src/tls.rs:161-199 | a reader not interrupted returns the whole live batch, whichever attempt it is at |
| Seqlock.DisturbedThenReadsAlone | crates/core/src/tls.rs:161-199 | after any run whose last load spoilt an attempt (odd epoch, bad length or epoch moved), with fewer than eight spoilt in all, and whatever the producer did since, a reader then left alone returns the whole live batch |
| Seqlock.GivesUpIff | crates/core/src/tls.rs:161-199 | in every run a reader has given up exactly when it saw another queue's id or a null pointer, or eight of its attempts were spoilt, counted in the run; it never makes a ninth |
| Seqlock.UnflushedTakeoverLeaks | crates/core/src/evqueue.rs:139-149 | from every state that skips the flush, a run in which a reader gets another queue's events |
| Seqlock.ScribbleKeepsInvIff | crates/core/src/tls.rs:161-199 | overwriting memory keeps the producer's half of the invariant exactly when it spares the events advertised |
| Seqlock.OverwriteLeaks | crates/core/src/tls.rs:161-199 | from every state in which an advertised event is overwritten, a run in which a reader gets that event changed and all others as pushed |
| Batches.EndIsReached | crates/core/src/evqueue.rs:46-49 | a batch's end is at or after a tick exactly when its last event is (its base, if it has none); while ticks do not step back no event of it lies after its end |
| Producing.DeltaDecodes | crates/core/src/evqueue.rs:116-129 | a delta taken on the fast path decodes to the tick pushed, backward steps included; plain addition gives it exactly when the tick is not before the base |
| Producing.StaysIff | crates/core/src/evqueue.rs:107-176 | a push stays in the batch exactly with room for it, the run unchanged and its tick less than 2^32 after the base in 64-bit arithmetic; otherwise the batch is closed whole, taken by a ring with fewer than 64 or else dropped, and the next one starts at the tick |
| Producer.ThreadState.Commit | crates/core/src/tls.rs:52-69 | whatever was committed before, the batch that can be shipped is then the one the hot fields describe: their base and tid, and every event pushed since they were armed |
| Producer.ThreadState.Arm | crates/core/src/tls.rs:71-90 | the hot fields describe the empty batch, under an epoch that ends even and two higher |
| Producer.ThreadState.InitProducer | crates/core/src/evqueue.rs:139-149 | a ring of the thread's own joins the queue and an empty batch starts at the first event's tick |
| Producer.ThreadState.ShipAndRenew | crates/core/src/evqueue.rs:179-199 | the batch goes to the ring or its events are counted as dropped; the next batch is empty |
| Producer.ThreadState.Push | crates/core/src/evqueue.rs:107-176 | one push against the specification of fast path, shipping and joining; the cursor never leaves the batch |
| Producer.ThreadState.FlushPartial | crates/core/src/tls.rs:93-114 | a flush ships a non-empty batch, keeps the base for the next one, and reports what a full ring refused |
| Queue.EventQueue.Drain | crates/core/src/evqueue.rs:201-220 | the round-robin loop computes the drain specification from the next start and advances it |
| Queue.EventQueue.Visit | crates/core/src/evqueue.rs:209-218 | the inner pop loop takes all, or up to the limit, and at least one |
| Draining.OneDrain | crates/core/src/evqueue.rs:201-220 | first in first out on every ring; within a positive limit; everything waiting when it stops short; at least one from the ring it starts at |
| Draining.DrainCounts | crates/core/src/evqueue.rs:201-220 | every batch taken is one fewer waiting |
| Draining.DrainExceedsLimitIff | crates/core/src/evqueue.rs:211-217 | the limit is exceeded exactly when it is zero and something waits |
| Fairness.WaitingRingIsServed | crates/core/src/evqueue.rs:201-220 | a ring with a batch waiting gets its oldest batch out by the drain that starts at it, whatever is pushed meanwhile and whatever the limits |
| Fairness.DrainsAreFair | crates/core/src/evqueue.rs:201-220 | with n rings, any n drains interleaved with pushes serve every ring that had something waiting at the start |
| Lanes.StepKeepsInv | crates/core/src/evqueue.rs:107-220 | joins, pushes, flushes and drains keep, per thread: closed and live batches decode to the pushes in order, those kept are those drained then those waiting, cursor and ring stay in bounds; and the drop counter is the sum of refused events |
| Lanes.RunsConserve | crates/core/src/evqueue.rs:107-241 | over every run on a queue, events pushed = drained + waiting + live + dropped, and each thread's drained events are its pushes in order with only whole batches missing, each decoding to its tick |
| Lanes.MarksMatchIff | crates/core/src/event.rs:107-114 | decoding a batch by plain addition is exact just when no tick of it wraps |
| History.Surplus | crates/core/src/ring.rs:42-53 | eviction takes the fewest front batches reaching one batch, the capacity, or a protected front within twice the capacity |
| History.FewestIsUnique | crates/core/src/ring.rs:42-53 | that number is determined by its definition |
| History.EvictionStopsFirst | crates/core/src/ring.rs:42-53 | eviction takes from the front and stops the first time one batch is left, the held bytes are within the capacity, or they are within twice of it and the front's last event is at or after the floor |
| History.ProtectedGoesOnlyAboveTheHardCap | crates/core/src/ring.rs:43-48 | a batch whose last event is at or after the floor is evicted only while it and everything behind it hold more than twice the capacity |
| History.NewestStays | crates/core/src/ring.rs:43 | a push never evicts the batch it adds |
| History.NeverAboveTheHardCap | crates/core/src/ring.rs:42-53 | after every sequence of pushes, pops and floor changes one batch is held at most, or headers and slots of the held batches take no more than twice the capacity |
| History.RunsBalance | crates/core/src/ring.rs:25-53 | after every sequence of pushes, pops and floor changes: held batches are a suffix of those pushed; events pushed = popped + evicted + held; the horizon is the tick of the last event evicted, or zero |
| Ring.Ring.Push | crates/core/src/ring.rs:25-29 | the push specification; the byte count stays the sum over the held batches |
| Ring.Ring.Pop | crates/core/src/ring.rs:31-35 | the oldest batch leaves, horizon and counter untouched |
| Ring.Ring.SetFloor | crates/core/src/ring.rs:37-40 | the floor changes and the backlog is evicted against it |
| Ring.Ring.EvictOverCapacity | crates/core/src/ring.rs:42-53 | the loop computes the eviction specification: what it took and what is left make up what was held, the horizon is the tick of the last event taken, and one batch is left or no more than twice the capacity |
| Windows.MinStart | crates/core/src/recorder.rs:106-109 | the earliest start of the open windows, none when there is none |
| Windows.FloorFollowsWindows | crates/core/src/recorder.rs:106-155 | after every sequence of arrivals, openings and closings the floor is the earliest start of the open windows |
| Windows.NothingElseLeaves | crates/core/src/recorder.rs:93-109 | what has left and what is held are, in order, what was held and what has arrived |
| Windows.WindowProtects | crates/core/src/recorder.rs:106-155 | from an Open until its Cancel or the end of its Dump, a batch whose last event is at or after its start leaves only while more than twice the capacity is held |
| Windows.WindowIsKeptWhole | crates/core/src/recorder.rs:106-155 | if no more than twice the capacity is ever held, every event at or after the start of an open window that was held or has arrived is in a held batch, if its batch's last event is at or after the start too |
| Windows.InOrderWindowIsKeptWhole | crates/core/src/recorder.rs:106-155 | so every such event of a batch whose ticks do not step back |
| Windows.UnreachedGoes | crates/core/src/ring.rs:42-53 | a batch whose last event is before the start leaves as soon as the ring is over its capacity, whatever other events it has |
| Windows.BackwardTicksLeaveTheWindow | crates/core/src/ring.rs:42-53 | a batch with an event inside an open window, its last event before the window, evicted well within twice the capacity |
| FlightRecorder.Recorder.Absorb | crates/core/src/recorder.rs:93-100 | what one drain within the limit takes is pushed into the ring, in order |
| FlightRecorder.Recorder.AbsorbAll | crates/core/src/recorder.rs:102-104 | every waiting batch is absorbed, oldest first on each ring; the loop ends |
| FlightRecorder.Recorder.Refloor | crates/core/src/recorder.rs:106-109 | the ring's floor becomes the earliest open start |
| FlightRecorder.Lowest | crates/core/src/recorder.rs:115-121 | the minimum of the clock and all bases |
| FlightRecorder.Recorder.UpdateRecycleFloor | crates/core/src/recorder.rs:111-123 | the floor set is at most the clock, every tail's base and every held base, and is one of them |
| FlightRecorder.Split | crates/core/src/recorder.rs:192-195 | chunks of at most 4096, only the last short, that join to the events |
| FlightRecorder.Recorder.WriteDump | crates/core/src/recorder.rs:171-198 | the chunks written are the assembly of the ring after everything waiting was absorbed and of the tails; what arrives while writing is absorbed afterwards |
| FlightRecorder.Recorder.Handle | crates/core/src/recorder.rs:125-169 | each control message's whole effect: windows, floor, dump, and the recycle floor recomputed last |
| Stacks.OpenFramesAreNeverLeft | crates/core/src/snapshot.rs:77-101 | for any opens and closes, what replaying leaves open are the frames entered and never left, oldest first: the opens after which no piece closes as many frames as it opens |
| Replay.Run | crates/core/src/snapshot.rs:65-104 | the loop emits the specified list |
| Replay.EmissionIsCarriedThenKept | crates/core/src/snapshot.rs:73-103 | whatever the ticks, the emission is the frames open when the window is first reached, then the window's events among those the loop looks at, an open put before each close that finds its stack empty |
| Replay.EmissionIsCarriedThenRepaired | crates/core/src/snapshot.rs:73-103 | for non-decreasing ticks that is the frames open at the start and the window cut out of the capture, repaired |
| Replay.WindowCutPreservesStacks | crates/core/src/snapshot.rs:65-104 | at every tick of the window, replaying what was emitted up to it leaves the same open frames, tick and code, as replaying the whole capture up to it, if no event up to it is lost; for non-decreasing ticks none is, and what follows is the repaired rest |
| Replay.CutHoldsIff | crates/core/src/snapshot.rs:75-103 | for any ticks: at every event the loop looks at, replaying what was emitted so far leaves open what the capture has open, if and only if no event that opens a frame or closes a captured one falls behind the window's start after the window was reached |
| Replay.OneMoreReplaysIff | crates/core/src/snapshot.rs:75-103 | the same for one more event: the first such event is where they part |
| Replay.InOrderLosesNothing | crates/core/src/snapshot.rs:75-84 | ticks that never step back lose no event |
| Replay.BackwardTicksBreakTheCut | crates/core/src/snapshot.rs:77-84 | a close of a captured frame behind the window's start is lost: the capture has nothing open, the output does |
| Nesting.EmissionIsNested | crates/core/src/snapshot.rs:73-103 | for any contiguous piece of a properly nested trace and any window, if no event is lost in that way, every emitted close matches an earlier unmatched open of the same code |
| Losses.OneLossIsHarmlessIff | crates/core/src/snapshot.rs:77-103 | after a prefix that lost none, one lost event: every nested continuation that loses no more is emitted nested, if and only if it is a close and all captured frames have one code |
| Losses.ClosingShowsTheLoss | crates/core/src/snapshot.rs:77-103 | for every other lost event, closing the captured frames inside the window is a nested continuation emitted unnested |
| Losses.LostOpenMismatches | crates/core/src/snapshot.rs:77-84 | a nested trace whose emission is not: an open behind the start is lost and its close is not |
| StableSort.SortedFacts | crates/core/src/snapshot.rs:51 | the sort orders by tick and neither loses nor invents an entry |
| StableSort.SortedProjects | crates/core/src/snapshot.rs:51 | looking at one thread after the sort is sorting that thread alone: its order is kept |
| Assemble.Collect | crates/core/src/snapshot.rs:23-38 | each thread's stream once, its batches in arrival order |
| Assemble.ReplayAll | crates/core/src/snapshot.rs:40-50 | the output holds each thread's emission |
| Assemble.Run | crates/core/src/snapshot.rs:5-63 | a dump is sorted by tick, each thread's part of it is its own replayed stream, stably sorted, over the history and the tails no history batch already holds, and every event written has the thread, code and kind of its entry and its tick in nanoseconds |
| Assemble.DescribedTells | crates/core/src/snapshot.rs:52-62 | entry by entry, what is written has its thread, its code, its kind under a number from 1 to 6, and its tick in nanoseconds |
| Dumps.ThreadContribution | crates/core/src/snapshot.rs:73-103 | whatever the ticks, a thread contributes the frames open when the window is first reached, one synthesized open per close that finds nothing open, and the window's events among those looked at; these are all its captured events inside the window if and only if none comes after one past the end |
| Dumps.InOrderContribution | crates/core/src/snapshot.rs:73-103 | for non-decreasing ticks none does, and the frames and closes are those of the window cut out of the capture |
| Dumps.LateEventIsCutOff | crates/core/src/snapshot.rs:89-91 | three events of which the last, inside the window, is dropped |
| Ranks.SortedNeverNegativeIff | crates/core/src/snapshot.rs:51 | a stable sort leaves no negative depth exactly when, in the unsorted list, at no entry more closes than opens come at or before it, earlier ticks and its own tick up to it |
| Shapes.SortedParts | crates/core/src/snapshot.rs:51 | around any tick: what is before it sorted, what is at it in its own order, what is after it sorted |
| Shapes.SortedThread | crates/core/src/snapshot.rs:51 | whatever the ticks and the horizon, a thread's slice of a dump: its own events before the horizon sorted, the emission's order at the horizon, its own events after it sorted |
| Shapes.SortedInOrder | crates/core/src/snapshot.rs:51 | for non-decreasing ticks and a horizon no later than the first orphan, event by event: what is up to the horizon, repaired as emitted; the opens made up for the later orphans in closing order; the rest |
| Shapes.SortedAfterHorizon | crates/core/src/snapshot.rs:51 | that, with the horizon before every captured tick: the synthesized opens, the open frames, the window |
| Depths.DepthNeverNegativeIff | crates/core/src/snapshot.rs:51 | whatever the ticks and the horizon, after the sort a thread's depth never drops below zero exactly when in what is emitted for it at no event more closes than opens come at or before it |
| Depths.DepthStaysUp | crates/core/src/snapshot.rs:51 | whatever the ticks, it does not if no event is lost, no close in the window steps back, and the horizon is no later than any orphan |
| Depths.InOrderStaysUp | crates/core/src/snapshot.rs:51 | ticks that never step back lose nothing and have no close that steps back |
| Depths.BackwardCloseTakesDepthBelowZero | crates/core/src/snapshot.rs:51 | an open and its close one tick back, nothing lost and no orphan, sort into a negative depth |
| Dumps.SortedDepthNeverNegativeIff | crates/core/src/snapshot.rs:51 | for non-decreasing ticks, after the sort a thread's depth never drops below zero exactly when the horizon is no later than its first unmatched close |
| Shapes.SortedNamesMatchIff | crates/core/src/snapshot.rs:94-98 | for a piece of a nested trace with non-decreasing ticks and any horizon, after the sort a thread's names match exactly when the horizon is no later than the first orphan and the later unmatched closes find the made-up opens and then the frames open at the horizon, top first |
| Shapes.SortedNamesMatchIffPalindrome | crates/core/src/snapshot.rs:94-98 | with the horizon before every captured tick, exactly when the unmatched closes read the same backwards |
| Shapes.TieMismatches | crates/core/src/snapshot.rs:94-98 | with an event at the horizon's tick, a palindrome of one close whose names mismatch |
| Dumps.CapturedStream | crates/core/src/snapshot.rs:14-38 | what is replayed of a thread is, exactly, the batches the history holds of it and then its tail, unless one of those batches has the tail's base |
| Dumps.CapturedPieceIsGapless | crates/core/src/snapshot.rs:14-38 | if the tail is a copy of part of a batch not yet evicted and the history holds a stretch of the thread's batches, together they are a gapless piece of its pushes, none twice |
| Captures.NextKeeps | crates/core/src/recorder.rs:93-104 | pushes, flushes, drains into the history and floor changes keep: what was pushed into the history of a thread is what was drained from its ring, in order |
| Captures.DumpHoldsExactly | crates/core/src/recorder.rs:180-191 | over every run of producers and recorder, whatever was refused, evicted or given up on: a dump replays of a thread exactly its batches still in the history, then its tail, if one was read and none of them has its base |
| Captures.DumpsAreGapless | crates/core/src/recorder.rs:180-191 | over every run of producers and recorder, a tail read at any instant of it: what a dump replays of the thread is a gapless piece of its pushes that starts where its evicted batches end, and it reaches the pushes made when the tail was read exactly when no older batch in the history hides an unfinished one's base |
| Captures.FlushHidesTheTail | crates/core/src/tls.rs:93-114 | a run in which that happens: push, flush, drain, push |
| DumpRuns.LateHorizonTakesDepthBelowZero | crates/core/src/ring.rs:42-53 | three batches through the ring, out of order across two threads, after which every dump closes a frame of the first thread before opening it |
| DumpRuns.TwoReturnsMismatch | crates/core/src/snapshot.rs:94-98 | two batches of a properly nested trace through the ring, after which in every dump the inner return closes the outer call |
| Dumps.ThreadInDump | crates/core/src/snapshot.rs:5-63 | the contribution of each thread, whatever its ticks, stated of the assembled dump, and for non-decreasing ticks its depth |
| Dumps.ToldInTimeOrder | crates/core/src/snapshot.rs:51-63 | a monotone clock keeps the dump written in time order in nanoseconds |
| Readout.ThreadWritten | crates/core/src/snapshot.rs:5-63 | a written dump holds of each thread, event by event in tick order, by code, kind and nanoseconds: the frames open when the window is first reached, one synthesized begin at the horizon per close that finds nothing open, with its code, and the window's events among those looked at, which are all captured ones inside the window exactly when none comes after one past the end |
| Readout.DepthWritten | crates/core/src/snapshot.rs:5-63 | the depth of a thread's events as written never drops below zero exactly when, of what is emitted for it, no more closes than opens come at or before any event; in order, exactly when the horizon is no later than the first unmatched close |
| Readout.NamesWritten | crates/core/src/snapshot.rs:5-63 | for a piece of a nested trace captured in order, the names of a thread's events as written match exactly under the condition of Shapes.SortedNamesMatchIff |
| Readout.StackWritten | crates/core/src/snapshot.rs:5-63 | for a thread captured in order, with the horizon before all its events or every close matched: the events written up to any tick of the window leave open, above the synthesized begins not yet closed, exactly the frames the whole capture leaves open there, by code and nanoseconds |
| Shutdown.StepKeepsInv | crates/core/src/recorder.rs:54-82 | every step of the loop or its environment keeps messages and batches in order, each once |
| Shutdown.NothingIsLostAtClose | crates/core/src/recorder.rs:54-82 | on every interleaving, messages are handled in order, none twice; every batch offered before the close is absorbed before the final messages; every message sent before the close is handled before the return |
| Shutdown.NeverStuck | crates/core/src/recorder.rs:56-81 | until it returns, the loop can always take a step of its own |
| Shutdown.ReturnsAlone | crates/core/src/recorder.rs:54-82 | once the queue is closed and nobody else acts, every sequence of the loop's own steps returns, with every message sent before the close handled |
| Pipeline.StepKeepsInv | crates/core/src/pipeline.rs:46-113 | every step of serializer, writer or environment keeps each drained batch in exactly one place, in order, and the fan-in within its slots |
| Pipeline.DeliversInDrainOrder | crates/core/src/pipeline.rs:46-113 | on every interleaving the sized push never fails, exports are a prefix of the drains, and `finish` is called at most once and after all of them |
| Pipeline.FinishIsLast | crates/core/src/pipeline.rs:110-113 | nothing is exported after `finish` |
| Pipeline.ExportsWhatTheLastScanSaw | crates/core/src/pipeline.rs:65-71 | a finished run has exported, of each thread, exactly what it had offered at the last empty scan; all of it was exported exactly when nothing was offered later |
| Pipeline.LateBatchIsLost | crates/core/src/pipeline.rs:65-71 | a run that closes between scan and check loses the batch offered there |
| Pipeline.NeededCanStep | crates/core/src/pipeline.rs:46-113 | until the writer has finished, the thread whose turn matters can take a step |
| Pipeline.FinishesAlone | crates/core/src/pipeline.rs:46-113 | once the queue is closed and nothing more is offered, in whatever order serializer and writer run, if neither is left out for ever the writer finishes, with everything drained exported |
| Pipeline.AddressSpaceEvictsNothing | crates/core/src/pipeline.rs:81 | the writer's ring never evicts |
| PipelineWriter.Writer.Drain | crates/core/src/pipeline.rs:29-37 | every batch of the ring is decoded and exported, oldest first |
| PipelineWriter.Decode | crates/core/src/evqueue.rs:38-44 | one event per event of the batch, under the batch's thread, its code and kind kept, at the nanoseconds of base plus delta |
| InternTable.ForgetKeepsValid | crates/py/src/intern.rs:41-50 | ids in use and free ids still partition the allocated range |
| InternTable.InsertKeepsValid | crates/py/src/intern.rs:78-95 | allocation keeps that partition within 24 bits; a failed one changes nothing |
| InternTable.InsertReusesOnlyBelowFloor | crates/py/src/intern.rs:81-95 | a reused id was given up strictly before the floor; no other id changes its meaning |
| Intern.Interner.Find | crates/py/src/intern.rs:37-39 | an address is found exactly while it has an id; the id is then allocated, not on the free list, and no other address's |
| Intern.Interner.Remove | crates/py/src/intern.rs:41-50 | the id goes to the free list with its time |
| Intern.Interner.Position | crates/py/src/intern.rs:86-89 | the first free id given up strictly before the floor |
| Intern.Interner.Add | crates/py/src/intern.rs:77-95 | the insertion specification, the invariant kept; no id exactly when the address has none, all are handed out and none free was given up before the floor |
| Intern.Interner.Code | crates/py/src/intern.rs:100-102 | an id resolves exactly when it was ever handed out, in use or given up and not yet reused |
| CodeCache.PutThenGet | crates/core/src/codecache.rs:32-46 | a stored id reads back, a key sharing its slot misses, every other key is untouched |
| CodeCache.Cache.Fetch | crates/core/src/codecache.rs:32-38 | the slot's id when the key matches |
| CodeCache.Cache.Store | crates/core/src/codecache.rs:41-46 | one slot is overwritten |
| CodeIds.StepKeepsInv | crates/py/src/monitoring.rs:43-114 | every step of recording, destruction and address reuse keeps the coherence of both caches with the interner; a failed allocation too, unless the thread's last id is stale |
| CodeIds.UsedIdIsCurrent | crates/py/src/monitoring.rs:99-113 | the id about to be pushed is the interner's for the object now at the address, and resolves to it |
| CodeIds.RunsUseCurrentIds | crates/py/src/monitoring.rs:43-114 | that, in every state of every run in which no allocation fails on a thread whose last id is stale |
| CodeIds.FailedAllocationKeepsInvIff | crates/py/src/monitoring.rs:58-76 | a failed allocation keeps coherence exactly when the last id is not stale: another than the interner's for its address, in this run and generation, with no destruction there that will count a generation |
| CodeRuns.StaleIsMisused | crates/py/src/monitoring.rs:72-82 | from every state with a stale last id, whether its address is alive, dying or free, a run in which the thread is about to push that id for a living object it does not belong to |
| CodeRuns.FailedAllocationIsHarmfulIff | crates/py/src/monitoring.rs:58-82 | after a failed allocation some run misuses an id if and only if the last id was stale |
| CodeRuns.StaleIsReached | crates/py/src/monitoring.rs:58-82 | from a start, a run to such a failed allocation |
| Monitoring.HotCodes.Resolve | crates/py/src/monitoring.rs:44-88 | the cold path: refresh, cache, interner, and what is left on failure |
| Monitoring.HotCodes.Record | crates/py/src/monitoring.rs:91-114 | the id used agrees with the interner and the caches still agree afterwards |
| Monitoring.Watcher.OnDestroy | crates/py/src/codewatch.rs:43-57 | the address leaves every live interner, then the generation is bumped once if any had it |
| Recycling.AllocateSparesEvent | crates/py/src/intern.rs:86-93 | an allocation below the floor changes no stored event's meaning |
| Recycling.PublishCovers | crates/core/src/recorder.rs:111-123 | when a floor is published, every stored event was pushed at or after it |
| Recycling.FloorIsLowest | crates/core/src/recorder.rs:111-123 | over every run, the floor published is the lowest of the clock when its computation began, the bases of the tails read since, and the bases in the history |
| Recycling.PublishKeepsIntactIff | crates/core/src/recorder.rs:111-123 | publishing a floor keeps every stored event resolvable, under this floor and every earlier one, exactly when no stored event's id was given up, or is being given up, before it |
| Recycling.StepKeepsInv | crates/core/src/recorder.rs:111-167 | every step of threads, ids, rings, recorder and dump keeps every stored event resolvable, if no ring is found empty with a batch from before the floor in its thread's hand and the reader gives up on none |
| Recycling.StoredEventsResolve | crates/core/src/recorder.rs:111-167 | in every state of every such run, each event in a live batch, a ring, a batch being flushed, the history or a dump being written resolves to the object it was recorded for |
| Recycling.SparedEventsResolve | crates/core/src/recorder.rs:111-167 | the same for every run, however its flushes fall and whatever tails are given up on, whose floors spare the ids of stored events |
| RecyclingRuns.UnsparedIsReused | crates/py/src/intern.rs:81-95 | from every state about to publish a floor that does not, with a thread idle and addresses left, a run after which a stored event resolves to another object |
| RecyclingRuns.MissedFlushBreaksRecycling | crates/core/src/tls.rs:117-122 | from a start: a thread records and takes its batch in hand to leave, the object dies, a floor is computed and published, and the event comes to resolve to another object |
| Clock.DirectRoundTrip | crates/core/src/clock.rs:70-95 | ticks and back never exceed the target and fall short by less than num/den + 1 nanoseconds, absent truncation and saturation |
| Clock.DirectIsFloor | crates/core/src/clock.rs:70-81 | by products: elapsed ticks times the numerator lie within one denominator above the nanoseconds times it, less 2^64 nanoseconds per wrap, and it wraps exactly from 2^64 times the denominator on; before the start it is zero |
| Clock.DirectTicksIsFloor | crates/core/src/clock.rs:87-95 | by products, the floor of the conversion back, wrapped likewise, added to the start but no further than the last tick |
| Clock.SlowCounterIsNotTruncated | crates/core/src/clock.rs:89-95 | a counter no faster than its nanosecond numerator is never truncated |
| Clock.TruncatedIff | crates/core/src/clock.rs:93-94 | the conversion truncates exactly when the product reaches 2^64 times the numerator |
| Clock.Bisect | crates/core/src/clock.rs:104-114 | the bisection returns the least tick that reaches the target |
| Clock.TicksFromNs | crates/core/src/clock.rs:96-115 | for any monotone conversion zero at the anchor: terminates; returns the least tick reaching the target when one lies within 2^63 ticks, the largest tick otherwise; and is least exactly when the stated condition holds |
| Wire.VarintOf | crates/proto/src/lib.rs:322-335 | the loop writes the base 128 encoding within its ten bytes |
| Wire.VarintRoundTrip | crates/proto/src/lib.rs:313-340 | every u64 takes at most ten bytes and reads back |
| Wire.MessageRoundTrip | crates/proto/src/lib.rs:207-219 | a message reads back as its fields, in order |
| EventBytes.SliceIsMessage | crates/proto/src/lib.rs:175-192 | the pushed tags and varints are the encoding of the track event's fields |
| EventBytes.FrameIsField | crates/proto/src/lib.rs:194-219 | header, template and timestamp are one length-delimited packet with the right length |
| EventBytes.FrameReads | crates/proto/src/lib.rs:207-219 | a frame on a declared sequence reads as its event, on the thread of the sequence's usual track, if that is a thread's track and every id used is declared; otherwise it does not read |
| Interning.KeysDiffer | crates/proto/src/lib.rs:169-170 | template keys collide only for the same thread, code and polarity |
| Interning.NewThread | crates/proto/src/lib.rs:252-310 | a new thread's sequence packet is accepted: its track is new and its own, below its process's; nothing a reader knows is disturbed |
| Interning.TracksDiffer | crates/proto/src/lib.rs:222-297 | no two threads of an exporter are on one track, and none is on the process's |
| Interning.NewCode | crates/proto/src/lib.rs:113-160 | a new id on a sequence is fresh, declared, and disturbs nothing |
| Interning.NewTemplate | crates/proto/src/lib.rs:194-204 | memoising a template keeps every other one what it would be if built now |
| Interning.SlotsStayApartIff | crates/proto/src/lib.rs:256-261 | no id of one slot, its process's or a thread's, is an id of another slot, exactly up to 127 threads a slot |
| Interning.ThreadsStayApartIff | crates/proto/src/lib.rs:256-261 | the threads' ids alone stay apart exactly up to 128 |
| Interning.EventReads | crates/proto/src/lib.rs:207-219 | a memoised template, framed, reads as the event it was asked for |
| Perfetto.FramesStillRead | crates/proto/src/lib.rs:343-358 | declarations made later never change how buffered events read |
| Proto.Exporter.EnsureSequence | crates/proto/src/lib.rs:252-310 | a thread's sequence is declared before anything else on it, and its usual track is described as the thread's own, below its process's |
| Proto.Exporter.CodeIid | crates/proto/src/lib.rs:113-160 | a code's id is declared on its sequence before use |
| Proto.Exporter.TemplateFor | crates/proto/src/lib.rs:162-205 | the template returned is the one for thread, code and polarity |
| Proto.Exporter.PushEvent | crates/proto/src/lib.rs:207-219 | the frame's bytes |
| Proto.Exporter.WriteBatch | crates/proto/src/lib.rs:343-358 | a reader of the whole trace, to which two descriptions of one track or an event on no thread's track are errors, recovers after what it recovered before each event's process and thread through its track, and its timestamp, polarity, name and source position, in order, every id declared before use |
| Proto.Exporter.Finish | crates/proto/src/lib.rs:360-387 | lost events are noted on the process's track and nothing else is recovered |
| SharedFile.SharedFileReads | crates/proto/src/lib.rs:256-261 | a file shared by processes with slots and pids of their own and up to 127 threads each, chunks interleaved in any way: read as one trace it gives of each process exactly the events its own trace gives, in order, on the tracks of its own threads |
| SharedFile.ExportersStayInSlot | crates/proto/src/lib.rs:252-262 | an exporter with up to 127 threads keeps to the sequence ids of its slot and to the tracks of its pid |
| SharedFile.OneThreadTooMany | crates/proto/src/lib.rs:256-261 | with the 128th thread, four chunks of two processes whose own traces read and whose file does not |
| SelfTime.RecordedIsTotal | crates/pprof/src/lib.rs:67-95 | the time recorded for a stack is, over all threads, the sum of the differences between consecutive time stamps, none where they step back, during which the frames the thread's events leave open have that stack's codes; recorded just when positive, never for the empty stack |
| SelfTime.OpenCallsAreNeverLeft | crates/pprof/src/lib.rs:88-92 | that stack is the codes of the calls entered and not returned from, outermost first |
| SelfTime.BatchesDoNotMatter | crates/pprof/src/lib.rs:67-95 | batch boundaries do not matter |
| SelfTime.InterleavingDoesNotMatter | crates/pprof/src/lib.rs:67-95 | only each thread's own order matters |
| Pprof.Exporter.WriteBatch | crates/pprof/src/lib.rs:67-95 | the loop computes the fold, whose stacks and times SelfTime.RecordedIsTotal says |
| Pprof.Strings.Id | crates/pprof/src/lib.rs:51-59 | the index found or appended; no text twice |
| Pprof.Exporter.Used | crates/pprof/src/lib.rs:112-115 | the codes of all recorded stacks, each once |
| Pprof.Exporter.Finish | crates/pprof/src/lib.rs:97-164 | one sample a stack with its time, one function and location a used code, strings where their indices say, and the fold emptied |
| Pprof.ReferencesResolve | crates/pprof/src/lib.rs:116-149 | every frame of every sample, leaf first, resolves to the code it came from, through exactly one location and one function, under an id that is not zero |
| JsonText.NumberRoundTrip | crates/json/src/lib.rs:42-66 | section 6 of RFC 8259: an integer or a decimal with k digits reads back exactly |
| JsonText.CharsRoundTrip | crates/json/src/lib.rs:68-89 | section 7 of RFC 8259: decoding the printed string returns the bytes, for every input |
| JsonText.RoundTrip | crates/json/src/lib.rs:137-147 | any tree of objects, strings and numbers reads back from its text, whatever follows |
| Json.FillDigits | crates/json/src/lib.rs:42-52 | no u64 overruns the buffer of twenty digits |
| Json.PushU64 | crates/json/src/lib.rs:42-57 | appends the number's decimal digits |
| Json.PushMicros | crates/json/src/lib.rs:59-66 | appends the microseconds with three decimals, exactly the nanoseconds |
| Json.PushString | crates/json/src/lib.rs:68-89 | appends the escaped, quoted string |
| Json.EntryIsPrinted | crates/json/src/lib.rs:129-148 | the literals and values pushed for an event are its tree, printed, and a comma |
| Json.StreamRoundTrip | crates/json/src/lib.rs:122-151 | the whole stream reads back as the trees of the events, in order |
| Json.TreeIsShown | crates/json/src/lib.rs:129-148 | a viewer finds by their keys, in the tree of an event, its name, polarity, nanoseconds, process, thread, file, line and kind |
| Json.StreamShows | crates/json/src/lib.rs:122-151 | the whole stream reads back as the events exported, in order, each with all of these |
| Json.Exporter.TemplateFor | crates/json/src/lib.rs:131-134 | a memoised template is the one its code would be given now |
| Json.Exporter.WriteBatch | crates/json/src/lib.rs:122-151 | the stream grows by the events' entries |

## Left out

Assumptions of the models:

- Memory is sequentially consistent; weak orderings, pointer provenance and the lifetime of batch buffers are not modelled.
- Epochs, drain counters, byte totals and lengths are unbounded; the wrap of a u32 template offset or sequence id in the Perfetto exporter is not modelled.
- Pushes that land in a ring while a drain is visiting it are modelled as landing before or after the drain.
- `Tracer::end` flushing every thread is modelled for quiescent threads only.
- Exporters do not fail: the error returns of the recorder and the pipeline are not modelled.
- Code lookups of an exporter give the same answer for an id throughout, which Recycling.StoredEventsResolve is about.
- Text is bytes; UTF-8 validity and the names' origin in Python are not modelled.

Members that state less than the source could promise:

- Seqlock.GivesUpIff: an empty batch counts as a spoilt attempt, as it does in the source, so a thread with nothing pushed since a flush costs its reader eight.
- Seqlock.DisturbedThenReadsAlone: is for a producer that is not inside `arm` once the reader is left alone, and a batch that is not empty.
- Readout.StackWritten: is for ticks that never step back; for others Replay.CutHoldsIff says when emission and capture agree, before the sort.
- Windows.WindowIsKeptWhole: protection looks at a batch's last event, as the source does, so an event of the window in a batch that ends before it is not covered.
- Lanes.RunsConserve: covers one queue from its first push; a thread taken over from another queue starts with a new ring, and the loss in `Drop for Cold`, which is charged to no queue, is outside it.
- Seqlock.TailsAreExact: that advertised events are spared is a condition here. The source does not secure it in two places, both before `arm` makes the epoch odd: `ship_and_renew` gives the batch to its ring (crates/core/src/evqueue.rs:180-198), where a consumer may free it, and `init_producer` drops the batch of an unflushed takeover (crates/core/src/evqueue.rs:139-149). `flush_partial` arms first.
- Captures.DumpsAreGapless: is for a thread whose tail was read and not evicted before the assembly, whose ring refused no batch and is empty after the absorb, and whose ticks do not wrap; without these Captures.DumpHoldsExactly says what is replayed. No two threads have one tid.
- Replay.WindowCutPreservesStacks: ticks are held in the unbounded integers: a base plus delta that wraps is covered by Lanes.MarksMatchIff only.
- Losses.OneLossIsHarmlessIff: about one lost event; a lost open and its lost close between them may leave the output nested again.
- Shapes.SortedNamesMatchIff: for ticks that never step back; of other streams only the shape (Shapes.SortedThread) and the depth are given.
- Recycling.StoredEventsResolve: its runs miss no batch from before a floor and have no failed allocation on a thread whose last id is stale.
- RecyclingRuns.UnsparedIsReused: asks for an idle thread and for as many vacant addresses as there are ids left to hand out first.
- Pipeline.FinishesAlone: back-off sleeps are steps that change nothing, and the two threads are scheduled fairly.
- CodeIds.RunsUseCurrentIds: `record` runs under the interpreter's guarantee that a code object being recorded does not die meanwhile.
- SelfTime.RecordedIsTotal: sums are unbounded; the overflow of an i64 is not modelled.
- JsonText.CharsRoundTrip: its reader refuses `\u` escapes above 0x7f, which the printer never writes.
- Pprof.Exporter.Finish: the order of samples and functions, which the source sorts, is left open.
- Proto.Exporter.WriteBatch: packets written by the protocol buffer library are abstract, and hold what the exporter puts in them but names of processes, threads and the category; only the hand-written event bytes are bytes.
- Clock.TicksFromNs: the time library's conversion is any monotone function that is zero at the anchor.

Parts of the repository that are not modelled:

- The Python layer: `sys.monitoring` registration, callbacks, CLI, environment, signals and fork hooks.
- Files, locks, dump naming, back-off sleeps, thread naming and name retries.
- The metadata entries at the end of a JSON stream, which serde_json prints.
- The OpenTelemetry and Sentry adapters, scripts and packaging.
