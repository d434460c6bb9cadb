# Bounded queues of a market-data engine, modelled and proved in Dafny

The repository is a set of bounded queues and the benchmark loops around them:
a multi-producer ring with per-slot sequence numbers, a single-producer ring
with wrapping counters, a Disruptor-style sequencer with fan-out gating, and a
mutex-and-condition-variable queue. Their correctness depends on every
interleaving of their threads, so each protocol is a step system: one label per
atomic load, store or read-modify-write, two labels per payload write, a
position per thread, any number of threads. `Enabled` says when a step can
happen, `Apply` what it does, `Exec` runs a list of labels; the theorems
quantify over all label lists. Where the code is an object, there is also a
class whose methods follow the code and are proved against the abstract queue.

| file | what it holds |
|---|---|
| `Bits`, `Slots`, `Words`, `RingWindow` | the capacity check, `pos & mask`, 64-bit counters, the items of a ring |
| `Fifo` | the reference queue and what an accepted history means |
| `MpscProtocol`, `MpscInvariant`, `MpscTheorems`, `MpscProgress`, `MpscCalls`, `MpscBoundary` | the multi-producer ring's steps, invariant, promises, progress, whole calls, and capacity 1 |
| `MpscRing` | the multi-producer ring as an object |
| `SpscProtocol`, `SpscCalls`, `SpscRing` | the single-producer ring with counters modulo 2^64 |
| `Gating`, `Sequencer` | consumer sequences and their minimum, the sequencer, the storage, the one-consumer pipeline |
| `Fanout`, `FanoutTheorems`, `FanoutCalls`, `FanoutProgress`, `FanoutFailure` | the fan-out protocol, its promises, whole turns, its completion, and the runs that break it |
| `BlockingQueue`, `BlockingProtocol` | the critical sections and the sleeping and waking around them |
| `LatencyHist` | the histogram and its percentiles |
| `GapAccounting`, `MpscRun` | the consumer's gap accounting and the whole multi-producer run |
| `Shutdown` | the two single-producer runs up to the consumer's exit, ended by a done flag or by closing the queue |

## How the model reads the code

- Multi-producer ring. `StartPush` is line 28 of `include/ull/core/mpsc_ring.h`,
  `SpinLoad` 31, `BeginWrite`/`EndWrite` 36 and 56, `Publish` 39 and 57,
  `LoadHead` 44, `CheckSeq` 48-52, `CasOk`/`CasFail` 54, `PopCheck` 70,
  `PopCopy` 74, `PopRecycle` 77, `PopAdvance` 78. A load of a cell may return
  any sequence number the cell has held, the CAS may fail for no reason, and a
  load of `head_` may be stale but never older than the thread's own claims.
- A payload being written is `None`; `PopCopy` is enabled only on a complete
  payload, and `NoPayloadRace` shows that it always is.
- `log`, `popped`, `pushed`, `got`, `hist` and `allStarted` are histories for
  the statements; no step of the code depends on them, except that a stale load
  names an entry of `hist`.
- Single-producer ring. The counters are stored modulo 2^64 and every test is
  made on the stored values. A load of the other side's counter may be stale
  but never goes back behind an earlier load by the same thread.
- Fan-out. The scan of `load_min` reads one consumer per step, with the 64-bit
  "no progress" value and unsigned comparison and subtraction as in the code.
- Blocking queue. A pass through a critical section is one step; waiting,
  being signalled, waking for no reason and taking the lock again are separate
  thread positions. The thread woken by `notify_one` is arbitrary.
- `& (cap - 1)` appears in the step systems as `Slot`; `Slots.CapacityMaskIsSlot`
  shows that it is the same number for every accepted capacity. The classes use
  the mask itself.

Two places where the code does less than its notes say:

- The fan-out notes say that the slowest consumer limits the producer. The scan
  ignores a consumer that has not started once another has. The limit holds
  when every scanned consumer had started, or none had, or the ring is in its
  first round (`FanoutTheorems.FanoutIsSafe`), for an undisturbed scan the
  condition is exact (`UndisturbedClaimIsSafeIff`), and outside it every
  capacity and every number of consumers from two up has a run in which a
  consumer reads another event's value (`FanoutFailure.UnstartedConsumerIsOverrun`).
- The multi-producer ring accepts capacity 1, for which it loses messages
  (`MpscBoundary.CapacityOneLosesEverything`); from 2 on it is a FIFO.

## Model

| member | source | states |
|---|---|---|
| Bits.PowerOfTwoTrick | include/ull/core/utils.h:7-9 | the bit trick accepts x exactly when x is some 2^k |
| Bits.ValidatedCapacity | include/ull/core/utils.h:11-16 | a capacity is accepted unchanged exactly when it is a power of two |
| Bits.CapacityDividesWord | include/ull/core/utils.h:11-16 | an accepted 64-bit capacity divides 2^64, at least twice |
| Slots.CapacityMaskIsSlot | include/ull/core/sequenced_ring.h:21 | masking a position with capacity - 1 gives its slot, for every accepted capacity and every position |
| Slots.SlotIsRemainder | include/ull/core/single_producer_sequencer.h:95-97 | the slot is the position modulo the capacity |
| Slots.SlotInjective | include/ull/core/mpsc_ring.h:29 | positions less than a capacity apart never share a slot |
| MpscInvariant.StepKeepsInv | include/ull/core/mpsc_ring.h:27-80 | every atomic step of any number of producers and the consumer keeps the slot protocol: in the window the cell of p holds p until p is published and p+1 with p's value after, owners are exclusive, everything beyond the window is still waiting |
| MpscInvariant.ReachableInv | include/ull/core/mpsc_ring.h:19-25 | the protocol holds in every reachable state, for any capacity from 2 and any number of producers |
| MpscProtocol.OwnerMessageIsCurrent | include/ull/core/mpsc_ring.h:31-36 | when the wait loop of push sees seq == pos, even in an old message, the cell still is at pos and inside the window |
| MpscProtocol.CheckSurvivesToCas | include/ull/core/mpsc_ring.h:48-57 | after an earlier, possibly stale check, a CAS that succeeds owns a free cell at pos that nobody else owns |
| MpscProtocol.PopMessageIsCurrent | include/ull/core/mpsc_ring.h:70-74 | when try_pop sees seq == tail + 1, even in an old message, position tail is published with its claimed value |
| MpscTheorems.RunRefinesFifo | include/ull/core/mpsc_ring.h:27-80 | every run replays on a FIFO: claims enqueue, completed pops dequeue the head, all other steps change nothing |
| MpscTheorems.PopsFollowClaims | include/ull/core/mpsc_ring.h:66-80 | the k-th successful pop returned the value of the one claim of position k |
| MpscTheorems.NothingLostOrRepeated | include/ull/core/mpsc_ring.h:27-80 | over any run from the start, the claimed values in claim order are the popped ones followed by the pending ones |
| MpscTheorems.NoPayloadRace | include/ull/core/mpsc_ring.h:36-77 | no two producers write one slot, none can write the slot being copied, a payload being written is incomplete, and what is copied is complete |
| MpscTheorems.SeqsNeverRepeat | include/ull/core/mpsc_ring.h:39-77 | each store to a cell's seq is larger than everything the cell held before |
| MpscTheorems.NumbersFitInWord | include/ull/core/mpsc_ring.h:86-97 | while head + capacity fits in 64 bits nothing stored or compared wraps |
| MpscTheorems.FailureHasWitness | include/ull/core/mpsc_ring.h:46-63 | over every step of every thread: try_push returns false only at its check, never at the CAS, and then the load was stale, another producer had claimed pos, or at least capacity claims were not handed back |
| MpscTheorems.FreshFailureIffFull | include/ull/core/mpsc_ring.h:44-63 | with an up-to-date position, at whatever step of the call, false is returned exactly when the ring is full |
| MpscTheorems.FreshCheckPassesIff | include/ull/core/mpsc_ring.h:48-52 | a fresh check passes exactly when its position, stale or not, is in the window and unpublished, and returns false otherwise |
| MpscCalls.SoloTryPush | include/ull/core/mpsc_ring.h:43-64 | with room, a try_push nobody interrupts publishes its value and is done, after any number of failed CAS rounds |
| MpscCalls.SoloTryPushOnFull | include/ull/core/mpsc_ring.h:43-52 | on a full ring it returns false at its first check and nothing has changed |
| MpscCalls.SoloPush | include/ull/core/mpsc_ring.h:27-41 | with room, a push nobody interrupts publishes its value |
| MpscCalls.WaitingGoesOn | include/ull/core/mpsc_ring.h:31-34 | beyond the window no message of the cell, old or new, ends the wait of push |
| MpscCalls.SoloTryPop | include/ull/core/mpsc_ring.h:66-80 | a try_pop nobody interrupts takes the item at tail when it is published |
| MpscCalls.SoloTryPopOnEmpty | include/ull/core/mpsc_ring.h:70-72 | with nothing claimed, or the oldest claim unpublished, it returns false on any message |
| MpscCalls.EveryThreadCanStep | include/ull/core/mpsc_ring.h:27-80 | every idle producer can start either call, and every other thread can take its next step on any message of its cell |
| MpscCalls.StalePositionFails | include/ull/core/mpsc_ring.h:44-52 | a run in which try_push returns false on fresh loads of the cell although the ring has room |
| MpscTheorems.OvershootIsSpinners | include/ull/core/mpsc_ring.h:28-34 | claims beyond the window are exactly as many as the producers spinning in push on such positions |
| MpscCalls.OvershootIsReached | include/ull/core/mpsc_ring.h:28-34 | for every k up to the number of producers some run claims exactly k positions beyond a full ring, k producers spinning |
| MpscTheorems.TryOnlyStaysWithinCapacity | include/ull/core/mpsc_ring.h:43-64 | runs without push never hold more than capacity positions |
| MpscTheorems.IdleRingLayout | include/ull/core/mpsc_ring.h:84-97 | between operations the step system's cells are laid out as the object's Valid says |
| MpscProgress.MeasureFalls | include/ull/core/mpsc_ring.h:27-80 | a natural measure of remaining work falls on every step that is neither a start nor idle spinning, and a start adds a bounded amount |
| MpscProgress.ProgressIsEnabled | include/ull/core/mpsc_ring.h:27-80 | whenever work is left some such step is enabled; if tail is published it is the consumer's check |
| MpscProgress.CanAlwaysDrain | include/ull/core/mpsc_ring.h:27-80 | from every state a finite run completes all operations and pops everything claimed, in order |
| MpscBoundary.SoloTryPushSucceeds | include/ull/core/mpsc_ring.h:43-64 | at capacity 1 an uninterrupted try_push succeeds whether or not anything was popped, after any number of failed CAS rounds |
| MpscBoundary.CapacityOneLosesEverything | include/ull/core/mpsc_ring.h:19-25 | capacity 1 is accepted; after two such calls no try_pop succeeds in any continuation with up-to-date loads |
| MpscRingObject.MpscRing.TryPush | include/ull/core/mpsc_ring.h:43-64 | alone, from two slots on: false exactly when full, otherwise the value is appended; with one slot it always succeeds and overwrites |
| MpscRingObject.MpscRing.TryPop | include/ull/core/mpsc_ring.h:66-80 | alone: takes the oldest value, or nothing when empty |
| MpscRingObject.MpscRing.Create | include/ull/core/mpsc_ring.h:19-25 | construction fails exactly when the capacity is not a power of two, and otherwise gives an empty ring |
| SpscProtocol.TestsAreExact | include/ull/core/spsc_ring.h:30-47 | the tests on wrapped counters decide full and empty exactly, with lagging loads and across overflow |
| SpscProtocol.RunRefinesFifo | include/ull/core/spsc_ring.h:28-52 | every run, across any number of counter overflows, is a run of a FIFO that holds at most capacity items |
| SpscProtocol.FailuresAreFullAndEmpty | include/ull/core/spsc_ring.h:33-47 | with up-to-date loads try_push fails exactly at capacity items and try_pop exactly at none |
| SpscProtocol.NoPayloadRace | include/ull/core/spsc_ring.h:36-50 | the slot being written is never the slot being read, and what is read is complete |
| SpscCalls.SoloTryPush | include/ull/core/spsc_ring.h:28-40 | a try_push the consumer does not interrupt appends below capacity and otherwise changes nothing, from any counter values |
| SpscCalls.SoloTryPop | include/ull/core/spsc_ring.h:42-52 | a try_pop the producer does not interrupt takes the oldest item, or changes nothing when there is none |
| SpscCalls.EveryThreadCanStep | include/ull/core/spsc_ring.h:28-52 | either thread can take its next step, and each load may see any value between the newest one seen before and the current one |
| SpscRingObject.SpscRing.Create | include/ull/core/spsc_ring.h:24-26 | construction fails exactly when the capacity is not a power of two, and otherwise gives an empty ring |
| SpscRingObject.SpscRing.TryPush | include/ull/core/spsc_ring.h:28-40 | alone: succeeds exactly below capacity and appends, from any counter values |
| SpscRingObject.SpscRing.TryPop | include/ull/core/spsc_ring.h:42-52 | alone: takes the oldest item, or nothing when empty, from any counter values |
| Words.DistanceSurvivesWrap | include/ull/core/spsc_ring.h:33 | unsigned subtraction of wrapped counters is their true distance while it fits in 64 bits |
| Words.SlotAfterWrap | include/ull/core/spsc_ring.h:36 | a wrapped counter has the same slot as the unbounded one |
| Gating.LoadMinIsMinimum | include/ull/core/gating_sequences.h:28-43 | the scan's result is a lower bound of all sequences and one of them |
| Gating.LoadMinIsSlowestIff | include/ull/core/gating_sequences.h:24-43 | it is the slowest consumer's progress exactly when all consumers or none have started |
| Gating.RacingScanIsBetween | include/ull/core/gating_sequences.h:33-40 | once all have started, a scan that races with the consumers lands between the true minimum at its start and at its end |
| Gating.GatingSequences.Min | include/ull/core/gating_sequences.h:28-43 | the loop returns one of the sequences that no other is below, or "no progress" without consumers |
| Gating.GatingSequences.Store | include/ull/core/gating_sequences.h:45-50 | stores one consumer's sequence and ignores unknown indices |
| Gating.GatingSequences.Load | include/ull/core/gating_sequences.h:51-56 | reads one consumer's sequence, "no progress" for unknown indices |
| Sequencer.RemainingIsFreeRoom | include/ull/core/single_producer_sequencer.h:37-42 | the unsigned computation is capacity minus what is in flight, wraps above capacity, and its special case agrees with next - gating - 1 modulo 2^64 |
| Sequencer.SingleProducerSequencer.GatingMin | include/ull/core/single_producer_sequencer.h:52-57 | the internal sequence when no fan-out consumers are set, otherwise the smallest of their sequences |
| Sequencer.SingleProducerSequencer.TryNext | include/ull/core/single_producer_sequencer.h:19-27 | refuses exactly when capacity sequences are in flight past the internal sequence, or past the smallest consumer sequence once consumers are set, otherwise claims the next one |
| Sequencer.SingleProducerSequencer.RemainingCapacity | include/ull/core/single_producer_sequencer.h:37-57 | with what was claimed it makes up the capacity plus what was consumed, modulo 2^64, by the internal sequence or by the smallest consumer sequence once consumers are set |
| Sequencer.SingleProducerSequencer.IsAvailable | include/ull/core/single_producer_sequencer.h:72-78 | available means published, nothing being available before the first publish |
| Sequencer.SequencedRing.Create | include/ull/core/sequenced_ring.h:15-17 | construction fails exactly when the capacity is not a power of two |
| Sequencer.SequencedRing.Write | include/ull/core/sequenced_ring.h:23-25 | replaces the slot of its sequence and no other |
| Sequencer.SequencedRing.Read | include/ull/core/sequenced_ring.h:27-31 | returns the slot of its sequence |
| Sequencer.EventPipeline.Offer | src/app/sp_pipeline_bench_main.cpp:74-78 | claim, write and publish append the value exactly when fewer than capacity events are unconsumed |
| Sequencer.EventPipeline.Take | src/app/sp_pipeline_bench_main.cpp:54-68 | wait, read and mark take the oldest unconsumed event |
| Fanout.StepKeepsInv | src/app/sp_fanout_bench_main.cpp:180-217 | every timely step of the producer and any number of consumers keeps: claims within capacity of each consumer, unread slots intact, reads equal writes |
| Fanout.TimelyClaimIsSafe | include/ull/core/single_producer_sequencer.h:19-42 | at a timely decision the room has no underflow and the claim stays within capacity of every consumer |
| FanoutTheorems.FanoutIsSafe | src/app/sp_fanout_bench_main.cpp:180-217 | in every timely run each consumer is within capacity of the producer, its unread slots hold their events, an event being written is incomplete, it has read exactly the values written in order, and it never stops on the visibility check |
| FanoutTheorems.FinishedConsumerReadAll | src/app/sp_fanout_bench_main.cpp:180-199 | a consumer that has been through all messages has read all of them |
| FanoutProgress.CanAlwaysFinish | src/app/sp_fanout_bench_main.cpp:180-217 | outside a scan every state of a timely run has a timely continuation in which the producer writes everything and each consumer has read exactly that |
| FanoutCalls.ProduceOne | src/app/sp_fanout_bench_main.cpp:213-217 | with room, an uninterrupted turn of the producer claims the next sequence, writes its slot and publishes it |
| FanoutCalls.ConsumeOne | src/app/sp_fanout_bench_main.cpp:184-199 | an uninterrupted turn of a consumer reads its visible sequence and reports it |
| FanoutTheorems.VisibleStaysVisible | include/ull/core/sequence_barrier.h:23-35 | wait_until_available returns a published sequence at or after the one asked for |
| FanoutTheorems.UndisturbedClaimIsSafeIff | include/ull/core/single_producer_sequencer.h:37-42 | after an undisturbed scan the allowed claim is safe exactly when all consumers have started or fewer than capacity sequences were claimed |
| FanoutTheorems.BlockedProducerHasReader | include/ull/core/single_producer_sequencer.h:29-35 | a producer without room implies a consumer with something to read |
| FanoutTheorems.DrainedRingHasRoom | include/ull/core/single_producer_sequencer.h:37-42 | when every consumer has read everything the producer has all its room |
| FanoutTheorems.OneConsumerIsTimely | include/ull/core/single_producer_event_pipeline.h:15-57 | with one consumer every run is timely, so the pipeline needs no condition |
| FanoutTheorems.AllStartedIsTimely | src/app/sp_fanout_bench_main.cpp:195-199 | once every consumer has marked an event, every later run is timely |
| FanoutProgress.NoneStartedIsTimely | include/ull/core/gating_sequences.h:28-43 | while nobody has started and nobody starts, every run is timely |
| FanoutFailure.UnstartedConsumerIsOverrun | src/app/sp_fanout_bench_main.cpp:180-217 | for every capacity and every consumer count from 2 a run in which a consumer reads the wrong value for sequence 0 and the room computation then wraps and lets the producer claim |
| FanoutFailure.WrongReadIsUntimely | src/app/sp_fanout_bench_main.cpp:180-217 | any run with a wrong first read had an untimely decision |
| BlockingQueueObject.BlockingQueue.Push | include/ull/core/blocking_queue.h:23-37 | one pass under the lock: closed throws, full sleeps, otherwise the value is appended |
| BlockingQueueObject.BlockingQueue.Pop | include/ull/core/blocking_queue.h:39-51 | one pass under the lock: takes the front even when closed, reports closed only when empty, otherwise sleeps |
| BlockingQueueObject.BlockingQueue.Create | include/ull/core/blocking_queue.h:13-18 | construction fails exactly at capacity 0 |
| BlockingProtocol.StepKeepsInv | include/ull/core/blocking_queue.h:23-58 | every step keeps: a sleeping consumer implies size <= signalled consumers, a sleeping producer implies free places <= signalled producers, closed implies no sleepers |
| BlockingProtocol.NoLostWakeup | include/ull/core/blocking_queue.h:23-58 | in every reachable state a sleeper whose condition holds is matched by a signalled thread of its kind that can run |
| BlockingProtocol.NeverBothAsleep | include/ull/core/blocking_queue.h:26-49 | consumers and producers asleep together imply a signalled thread |
| BlockingProtocol.QuietSleepersAreRight | include/ull/core/blocking_queue.h:26-42 | when no thread inside can run, consumers sleep on an empty open queue and producers on a full open one |
| BlockingProtocol.CloseReleasesEveryone | include/ull/core/blocking_queue.h:31-58 | after close, in every continuation: the queue stays closed, nothing enters it, nobody sleeps, every thread that takes a turn leaves, push throws, pop reports closed exactly when the queue is empty |
| BlockingProtocol.TurnEndsIff | include/ull/core/blocking_queue.h:26-46 | a turn ends the call exactly when the awaited condition holds and otherwise sleeps without touching the queue |
| BlockingProtocol.TurnWakesOne | include/ull/core/blocking_queue.h:35-49 | a turn that moved an item wakes exactly one sleeper of the other kind if there is one, any other turn wakes nobody |
| BlockingProtocol.OthersStayInside | include/ull/core/blocking_queue.h:23-58 | no other step ends or alters a thread's call, a wake-up lets it run, and only close closes |
| BlockingProtocol.TurnIsPossible | include/ull/core/blocking_queue.h:23-51 | a thread that is not asleep can always take its turn, and any sleeper of the other kind may be the one woken |
| BlockingProtocol.RunRefinesFifo | include/ull/core/blocking_queue.h:23-51 | every run is a run of a FIFO that holds at most capacity items |
| Histogram.PercentileIsOrderStatistic | src/perf/latency_hist.cpp:10-28 | for every target from 1 to the count the result is the bucket that holds the target-th smallest raw sample, or the last bucket when that sample exceeds the maximum |
| Histogram.PercentileIsMonotone | src/perf/latency_hist.cpp:17-28 | a larger target never gives a smaller result |
| Histogram.TargetZeroIsBucketZero | src/perf/latency_hist.cpp:20-25 | target 0 gives the first bucket whatever the samples |
| Histogram.MedianOfOneSampleIsZero | src/perf/latency_hist.cpp:32-38 | so one sample in a later bucket has reported median 0 |
| Histogram.LatencyHist.Add | src/perf/latency_hist.cpp:10-15 | adds one to the bucket that holds the sample, or to the last one when it exceeds the maximum, and every bucket keeps counting exactly its samples |
| Histogram.LatencyHist.PercentileNs | src/perf/latency_hist.cpp:17-28 | the loop returns the start of the first bucket whose cumulative count reaches the target, never falling through |
| Histogram.LatencyHist.Percentiles | src/perf/latency_hist.cpp:32-52 | p50, p99 and p999 are the buckets of the raw samples of rank count * p rounded down, 0 for rank 0 or no samples, and they rise |
| GapAccounting.CleanIffConsecutive | src/app/mpsc_bench_main.cpp:145-155 | a producer's stream has no gap and nothing late exactly when it is 0, 1, 2, ... |
| GapAccounting.NothingLateIffRising | src/app/mpsc_bench_main.cpp:147-155 | nothing is late exactly when the numbers rise |
| GapAccounting.StreamCounts | src/app/mpsc_bench_main.cpp:147-155 | over any stream: gap events are the numbers larger than one more than everything before, late ones those not larger than something before, and missing ones what the largest number leaves open |
| GapAccounting.RisingGaps | src/app/mpsc_bench_main.cpp:147-152 | in a rising stream a gap event is a number that does not follow the one before it |
| GapAccounting.TotalCountsEvents | src/app/mpsc_bench_main.cpp:142-156 | over any consumed messages the totals count the messages that jump ahead in their own stream and those that come late |
| GapAccounting.PushVerdictIsExact | src/app/mpsc_bench_main.cpp:234-241 | over any consumed messages the push-mode verdict is true exactly when every producer's messages arrived as 0 .. M-1 in order |
| GapAccounting.MissingIsExact | src/app/mpsc_bench_main.cpp:147-220 | with nothing late, valid ids and numbers below M, the corrected missing count is producers * M - consumed |
| GapAccounting.Consume | src/app/mpsc_bench_main.cpp:137-160 | the consumer loop computes the stream lengths, next expected numbers, how many messages jumped ahead, how many came late, and the missing total of what it consumed |
| GapAccounting.CorrectTail | src/app/mpsc_bench_main.cpp:216-220 | the tail loop adds what each stream is short of M |
| GapAccounting.JudgePushRun | src/app/mpsc_bench_main.cpp:230-241 | consuming, correcting and judging returns that verdict and missing count |
| MpscRun.StepKeepsInv | src/app/mpsc_bench_main.cpp:133-214 | every step of the run keeps the count balance, rising streams and the done-flag order, on top of the ring's own invariant |
| MpscRun.ExitedHasEverything | src/app/mpsc_bench_main.cpp:137-203 | when the consumer's loop has ended it consumed everything published, and published + dropped is everything |
| MpscRun.DropRunIsAccounted | src/app/mpsc_bench_main.cpp:243-246 | in every run, whatever is refused, the loop ends with consumed == published, nothing out of order, and missing == dropped |
| MpscRun.PushVerdictIffNothingDropped | src/app/mpsc_bench_main.cpp:234-241 | such a run passes the push-mode verdict exactly when nothing was refused |
| MpscRun.CanAlwaysExit | src/app/mpsc_bench_main.cpp:137-203 | from every state of every run a finite continuation ends the consumer's loop |
| MpscRun.FullRingDropsOne | src/app/mpsc_bench_main.cpp:188-202 | a try_push on a full ring counts one message as dropped and the producer goes on to the next |
| BusyShutdown.BusyRunDelivers | src/app/busy_vs_blocking_bench_main.cpp:36-77 | with the done flag and the draining loop, the exited consumer has popped exactly 1..N in order and sampled N - warmup |
| BusyShutdown.CanAlwaysExit | src/app/busy_vs_blocking_bench_main.cpp:36-77 | from every state of every such run the consumer can still reach its exit |
| BlockingShutdown.BlockingRunDelivers | src/app/busy_vs_blocking_bench_main.cpp:94-123 | with close and drain, the exited consumer has popped exactly 1..N in order and sampled N - warmup, and no push meets a closed queue |
| BlockingShutdown.CanAlwaysExit | src/app/busy_vs_blocking_bench_main.cpp:94-123 | from every state of every such run the two threads can still reach the exit, so neither is left asleep |

## Left out

- The C++ memory model beyond stale loads: the steps interleave, and a plain payload access is taken to see the latest write because it never races.
- Stale loads of the fan-out sequences and cursor: these loads read the latest value.
- MPSC positions beyond 2^64 - capacity: positions are unbounded; `MpscTheorems.NumbersFitInWord` says up to where this is the 64-bit code.
- `push` of the multi-producer ring as an object method: alone on a full ring it spins for ever, so it is in the step system only.
- Fair scheduling: the runs are shown to be able to end from every state, not that every scheduler ends them.
- `next` of the sequencer and `wait_until_available` as object methods: alone they spin for ever, so their loops are in the fan-out step system only.
- Construction of a sequencer or a pipeline with a capacity that is not a power of two: the exception leaves a `noexcept` constructor and ends the program.
- MpscRingObject.MpscRing.TryPush: with one slot it says no more than that the call succeeds and leaves the overwritten value; what follows is in `MpscBoundary`.
- Histogram.LatencyHist.Percentiles: `total * p` is taken over the real numbers, without floating-point rounding.
- The value of a latency sample: clocks and tick conversion are arbitrary inputs, and the runs only count samples.
- Switching the gating source of a sequencer during a run, and a barrier without a sequencer.
- Completion of a fan-out run in which a decision was already untimely: nothing is claimed about such runs beyond the failing ones shown.
- The padded and unpadded variants of the rings: same bodies, other field alignment.
- Wait strategies, thread pinning, sockets, argument parsing, text and JSON output.
