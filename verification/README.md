# Ring buffer and timer list: a verified model

This project models three pieces of the storytelling device's software and
proves what they are meant to guarantee:

- the lock-free, multi-producer, single-consumer ring buffer of
  `src/ringbuf.c`;
- the client that plays messages out of it, in `src/as_aud_speak.c`;
- the intrusive timer list of `src/MultiTimer.c`.

`dafny verify dfyconfig.toml` checks everything.

## How the ring is modelled

| file | what it holds |
|---|---|
| `Integers.dfy` | the sizes of the machine integers |
| `PackedWords.dfy` | the 64-bit words: masks, counter, lock bit, bit by bit |
| `Queue.dfy` | what the ring is for, without the ring: a queue of reserve, write, commit and take |
| `Machine.dfy` | the transition system: each atomic load, store or compare-and-swap is one step; any number of workers, one consumer, any interleaving |
| `Invariant.dfy` | the inductive invariant |
| `ProducerSteps.dfy`, `ConsumerSteps.dfy` | every step keeps it |
| `Refinement.dfy`, `Runs.dfy` | every run is a run of the queue, and what the consumer reads is what the producers wrote |
| `Safety.dfy` | what holds in every reachable state, and between steps of every run |
| `Promptness.dfy` | what consume returns at least, and when it sets the offset, while producers go on |
| `Refusals.dfy` | what a refusal of acquire means while other threads go on |
| `Calls.dfy` | one call of acquire through its retries, from the request to the range or the refusal |
| `Operations.dfy` | the operations taken one at a time, and exactly what they return |
| `Sequential.dfy` | such an operation is a sequence of atomic steps |
| `RingBuffer.dfy` | the program itself: a class with the fields of `ringbuf_t`, packed words, loops; each method is proved to do to its fields what the transition system does to its state |

The proofs rest on one picture.  Lay the buffer out as one endless stream of
bytes.  Every acquired range has a position in that stream, ranges follow each
other without gaps in the order of the successful CAS, and the consumer has
released a prefix of it.  `cur` is the stream position of offset 0 for the
producers, `lag` the one for the consumer; they differ while the consumer is a
lap behind.  These, the list of all ranges, and the untruncated lap count are
history: no branch of the program depends on them.

`RingMachine.Decide` is one pass of the loop of `ringbuf_acquire`
(`src/ringbuf.c:221-258`), `RingMachine.Observe` the loop body of the scan
(336-359), `RingMachine.Advance` the update of `ringbuf_release` (423-429);
`ApplyWorker` and `ApplyConsumer` give the effect of each step.

### Assumptions

- The length of the ring is above 0 and below 2^32 - 1, and 0 < len <= space in
  every call of acquire.
- A worker is registered before it acquires, alternates acquire and produce,
  and unregisters only when it holds no range.
- There is one consumer, and it releases no more than its last consume
  returned and it has not released yet.
- Memory is sequentially consistent.
- Fewer than 2^31 wrap-arounds happen between a worker's read of `next` and its
  CAS (`RingMachine.FewWraps`); `RingSafety.CounterCollides` says exactly when
  a longer window makes two different values look the same.
- Framed delivery: every range, when it is produced, holds one message whose
  header announces the rest of the range, as `src/as_aud_capture.c:127-136`
  sets it up.
- Timers: the list is used by one thread.  That timers due fire exactly once, in
  order of deadline, is proved for callbacks whose starts lead to deadlines after
  the sampled tick (`TimerExpiry.Later`; `TimerExpiry.LaterExactly` and
  `TimerExpiry.DueAgainExactly` say when a start meets this and what happens when
  it does not).  The method `Yield` is proved for all callbacks with which its
  loop ends.

### Where the code and its description differ

- `ringbuf_consume` leaves `*offset` alone when it returns at
  `src/ringbuf.c:324`.  The client nevertheless asserts in every round that its
  variable `off` is below the buffer size (`src/as_aud_speak.c:464`), and that
  variable is not initialised (line 414) and keeps its value between rounds.
  **The assertion can fail.**  `Speaker.RoundAssertsExactly` says when: exactly
  if the ring is empty and the variable is not an offset in the buffer.  After a
  range that ends at the physical end the variable is the buffer size
  (`Speaker.OffAfterRoundExactly`), so the client aborts if nothing was acquired
  until the next round (`Speaker.NextRoundAsserts`); `Speaker.StaleOffsetAborts`
  constructs such a run from a new ring, with any two messages that together fill
  the buffer.  `RingPromptness.OffsetInBufferExactly` has the same condition for
  a call that producers overtake, at its first read of `next`.  In the very first rounds, with nothing
  acquired, the assertion depends on the uninitialised value
  (`Speaker.FirstRoundAsserts`).
- `src/MultiTimer.h` describes the result of a yield as the time to the next
  expiry.  It is truncated to `int`, and can be 0 with a timer armed:
  `TimerExpiry.ZeroWithTimerArmed` starts a timer with timing 2^32 and yields at
  the same tick.  If all deadlines, those set by callbacks included, are less
  than 2^31 ticks away, the description is right
  (`TimerExpiry.YieldResultInTime`); `TimerExpiry.IdleYieldExact` and
  `TimerExpiry.YieldResultExact` give exact conditions, on the list before the
  yield when callbacks start and stop nothing, and on the list left in general.
- The loop of a yield need not end: a callback that restarts its timer with
  timing 0 while the clock stands still keeps it going for ever
  (`TimerExpiry.NeverStops`).
- The comment at `src/ringbuf.c:349-354` speaks of the smallest offset that is
  not behind `written`.  A producer that wrapped shows the old end and not the
  offset it was given; that this still holds the consumer back is
  `RingSafety.ResetAfterProduce` and `RingOperations.ScanAtCut`.
- A refusal by acquire need not mean that there was no room: a worker that was
  overtaken between its read of `next` and its read of `written` can be refused
  by an empty ring (`RingRefusals.RefusedWithRoom`).  It is exact for a worker
  that decides on the current `next` (`RingRefusals.RefusalExact`), and else some
  worker did acquire a range meanwhile (`RingRefusals.RefusalMeansProgress`).
- The whole space in one request is never granted
  (`RingOperations.WholeSpaceRefused`) although the assertion at
  `src/ringbuf.c:200` allows the call.

## How the timers are modelled

`TimerList.dfy` has the list as a sequence of timers with deadlines and the
three operations as functions on it; `TimerExpiry.dfy` has one yield, during
which the n-th callback makes an arbitrary finite list of start and stop calls
(`Firings` for any callbacks, `Expire` for those that keep to `Later`);
`TimerHistory.dfy` has whole histories of starts, stops and yields;
`MultiTimer.dfy` has the nodes on the heap and relinks them in place, each method
proved equal to its function.

## How the client is modelled

`Frames.dfy` has the messages and the walk over them, on bytes and on the queue.
`Speaker.dfy` has the loop of `src/as_aud_speak.c` on top of the ring.

## Model

| member | source | states |
|---|---|---|
| RingRuns.Delivery | src/ringbuf.c:195-430 | In every interleaving, what the consumer has read and released is exactly the first bytes of the produced ranges, in the order of their CAS, as their producers left them |
| RingRuns.RunRefines | src/ringbuf.c:195-430 | Every interleaving of atomic steps is a run of the reserve/write/commit/take queue |
| RingRuns.StepRefines | src/ringbuf.c:195-430 | Each step keeps the invariant and the stored bytes, and is a step of the queue or none |
| RingRuns.ReachableGood | src/ringbuf.c:107-430 | The invariant holds in every reachable state, from setup on |
| RingRuns.StepKeepsInv | src/ringbuf.c:137-430 | The invariant is inductive |
| ReserveQueue.OutputIsPrefix | src/ringbuf.c:293-295 | A queue run hands out each committed byte once, in order of reservation, never past the first open range |
| ReserveQueue.DeliverableGrows | src/ringbuf.c:293-295 | What may be consumed only grows, and never changes |
| ReserveQueue.DoneWasCommitted | src/ringbuf.c:297-304 | An item counts as committed only after its commit |
| RingSafety.GivenAfterProduce | src/ringbuf.c:297-415 | In every run, a range of which consume has returned or release has freed any byte was produced before, the wrapping producer's range included |
| RingProducerSteps.WorkerStep | src/ringbuf.c:137-304 | Every step of a worker keeps the invariant, even when it decided on a stale `written` |
| RingProducerSteps.CasOkStep | src/ringbuf.c:259-259 | A CAS that succeeds keeps the invariant, whatever the consumer did since `written` was read |
| RingProducerSteps.DecisionSound | src/ringbuf.c:225-258 | A decision taken on the current `next` keeps the new hand off the released position, on all three paths |
| RingProducerSteps.CasSawCurrent | src/ringbuf.c:259-259 | Within fewer than 2^31 wraps, a CAS that succeeds saw the lap it is in, and an unlocked `next` |
| RingConsumerSteps.ConsumerStep | src/ringbuf.c:309-430 | Every step of the consumer keeps the invariant |
| RingConsumerSteps.RegularGrant | src/ringbuf.c:402-414 | In the regular case the returned bytes are all produced and end at a record boundary, even if producers moved on during the scan |
| RingConsumerSteps.LappedGrant | src/ringbuf.c:365-414 | In the wrap-around case likewise, up to the cut-off |
| RingConsumerSteps.ResetWaits | src/ringbuf.c:371-391 | When the scan found no offset and `written` is at the cut-off, the wrapping producer has produced, and this is the first pass |
| RingSafety.RangeInBuffer | src/ringbuf.c:215-259 | In every state satisfying the invariant, each outstanding or unreleased range lies in the buffer |
| RingSafety.RangesDisjoint | src/ringbuf.c:215-259 | Any two of them lie in the buffer and are disjoint, even when acquire decided on a stale `written` |
| RingSafety.FillEnabled | src/ringbuf.c:189-193 | The holder of a range can write exactly the bytes of the range: none of them is out of bounds |
| RingCalls.HoldsAsRequested | src/ringbuf.c:189-291 | In every run, a worker that returned from acquire holds exactly as many bytes as it asked for, however often the call retried |
| RingCalls.AcquiresAsRequested | src/ringbuf.c:195-259 | In every run, the CAS of a call appends a range of the requested length |
| RingCalls.FailureGoesOn | src/ringbuf.c:203-259 | In every run, a failed CAS, spurious or not, makes the call start over with the same length |
| RingCalls.CallEnds | src/ringbuf.c:195-291 | A call ends only with a range or by the step that returns -1 |
| RingCalls.RefuseHasCause | src/ringbuf.c:203-252 | In every run, a call that returns -1 was refused because there was no room, or because another worker acquired a range since its last read of `next`; a failed CAS alone never ends it |
| RingSafety.GrantApart | src/ringbuf.c:309-430 | What consume returned does not meet any range still being written |
| RingSafety.GrantStable | src/ringbuf.c:306-308 | In every run, what consume returned does not change until the consumer's next operation, whatever producers do |
| RingSafety.GrantEndsAtBoundary | src/ringbuf.c:309-415 | In every run, consume ends where a record ends |
| RingSafety.Conservation | src/ringbuf.c:221-258 | Bytes acquired are bytes released plus bytes in the buffer; the latter plus the skipped tail stay below the space |
| RingSafety.FullIsNotEmpty | src/ringbuf.c:322-325 | `next` and `written` meet exactly when nothing is outstanding or unreleased |
| RingSafety.EndHandOff | src/ringbuf.c:275-289 | In every run, outside the two windows, `end` is set exactly while a producer wrapped by exceeding and the consumer has not followed, and then `written <= end < space` |
| RingSafety.EndNotOverwritten | src/ringbuf.c:277-279 | `end` is stored only while it is clear |
| RingSafety.ResetAfterProduce | src/ringbuf.c:376-390 | In every run, `written` is reset only after the producer that wrapped has produced, and the reset releases nothing |
| RingSafety.AssertionsHold | src/ringbuf.c:200-427 | No ASSERT of the file fails in any reachable state |
| RingSafety.PackingSound | src/ringbuf.c:215-258 | In every run, offset, counter and lock bit never carry into each other in any word read or about to be stored, and `next + len` does not overflow |
| RingSafety.NextMovesForward | src/ringbuf.c:253-259 | Each successful CAS moves (laps, offset) strictly forward, no other step moves it, and no CAS succeeds under the lock bit |
| RingSafety.CasMeansUnchanged | src/ringbuf.c:215-259 | A CAS succeeds only if `next` had one and the same value at every moment since the worker read it |
| RingSafety.FailedCasMeansProgress | src/ringbuf.c:203-259 | Lock-freedom: a worker finds `next` changed at its CAS only if a worker's CAS succeeded since it read `next` |
| RingSafety.NextMonotone | src/ringbuf.c:253-259 | Over any part of a run (laps, offset) never goes back |
| RingSafety.CounterCollides | src/ringbuf.c:75-76 | Two values of `next` look alike exactly when the offsets agree and the laps differ by a multiple of 2^31 |
| RingSafety.RetryAtMostOnce | src/ringbuf.c:376-391 | Between two resets of `written` there is a new call of consume |
| RingSafety.ConsumeTerminates | src/ringbuf.c:312-415 | Every step of consume other than spinning decreases a measure |
| RingSafety.AcquireStepsOffered | src/ringbuf.c:195-259 | An idle worker can begin an acquire of any length from 1 to the space in every state, whatever the consumer and the other workers do; each step up to the CAS is possible exactly at its program point, and a CAS may fail for no reason |
| RingSafety.OtherStepsOffered | src/ringbuf.c:137-304 | The steps after the CAS, produce, register and unregister are possible exactly at their program points |
| RingSafety.ReleaseOffered | src/ringbuf.c:417-430 | Outside consume, any part of what is still granted can be released; the rest stays granted, with the same bytes |
| RingSafety.CasSucceedsExactly | src/ringbuf.c:253-259 | A CAS succeeds exactly if the offset is the one read, `next` is unlocked, and the laps in between are a multiple of 2^31 |
| RingSafety.StepTaken | src/ringbuf.c:75-76 | No step is left out of the runs but for 2^31 or more wrap-arounds since a worker read `next` |
| RingSafety.WorkerWaitsForLock | src/ringbuf.c:157-170 | A worker can take its next step unless it waits for the lock bit of `next` |
| RingSafety.LockerNeverWaits | src/ringbuf.c:267-288 | The worker that set the lock bit can always go on, and clears it within three steps of its own |
| RingSafety.ConsumerWaitsForWorker | src/ringbuf.c:321-348 | The consumer waits only for the lock bit, or for a worker inside acquire that itself can go on or waits for the lock bit |
| RingPromptness.ConsumeReturnsEnough | src/ringbuf.c:309-415 | In every interleaving, a call of consume returns at least what an uninterrupted call would have returned when it first read `next`, past the cut-off included, and only bytes that are produced |
| RingPromptness.ConsumeSetsOffset | src/ringbuf.c:321-410 | In every interleaving, a call leaves the offset unset if and only if its first read of `next` finds the ring empty; the pass after the retry always sets it |
| RingPromptness.OffsetPointsAtData | src/ringbuf.c:409-414 | In every interleaving, the offset left by a call is `written`, and the returned bytes from there are the next deliverable bytes of the queue, inside the buffer |
| RingPromptness.OffsetInBufferExactly | src/as_aud_speak.c:463-464 | In every interleaving, the assertion on `off` holds if and only if `off` was in the buffer or the first read of `next` did not find the ring empty |
| RingRefusals.RefusalExact | src/ringbuf.c:225-252 | A worker is refused if and only if there is no room at the offset it read, below the `written` it reads; deciding on the current `next`, if and only if there is no room at that moment |
| RingRefusals.RefusalMeansProgress | src/ringbuf.c:215-252 | In every run, a worker refused while there is room was overtaken by a successful CAS since it read `next` |
| RingRefusals.RefusedWithRoom | src/ringbuf.c:215-232 | Runs from a new ring in which an overtaken worker is refused by an empty ring with room |
| RingRefinement.PositionsApart | src/ringbuf.c:215-259 | Distinct stream positions in use have distinct offsets inside the buffer |
| RingRefinement.GrantContents | src/ringbuf.c:407-414 | The returned bytes sit contiguously at `written` and are the queue's next bytes |
| RingRefinement.GrantDeliverable | src/ringbuf.c:407-414 | A result of consume never reaches past the first range that is not produced |
| RingOperations.AcquireExact | src/ringbuf.c:225-258 | Acquire succeeds if and only if there is room: below the consumer a lap ahead of it, else up to the end, exactly to the end, or at the start |
| RingOperations.AcquireAnswers | src/ringbuf.c:195-291 | The answer is an offset if and only if there is room, and then the worker holds a new range exactly there; else it is -1 and nothing changed |
| RingOperations.AcquireAppends | src/ringbuf.c:259-290 | The acquired range is the next of the stream, of the requested length, inside the buffer at the returned offset; nothing is released |
| RingOperations.ScanIsMinimum | src/ringbuf.c:334-359 | `ready` is the least offset shown at or above `written`, or the maximum if there is none |
| RingOperations.ScanAtCut | src/ringbuf.c:371-376 | At the cut-off the scan finds nothing exactly when the range after the cut-off is produced |
| RingOperations.SameLapAvailable | src/ringbuf.c:402-414 | The regular case returns the longest produced prefix |
| RingOperations.LapBehindAvailable | src/ringbuf.c:365-414 | The wrap-around case returns the longest produced prefix up to the cut-off, or resets, exactly when it may |
| RingOperations.AvailableExact | src/ringbuf.c:309-415 | Consume returns the longest produced contiguous prefix: it ends at an open range, at `next`, at `end` or at the physical end |
| RingOperations.Progress | src/ringbuf.c:309-415 | With everything produced, consume returns 0 if and only if nothing is unreleased |
| RingOperations.RoundEmptiesLap | src/ringbuf.c:309-430 | With everything produced, one consume and release empties the consumer's lap |
| RingOperations.TwoRoundsDrain | src/ringbuf.c:309-430 | With everything produced, two consume/release rounds drain the ring |
| RingOperations.EmptyRingAccepts | src/ringbuf.c:225-258 | An empty ring accepts a request exactly under a condition on its offset, and always if twice the request fits the space |
| RingOperations.WholeSpaceRefused | src/ringbuf.c:225-258 | A request for the whole space is refused in every state |
| RingSequential.HalfSpaceIsTight | src/ringbuf.c:225-258 | For every len above half the space and below the space, a new ring can reach an empty state that refuses len |
| RingSequential.Drained | src/ringbuf.c:309-430 | The two rounds are steps of the transition system and end in an empty ring |
| RingSequential.AcquireLeads | src/ringbuf.c:195-291 | An acquire that is not interrupted is a sequence of atomic steps |
| RingSequential.ConsumeLeads | src/ringbuf.c:309-415 | A consume that is not interrupted is a sequence of atomic steps, through the retry or not |
| RingSequential.LeadsExtendsRun | src/ringbuf.c:195-430 | Operations in succession continue a run, so what holds of runs holds of them |
| RingBuffers.RingBuffer.constructor | src/ringbuf.c:80-101 | The zeroed structure with its workers |
| RingBuffers.RingBuffer.Setup | src/ringbuf.c:106-118 | Fails with -1 and no change for a length of 2^32 - 1 or more; else an initial state of the transition system |
| RingBuffers.RingBuffer.Register | src/ringbuf.c:137-145 | The worker shows no offset and is registered; nothing else changes |
| RingBuffers.RingBuffer.Unregister | src/ringbuf.c:147-152 | The worker is not registered any more; nothing else changes |
| RingBuffers.RingBuffer.Acquire | src/ringbuf.c:195-291 | Returns an offset if and only if there is room, with a new range of that length appended exactly there; else -1 and nothing changed |
| RingBuffers.RingBuffer.AcquireFields | src/ringbuf.c:195-291 | The same for the packed fields, masks and ASSERTs included |
| RingBuffers.ComputeTarget | src/ringbuf.c:221-258 | The bit operations of one pass, on any word and any `written`, compute the packed target or refuse |
| RingBuffers.RingBuffer.Produce | src/ringbuf.c:297-304 | The range is produced; the ASSERTs hold |
| RingBuffers.RingBuffer.Consume | src/ringbuf.c:309-415 | Returns the longest produced prefix, sets the offset to `written` or leaves it as it was, and leads to the state that `AvailableExact` describes |
| RingBuffers.RingBuffer.ScanWorkers | src/ringbuf.c:334-359 | The loop over the workers, proved against the scan on values |
| RingBuffers.RingBuffer.ConsumeFields | src/ringbuf.c:309-415 | The same for the fields, with the scan loop, the retry and the ASSERTs |
| RingBuffers.RingBuffer.Release | src/ringbuf.c:420-430 | Frees the bytes, back to offset 0 at the physical end; the ASSERTs hold |
| PackedWords.MaskMeanings | src/ringbuf.c:71-76 | The masks select bits 0-31, 32-62 and 63 of any word |
| PackedWords.FieldsOfPack | src/ringbuf.c:71-76 | Each mask recovers its field of a packed word |
| PackedWords.PackInjective | src/ringbuf.c:71-76 | Comparing packed words compares all fields |
| PackedWords.WrapIncrSteps | src/ringbuf.c:75-76 | WRAP_INCR steps the counter modulo 2^31 and never touches the lock bit |
| PackedWords.LockSet | src/ringbuf.c:218-218 | Setting the lock bit keeps the offset |
| PackedWords.LockCleared | src/ringbuf.c:267-267 | Clearing the lock bit keeps the rest |
| PackedWords.CounterJoined | src/ringbuf.c:253-257 | Joining an offset, locked or not, with a counter gives the packed word |
| Frames.MessageRoundTrip | src/as_msg_def.h:30-34 | A message is recovered from its bytes |
| Frames.MessageLayout | src/as_msg_def.h:30-34 | The eight header bytes hold type and payload length, low byte first, and the payload follows |
| Frames.WalkPastFrame | src/as_aud_speak.c:469-480 | A walk over a message followed by anything meets that message, then what the rest holds |
| Frames.WalkItems | src/as_aud_speak.c:467-481 | A walk over a row of messages meets exactly these and stops at the end |
| Frames.AlignedTake | src/as_aud_speak.c:463-487 | Taking from item boundary to item boundary gives whole committed items |
| Frames.EveryMessageOnce | src/as_aud_speak.c:463-487 | In a queue run with messages in the items, the walks visit every message once, in order of reservation |
| Speaker.PlaysInOrder | src/as_aud_speak.c:463-487 | In every interleaving of the ring, the client plays every message once, in the order of acquisition |
| Speaker.PlaybackGoesOn | src/as_aud_speak.c:461-487 | Every step of the machine extends such a run, but for releasing less than consume returned and producing something else than a message |
| Speaker.WalkRange | src/as_aud_speak.c:467-481 | The inner loop never reads past the range, stops with `vlen == len` and `off` behind the range, and plays what the walk meets |
| Speaker.SpeakOnce | src/as_aud_speak.c:461-487 | One round aborts if and only if the ring is empty and `off` is not in the buffer; else it plays whole messages, the next ones in order, releases exactly them, and leaves `off` as stated |
| Speaker.RoundAssertsExactly | src/as_aud_speak.c:463-464 | The assertion on `off` holds if and only if `off` was in the buffer or the ring is not empty |
| Speaker.FirstRoundAsserts | src/as_aud_speak.c:414-464 | On a new ring the assertion holds if and only if the uninitialised value happens to be in the buffer |
| Speaker.OffAfterRoundExactly | src/as_aud_speak.c:463-487 | What `off` is after a round: at most the buffer size, and equal to it exactly if the range ended at the physical end |
| Speaker.NextRoundAsserts | src/as_aud_speak.c:463-487 | After such a range the next round's assertion fails exactly if nothing was acquired in between |
| Speaker.StaleOffsetAborts | src/as_aud_speak.c:463-487 | For any two messages that together fill the buffer, a run from a new ring in which both are acquired, written, produced and played, and the third round aborts |
| TimerList.CallProper | src/MultiTimer.c:15-50 | Start and stop keep the list sorted and free of duplicates |
| TimerList.CallLookup | src/MultiTimer.c:15-50 | The list stands for a map: a start sets one deadline, `timing` ticks after now, modulo 2^64; a stop clears one; nothing else changes |
| TimerList.LastCallCounts | src/MultiTimer.c:15-50 | Of several calls about a timer in one callback, the last one decides |
| TimerList.CallKeepsOrder | src/MultiTimer.c:15-50 | The other timers keep their relative order |
| TimerList.RemoveProper | src/MultiTimer.c:15-24 | The removed timer is gone; removing an absent one changes nothing |
| TimerList.InsertProper | src/MultiTimer.c:37-42 | An insertion keeps the order, adds only the timer, and is undone by removing it |
| TimerList.RunIsLifo | src/MultiTimer.c:26-66 | Over any run of starts, stops and expiries the list is ordered by deadline, equal deadlines latest start first |
| TimerExpiry.ExpireSound | src/MultiTimer.c:52-66 | A yield fires no timer early or twice, fires in order of deadline, and leaves only later deadlines in a proper list |
| TimerExpiry.ExpireExact | src/MultiTimer.c:52-66 | A timer due at the tick fires if and only if no earlier callback stopped or restarted it |
| TimerExpiry.NotDueNotFired | src/MultiTimer.c:57-57 | A timer that is not due at the tick does not fire |
| TimerExpiry.ExpireKeeps | src/MultiTimer.c:52-66 | A timer that is not due and not mentioned keeps its deadline |
| TimerExpiry.CallAllDue | src/MultiTimer.c:61-63 | A callback never adds to the timers due, so the loop ends |
| TimerExpiry.LaterExactly | src/MultiTimer.c:33-33 | Without overflow, a start in a callback is safe exactly when the clock moved on or the timing is at least 1 |
| TimerExpiry.ForwardStartsAreQuiet | src/MultiTimer.c:33-33 | Callbacks that start timers with a timing of at least 1, under a clock that does not go back and without overflow, meet that condition |
| TimerExpiry.DueAgainExactly | src/MultiTimer.c:33-33 | A timer started by a callback is due again at the sampled tick exactly when that condition fails |
| TimerExpiry.YieldIsLifo | src/MultiTimer.c:37-66 | After any history, a yield fires timers of equal deadline latest start first, and leaves a list that comes from a longer history |
| TimerHistory.StartFiresInTime | src/MultiTimer.c:26-66 | Over any history, a timer started at `now` with `timing`, and not stopped or restarted, fires in no yield before tick `now + timing`, and in the first at or after it unless an earlier callback of that yield stopped or restarted it (2^64 less where the sum overflows) |
| TimerHistory.EachFiringHasItsStart | src/MultiTimer.c:26-66 | A start leads to at most one firing: there is a start of the timer before its first firing and between any two |
| TimerHistory.HistoryIsEvents | src/MultiTimer.c:26-66 | Every history comes down to single calls and expiries, with the same list and the same firings in the same order |
| TimerExpiry.LaterStops | src/MultiTimer.c:52-66 | With starts of callbacks after the tick, the loop ends after at most as many firings as timers were due |
| TimerExpiry.NeverStops | src/MultiTimer.c:57-64 | A callback that restarts its timer with timing 0 on a standing clock fires for ever |
| TimerExpiry.FiringsSound | src/MultiTimer.c:52-66 | Whatever callbacks do, no timer fires before its deadline and the list stays proper |
| TimerExpiry.YieldResultInTime | src/MultiTimer.c:52-66 | If every deadline, in the list or set by a callback, is less than 2^31 ticks away, the result is the distance to the earliest deadline left, and 0 if and only if none is left |
| TimerExpiry.IdleYieldExact | src/MultiTimer.c:52-66 | With callbacks that start and stop nothing, the result is exact if and only if the first timer not due is less than 2^31 ticks away |
| TimerExpiry.YieldResultExact | src/MultiTimer.c:65-65 | The result is the distance to the earliest deadline left exactly when that is below 2^31, and 0 with timers left exactly for multiples of 2^32 |
| TimerExpiry.YieldResultAgrees | src/MultiTimer.c:65-65 | In general the result lies in [-2^31, 2^31) and agrees with the distance modulo 2^32 |
| TimerExpiry.ZeroWithTimerArmed | src/MultiTimer.c:65-65 | A timer started with timing 2^32 makes a yield at the same tick return 0 while it is armed |
| MultiTimers.TimerModule.Install | src/MultiTimer.c:7-13 | Refuses a null tick function, else installs it |
| MultiTimers.TimerModule.RemoveTimer | src/MultiTimer.c:15-24 | Relinks the list in place to the list without the timer |
| MultiTimers.TimerModule.Place | src/MultiTimer.c:37-42 | Relinks the list in place to the list with the timer inserted |
| MultiTimers.TimerModule.Start | src/MultiTimer.c:26-45 | The three error cases change nothing; else the timer is armed or moved, with deadline `now + timing`, less 2^64 if that overflows |
| MultiTimers.TimerModule.Stop | src/MultiTimer.c:47-50 | Always 0; the timer, if armed, is gone |
| MultiTimers.TimerModule.Pop | src/MultiTimer.c:58-59 | Takes the first timer off, whose `next` stays stale |
| MultiTimers.TimerModule.RunCallback | src/MultiTimer.c:61-63 | Any finite list of start and stop calls, re-entering the list |
| MultiTimers.TimerModule.Yield | src/MultiTimer.c:52-66 | For all callbacks with which the loop ends, the timers fired, the list left and the result are those of the yield on values |

## Left out

- Weak memory: the orders given to the atomic operations are not modelled; every
  step acts on one shared memory.
- The back-off while spinning, and fairness: a producer can lose every CAS, and
  nothing is claimed about how long it tries.  Spinning is a step that is not
  enabled.
- `ringbuf_get_sizes`, and the memory layout of the structure.
- A ring of length 0, which setup accepts: every acquire on it breaks the
  assertion on `len`.
- RingBuffers.RingBuffer.AcquireFields: without interruption the CAS succeeds at
  the first attempt; failing ones, also spurious, are steps of the transition
  system.
- RingSafety.CasMeansUnchanged: for fewer than 2^31 wrap-arounds in the window;
  beyond that the CAS can succeed on an old value, when `RingSafety.CounterCollides`
  says so.
- RingSafety.ConsumeTerminates: the measure does not count the spinning on a lock
  bit.
- Clients that do not keep to the protocol, such as a release of more than
  consume returned, an acquire while a range is held, or the error paths of
  `src/as_aud_capture.c` that acquire again without produce.
- The receive-ring producer, `src/as_aud_transmit.c`, is not part of this model;
  it appears as the assumption that every produced range holds one message.
- Hosts that store words with the high byte first: the header is laid out as on the
  device's little-endian processor.
- What `as_speak_write_s16` does with a payload, the state machine around the
  loop, and the sleeps.
- Timers: a callback's identity and `userData`, and effects other than start and
  stop; the list used by several threads; installing another tick function or
  calling yield from inside a callback.
- MultiTimers.TimerModule.Yield: for a yield whose loop does not end nothing is
  stated beyond `TimerExpiry.NeverStops` and `TimerExpiry.FiringsSound`.
- Speaker.SpeakOnce: a round is not interrupted by producers; that its range
  stays as it is while producers go on is `RingSafety.GrantStable`.
- The audio, GPIO, network and authorization code.
