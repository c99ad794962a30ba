# Verified model of the que channels

que has two lock-free ring buffers over one shared `Channel`: a lossy single-producer
multi-consumer mode ("headless") and a lossless single-producer single-consumer mode, the
latter with C twins. This project models both in Dafny and proves what they promise for
every capacity, every element size in words and every interleaving. `dafny verify
dfyconfig.toml` checks all of it.

**Machines.** Each mode is a machine whose actions are one shared load, one shared store or
one word of a slot copy, so torn reads, stale cursors, crashes half-way through a slot and
restarts are all runs of it. Interleavings are sequentially consistent; in addition the
lossless producer's head loads may return any value between the head it last saw and the
current one. `log` is the published value of every position, `staged` what is pushed but not
synced. These, and the consumers' `out` and `skipped`, are history the code never reads.

- `HeadlessMachine`, `HeadlessSafety`, `HeadlessMargin`, `HeadlessCalls`, `HeadlessDelivery`,
  `HeadlessValues`: the machine has two parameters, the number of unsynced writes after which `push` syncs by
  itself and the window a consumer trusts. Reads are never torn or stale *if and only if* the
  two together fit the ring; the code's `burst` and `N - burst` sit exactly on that line.
- `LosslessMachine`, `LosslessSafety`, `LosslessFifo`, `LosslessCalls`, `LosslessSchedules`,
  `LosslessStall`, `LosslessHandOver`: one inductive invariant survives stale loads, two-step
  joins and crashes; from it follow the refinement of a two-stage bounded FIFO, conservation,
  slot ownership, honest fullness, the meaning of a batch reservation in every schedule, the
  exact batch size up to which every batch completes and from which a batching producer and
  a popping consumer block each other for good, and the exact left-over cursors on which a
  producer may join before the consumer.
- `Initialisation`: the race between initialisation and joins on zeroed memory.

**Objects.** `HeadlessChannel` and `LosslessChannel` are the producers, reservations,
borrowed elements and consumers as classes that update shared memory in place. Each carries a
ghost machine state, and each method is proved to be a run of the machine. The headless `Pop`
runs with arbitrary other parties between any two of its shared accesses (`Interference`);
its loop ends whenever finitely many publications happen. The lossless `Push`, `Reserve`,
`Pop` and `PopZeroCopy` likewise run among arbitrary steps of the other party (`OtherSteps`).

**Arithmetic.** `Words`, `Arithmetic`, `RingCopy` and `PageRounding`: elements, masking, residue steps, 64-bit
cursors, the one- or two-block copy of `write_all`, and the two page-rounding formulas.

Where the code and its comments differ the model follows the code: the Rust reservation
`commit` publishes only once `burst` values are unsynced although its comment says it
publishes all written values (que/src/lossless/producer.rs:499-513), and `write_iter` draws
and drops one more item than it writes when it stops on a full reservation
(que/src/lossless/producer.rs:489-494).

Two promises turned out false in general; each comes with its failing run and the exact
condition under which it holds.

- The C consumer's join loads the magic word a second time to tell "uninitialised" from
  "corrupt" (c/consumer.c:31 and 54), so a join racing with initialisation can report
  corruption. `Initialisation.JoinOutcomeIsExact` says when: exactly if it first loaded the
  magic before it was stored and finished after. A join that begins once the channel is live
  succeeds, one that finishes before is told "uninitialised". The claim is about the code as
  written; the field is a plain `uint64_t` (c/spsc.c:58), so a compiler may merge the two
  loads. It changes the diagnostic, not the returned code.
- A lossless producer that joins before the consumer, or initialises memory without storing
  the head (que/src/lossless/producer.rs:162-167), can overrun the ring: the full test is an
  equality. `LosslessHandOver.ProducerFirstIsExact`: it is sound exactly when the left-over
  tail is at or after the left-over head by at most one ring. The C initialisation stores a
  zero head as well (c/producer.c:68) and so always meets the condition.

## Model

| member | source | states |
|---|---|---|
| HeadlessMargin.MarginIsExact | que/src/headless_spmc/consumer.rs:180-227 | over all session starts and all runs every delivered value is the whole published value of its position, if and only if the window is empty or window plus unsynced limit is at most the capacity |
| HeadlessMargin.CodeMarginIsTight | que/src/headless_spmc/consumer.rs:181-215 | for every capacity `2^k` the code's window and limit are safe, one more on the window is not, and one more on the limit is not (beyond one slot) |
| HeadlessMargin.OversizedMarginFails | que/src/headless_spmc/producer.rs:256-275 | for any bounds that overlap there is a run in which an accepted read is not what was published |
| HeadlessMargin.WindowIsTight | que/src/headless_spmc/producer.rs:256-275 | a reachable state has published position `tail + burst - N - 1` and overwritten its slot by exactly `burst` unsynced pushes |
| HeadlessSafety.WindowIntactAlways | que/src/headless_spmc/producer.rs:256-275 | after every run from any session start, whatever window consumers trust, every published position from `tail + burst - N` on is still in its slot, producer crashes included |
| HeadlessSafety.RunKeepsSafe | que/src/headless_spmc/consumer.rs:165-232 | slots, half-copied buffers and deliveries stay right over every interleaving of word writes, syncs, restarts and any number of consumers |
| HeadlessSafety.RunKeepsBook | que/src/headless_spmc/consumer.rs:143-152 | for any bounds: at most `limit` unsynced writes, no slot ever written at or past `tail + limit`, every head in its own residue class and less than a stride past the tail, deliveries and skips disjoint and covering |
| HeadlessSafety.CheckDeliversPublished | que/src/headless_spmc/consumer.rs:206-231 | the accepting recheck implies the copied words are the published element |
| HeadlessValues.LogIsPushed | que/src/headless_spmc/producer.rs:256-275 | in every run without a producer restart, what is published and staged is what was so before followed by the arguments of the completed pushes, read off the action sequence, in order |
| HeadlessValues.DeliveryIsPushed | que/src/headless_spmc/consumer.rs:195-230 | a delivery at position `q` is in full the argument of the push that `q` was, counted from any state between pushes, a restart's included |
| HeadlessValues.SessionDeliversPushes | que/src/headless_spmc/mod.rs:91-101 | from the start of a session at tail `t` every delivery at `q` is the argument of push number `q - t` |
| HeadlessValues.RestartKeepsLog | que/src/headless_spmc/producer.rs:127-169 | a producer restart forgets what was staged and leaves everything published and every consumer as it was |
| HeadlessCalls.PushStagesValue | que/src/headless_spmc/producer.rs:256-275 | a push stores the value given in the next slot and stages it behind everything before; at the limit, and only then, all that was staged is published first |
| HeadlessCalls.PushIsRun | que/src/headless_spmc/producer.rs:256-275 | a whole push, forced sync included, is the run of its atomic steps, and appends the value given |
| HeadlessCalls.QuietPopIsRun | que/src/headless_spmc/consumer.rs:165-232 | with a quiescent producer a pop ends within two iterations, with the stated result |
| HeadlessDelivery.TeamPartition | que/src/headless_spmc/mod.rs:34-64 | each position published since the join is exactly one of delivered once, skipped or pending at consumer `position mod k` and unknown to the others; what was skipped lay behind the window of the tail that skipped it |
| HeadlessDelivery.TeamPartitionAlways | que/src/headless_spmc/consumer.rs:181-230 | that partition holds after every interleaving that follows the joins |
| HeadlessDelivery.TeamDeliversOnce | que/src/headless_spmc/mod.rs:121-154 | all outputs together hold a position at most once, with its published value |
| HeadlessDelivery.MergeIsPublished | que/src/headless_spmc/mod.rs:34-64 | without overrun the outputs merged by position are the published log since the join |
| HeadlessDelivery.QuietRunIsPrefix | que/src/headless_spmc/consumer.rs:165-232 | with the producer quiescent, after every run of one consumer its new output is a first part, in ascending order, of the published values of its own positions from `max(head, tail - window)` to the tail, and all of them once it has caught up |
| HeadlessDelivery.QuiescentDrain | que/src/headless_spmc/mod.rs:104-154 | some run of the consumer alone does hand out all of them, ascending, and leaves the head at the tail or beyond |
| HeadlessDelivery.DrainedPopsNothing | que/src/headless_spmc/consumer.rs:173-178 | after every run of a drained consumer it is between calls with the same head, output and skips: its pops return nothing for ever |
| HeadlessDelivery.SingleSlotDeliversNothing | que/src/headless_spmc/consumer.rs:180-193 | with one slot nothing is ever delivered in any run |
| HeadlessDelivery.RetriesBoundedByPublications | que/src/headless_spmc/consumer.rs:166-231 | in every reachable state a running pop has continued at most once more often than the tail was raised since it began |
| HeadlessDelivery.ContinuesBoundedByPublications | que/src/headless_spmc/consumer.rs:166-231 | the `continue`s of a call, counted step by step over any run, are at most one more than the steps that raised the tail meanwhile |
| HeadlessDelivery.ContinueNeedsLargerTail | que/src/headless_spmc/consumer.rs:185-227 | each `continue` strictly raises the head and a second one needs a tail larger than the first had seen |
| HeadlessDelivery.WordsDecideAlike | que/src/headless_spmc/consumer.rs:181-229 | while `tail + interval + N` fits a word the wrapping decisions equal the natural-number ones and no cursor overflows |
| HeadlessChannel.Consumer.Pop | que/src/headless_spmc/consumer.rs:165-232 | under any interference with finitely many publications the loop ends as a machine run; a value is the published one of an own position inside the window, at or after the old head, and every own position before that had fallen out of the window; nothing is returned only when caught up |
| HeadlessChannel.Consumer.ReadOptimistically | que/src/headless_spmc/consumer.rs:195-230 | the optimistic read either returns the published value of the head or moves the head on, having seen a new publication |
| HeadlessChannel.Consumer.JoinMulti | que/src/headless_spmc/consumer.rs:104-162 | reports zero magic, other wrong magic and wrong capacity as the three errors; otherwise the consumer starts at the first own position from the shared tail on, in the running session or a new one on memory something else left |
| HeadlessChannel.Producer.Push | que/src/headless_spmc/producer.rs:256-275 | the value is appended to what is published and staged, and exactly when `burst` values were unsynced all of those are published by it first |
| HeadlessChannel.Producer.Sync | que/src/headless_spmc/producer.rs:245-252 | everything staged is published by the one tail store, and the unsynced count starts over |
| HeadlessChannel.Producer.Join | que/src/headless_spmc/producer.rs:127-169 | reports zero magic, other wrong magic and wrong capacity as the three errors; a restarted producer continues at the shared tail and forgets what was unsynced; on memory something else left a session begins at its tail |
| HeadlessChannel.Producer.JoinOrInitialize | que/src/headless_spmc/producer.rs:171-240 | memory with magic 0 becomes the start of a session at tail 0, initialised memory is joined at its tail, wrong magic or capacity is refused with its own error |
| HeadlessChannel.HeadlessMulti | que/src/headless_spmc/mod.rs:34-64 | the fresh channel is empty, with nothing pushed, and has consumers `0 .. n-1` of stride `n`, each at the head of its index with nothing taken |
| HeadlessChannel.Reopen | que/src/lib.rs:19-34 | on any initialised memory, a lossless session's say, a producer and `n` consumers that join open a session at the tail found, with nothing pushed or taken |
| HeadlessChannel.MembersFormTeam | que/src/headless_spmc/mod.rs:34-64 | those consumers are a team whose partition is proved |
| LosslessSafety.RunKeepsInv | que/src/lossless/producer.rs:236-364 | `head <= consumer head <= tail <= producer tail <= head + N`, the counters and every unread, staged or reserved slot are right after every run, with stale loads, joins and crashes |
| LosslessFifo.StepRefinesFifo | que/src/lossless/producer.rs:286-293 | every step is a stutter or one of stage, publish all, dequeue, drop the staged, flush on join, of a FIFO of capacity `N` |
| LosslessFifo.SessionTakesPublished | que/src/lossless/consumer.rs:175-200 | over any run a consumer session has taken exactly the published values from its join to its head |
| LosslessFifo.RunConserves | que/src/lossless/loom_tests.rs:79-109 | under every schedule without restarts: taken, queued and staged values together are the former contents followed by the arguments, read off the action sequence, of the pushes completed and the reservations committed, in order |
| LosslessFifo.NoneIffQueueEmpty | que/src/lossless/consumer.rs:182-186 | a pop finds nothing exactly when the published queue is empty at its load |
| LosslessFifo.WriterIsAlwaysApart | que/src/lossless/producer.rs:402-476 | after every run, a producer write in progress never targets a slot being read or borrowed, nor any unread published slot |
| LosslessFifo.MutationIsPrivate | que/src/lossless/consumer.rs:102-108 | writing a word through a borrowed element changes that word, none of its other words, and no other unread, staged or reserved value |
| LosslessFifo.BorrowIsStable | que/src/lossless/consumer.rs:204-230 | no producer step changes a borrowed element, which was lent out as published |
| LosslessFifo.HeadLoadsAreSound | que/src/lossless/producer.rs:236-246 | for every admissible head load the equality test is the test for no room and the computed room never underflows |
| LosslessHandOver.HandOver | que/src/lib.rs:19-34 | from any tail, head and slots another mode left, a consumer join then a producer join start an empty session with the full invariant |
| LosslessHandOver.ProducerFirstIsExact | que/src/lossless/producer.rs:189-222 | after a producer-first join on any left-over slots, every run hands each consumer session exactly what was published, if and only if the left-over tail is at or after the left-over head by at most one ring |
| LosslessHandOver.FarHeadLosesData | que/src/lossless/producer.rs:236-246 | otherwise `N + 1` pushes, a consumer join, a sync and a pop hand out a value that was published at another position |
| LosslessSchedules.ScheduleIsIrrelevant | que/src/lossless/producer.rs:236-364 | in every schedule the producer's cursors and logs move as if it were alone with the heads it loaded |
| LosslessSchedules.ReservationIsPushesInAnySchedule | que/src/lossless/producer.rs:333-514 | reserve, any writes and commit stage and publish what pushing the values does, with a sync exactly when `burst` are unsynced (always, for the C commit), and leave the same unread slots, whatever steps the consumer takes during either and whatever heads were loaded |
| LosslessSchedules.ReservedPushFindsRoom | que/src/lossless/producer.rs:347-362 | where a reservation of `count` finds room, in every schedule none of the first `count` pushes made instead would find the channel full on a head loaded since |
| LosslessSchedules.ReservedPushesSucceed | que/src/lossless/producer.rs:333-364 | so a run of those pushes exists for any values that would fit the reservation |
| LosslessSchedules.CancelInAnySchedule | que/src/lossless/producer.rs:516-520 | in every schedule a dropped or cancelled reservation leaves all cursors, logs and unread or staged slots as they were |
| LosslessCalls.FullIsHonest | que/src/lossless/producer.rs:236-246 | `Full` on a fresh load, with the consumer between calls, means at least `N - burst + 1` values are unpopped |
| LosslessCalls.AnswersAreAlwaysHonest | que/src/lossless/consumer.rs:182-186 | after every run, with the consumer between calls, both `Full` and `None` tell the truth about the queue |
| LosslessCalls.FullClears | que/src/lossless/consumer.rs:281-292 | once synced, the next `burst - items` pops return the next published values, none before the last makes room and the last does |
| LosslessCalls.PushIsRun | que/src/lossless/producer.rs:236-268 | a whole push is the run of its load, words and cursor update, or of its failing load |
| LosslessCalls.PopIsRun | que/src/lossless/consumer.rs:175-200 | a whole pop is the run of its load, words and cursor update |
| LosslessStall.StallBoundIsExact | que/src/lossless/loom_tests.rs:54-76 | batches of up to `B` retried pushes with one sync each can block for ever against a popping consumer if and only if `B >= N - burst + 2` |
| LosslessStall.CompletionBoundIsExact | que/src/lossless/loom_tests.rs:54-76 | from every reachable state the current batch can be completed within the steps of `N + B` calls and a sync, if and only if `B <= N - burst + 1` |
| LosslessStall.CodeStallBound | que/src/lossless/mod.rs:11-22 | with the code's burst and capacity `N >= 4` both bounds are at `N - N/4 + 1` |
| LosslessStall.CodeStallBoundSmall | que/src/lossless/mod.rs:11-22 | with one or two slots both are at `N` |
| LosslessStall.CodeFullMeans | que/src/lossless/mod.rs:215-265 | with the code's burst, `Full` means at least `N - N/4 + 1` unpopped values and clears, once synced, exactly at the pop that makes a quarter of the ring unpublished |
| LosslessStall.SmallBatchWaitsForOneRing | que/src/lossless/loom_tests.rs:54-76 | for `B <= N - burst + 1`, in every schedule, once the consumer has completed as many pops as values were waiting (at most `N`), no further push of the batch finds the channel full |
| LosslessStall.StuckForEver | que/src/lossless/loom_tests.rs:69-76 | once both sides are stuck no move of either changes anything |
| LosslessChannel.Producer.Push | que/src/lossless/producer.rs:236-268 | among arbitrary consumer steps: fails exactly when the head it loads leaves no room, and then does nothing, otherwise stages the value; its own steps are those of the machine push |
| LosslessChannel.Producer.Sync | que/src/lossless/producer.rs:286-293 | the tail store publishes everything staged |
| LosslessChannel.Producer.Reserve | que/src/lossless/producer.rs:333-364 | among arbitrary consumer steps: succeeds exactly for a positive count that fits the room left by the head it loads; `InvalidSize` or `Full` otherwise |
| LosslessChannel.Producer.Join | que/src/lossless/producer.rs:189-231 | reports zero magic, other wrong magic and wrong capacity as the three errors; otherwise continues at the shared tail with nothing staged |
| LosslessChannel.Producer.JoinOrInitialize | que/src/lossless/producer.rs:121-187 | memory with magic 0 becomes a session at tail 0 on whatever head it holds, a valid empty one if that is 0; initialised memory is joined, wrong magic or capacity is refused with its own error |
| LosslessChannel.Reservation.WriteNext | que/src/lossless/producer.rs:402-418 | writes the next reserved slot, or panics with nothing changed |
| LosslessChannel.Reservation.WriteAll | que/src/lossless/producer.rs:425-476 | one or two block copies have the effect of writing the values one by one, or a panic with nothing changed |
| LosslessChannel.Reservation.WriteIter | que/src/lossless/producer.rs:483-497 | writes exactly the first `min(L, r)` items and draws `min(L, r + 1)` |
| LosslessChannel.Reservation.Commit | que/src/lossless/producer.rs:503-514 | stages the values written, and publishes everything staged exactly when a quarter of the capacity (at least one) is unsynced by then |
| LosslessChannel.Reservation.CommitAndSync | c/producer.c:280-290 | the C commit always publishes everything staged and the values written |
| LosslessChannel.Reservation.Cancel | que/src/lossless/producer.rs:518-520 | the memory is untouched and the producer is as before the reservation |
| LosslessChannel.Consumer.Join | que/src/lossless/consumer.rs:119-171 | reports zero magic, other wrong magic and wrong capacity as the three errors; otherwise moves the shared and the local head up to the tail and nothing else |
| LosslessChannel.Consumer.Pop | que/src/lossless/consumer.rs:175-200 | among arbitrary producer steps: returns the front of the published queue, nothing only if that was empty; publishes the head exactly when a quarter of the capacity (at least one) is due |
| LosslessChannel.Consumer.PopZeroCopy | que/src/lossless/consumer.rs:204-230 | among arbitrary producer steps: lends the front of the queue in place without taking it |
| LosslessChannel.BorrowedElement.SetWord | que/src/lossless/consumer.rs:102-108 | sets one word of the lent element and leaves its others |
| LosslessChannel.BorrowedElement.Drop | que/src/lossless/consumer.rs:83-91 | dropping the element takes exactly what was lent, and publishes the head exactly when a quarter of the capacity (at least one) is due |
| LosslessChannel.LosslessPair | que/src/lossless/mod.rs:24-44 | a fresh channel of the asked capacity and element size, all cursors zero, nothing staged or taken |
| LosslessChannel.Reopen | que/src/lib.rs:19-34 | the hand-over as the two join calls on any left-over memory: all cursors at the tail found |
| Initialisation.OrderIsExact | que/src/lossless/consumer.rs:132-170 | no join is told of a wrong capacity or corruption in any interleaving with initialisation, and a join succeeds only at a tail of the live channel, if and only if capacity is stored first, magic is loaded first and not loaded again |
| Initialisation.RustJoinsSafelyCMayNot | c/consumer.c:31-60 | the Rust order is safe, the C consumer's reload is not |
| Initialisation.JoinOutcomeIsExact | c/consumer.c:31-60 | in every interleaving a finished join succeeded iff the magic was stored at its first load, at a stored tail; it was told of corruption iff it reloads, loaded zero and the magic was stored when it finished; and of no initialisation otherwise |
| Initialisation.JoinsAtLastTail | que/src/lossless/consumer.rs:141-146 | a join that succeeds does so at the last tail stored when it finishes |
| Initialisation.LiveJoinSucceeds | c/consumer.c:31-51 | a join begun on a live channel succeeds, reload or not, at a stored tail not older than the last one when it began |
| Initialisation.EarlyFinishIsUninitialized | c/consumer.c:54-57 | a join finished before the magic store is told `Uninitialized`, reload or not |
| Initialisation.MiddleJoinFails | que/src/lossless/producer.rs:162-167 | storing the magic before the capacity would let a join see a wrong capacity |
| Que.JoinCheck | que/src/lossless/consumer.rs:131-170 | each of the three errors, and going on, is the answer to exactly one kind of magic and capacity words |
| Que.MagicIsTemporal | que/src/lib.rs:102 | the magic word is the bytes `TEMPORAL`, little-endian |
| RingCopy.CopyIntoRing | c/producer.c:251-274 | the one- or two-block copy is the position-by-position store |
| RingCopy.ScatterIsTwoBlocks | que/src/lossless/producer.rs:455-472 | past the end of the ring consecutive positions are the rest of the ring and its beginning |
| Arithmetic.MaskIsSlot | que/src/lossless/producer.rs:249 | `x & (2^k - 1)` is `x mod 2^k` for every `k` |
| Arithmetic.SlotsDistinct | que/src/lossless/producer.rs:249 | any `N` consecutive positions occupy distinct slots |
| Arithmetic.NextModuloIsLeast | que/src/headless_spmc/consumer.rs:284-292 | the formula is the least position at or after the head with the wanted residue |
| Arithmetic.FullTestSurvivesWrap | c/producer.c:137-138 | the equality-only full test and the computed room stay exact when cursors wrap |
| Arithmetic.CaughtUpTestUnderWrap | c/consumer.c:78-79 | the ordered empty test is right exactly while both cursors lie in the same 2^64 block |
| Arithmetic.BurstAmount | que/src/lossless/mod.rs:11-22 | a quarter of the capacity rounded down, and at least one |
| PageRounding.AlignIsUplign | c/shmem.c:14 | the mask formula is the division formula modulo 2^64 for every power-of-two page, overflow included |
| PageRounding.AlignIsLeastIffFits | c/shmem.c:14 | it is the least multiple of the page at or above the size exactly when the sum does not overflow |
| PageRounding.MemSizeIsLeast | que/src/page_size.rs:32-45 | each page kind yields the least whole number of its pages that holds the size |

## Left out

- Weak memory: apart from the producer's stale head loads in the lossless machine, all loads and stores are sequentially consistent.
- Counter wraparound past 2^64 inside the machines: positions are naturals; `Arithmetic.CaughtUpTestUnderWrap` and `HeadlessDelivery.WordsDecideAlike` say where words agree with them.
- LosslessChannel.Reservation.WriteAll: the writes into a reservation and the joins run uninterrupted as methods; `LosslessSchedules` and `LosslessSafety` cover them step by step in every schedule.
- Running both modes on one live channel at once, two producers, or two lossless consumers: the code does not support them.
- A zero-copy element that is forgotten instead of dropped, and C callers that push between reserve and commit or write past their reservation.
- Arc counting, drops of the endpoints, pointer casts, alignment and power-of-two assertions (capacities are `2^k` by construction), and element types that are not plain data.
- Heartbeats, the padding area and layout printing.
- Shared-memory opening, mapping, resizing and unlinking; the page size the system reports is a parameter of `MemSize`.
- The `drain_all` and `push_retry` loops as methods: their schedules are the driver of `LosslessStall`.
