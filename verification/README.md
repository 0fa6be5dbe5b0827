# Verified model of the DEX indexer, inference order book and order API

A Dafny model of four parts of the system, with proofs about every input and every run.

* **Projection pipeline.** Chain events are captured into `raw_events` and drained in `chain_order` through the
  projectors, by forward passes, retry passes, deferral, a capture barrier and dead-lettering. A batch runs first in one
  optimistic transaction and, on any error, again with a savepoint per row. `PipelineModel` holds the tables and one
  transaction as functions, `PipelineSteps` the interleaving of all components as a transition system in which a batch's
  optimistic attempt and its replay are separate transactions, and `PipelineRepository` the repository object whose
  methods update the tables in place and whose loop is proved to be a run of that system. `PipelineRuns`,
  `PipelineCoverage`, `PipelineLog` and `PipelineExactlyOnce` hold what is proved of all runs, `CaptureBarrier` when the
  barrier is safe and that it advances.
* **Inference order state machine.** The handlers that the pipeline runs: `InferenceModel` (row and table functions),
  `InferenceReadModel` (the tables as fields, updated in place), `InferenceColumns` (what each event writes, column by
  column), and whole-run laws in `InferenceRuns`, `InferenceFills`, `InferenceErasure`, `InferenceDeals`,
  `InferenceOrphans`, `InferenceOverrides`. `PipelineInference` joins the two halves: what the pipeline does to the read
  model is a run of this state machine, so its laws hold of every reachable state; `PipelineDeliveries` says which
  operations that run consists of and what a processed mark means; `PipelineErasure` deletes the sweeper from whole
  pipeline runs.
* **Exact decimals and order encoding.** `Digits`, `Decimal` (the code), `DecimalMeaning` (the rationals the strings
  denote), `DecimalRoundTrip`, `OrderEncoding`, `OrderGates` (the note contract's gates), `BatchOrders`.
* **Two small cores.** `QueryString` (the canonical string a signature covers) and `RateLimiter`.

Tables are maps, a transaction or savepoint is an atomic step, and the projector is any deterministic function with the
outcomes Applied, Deferred, Unknown and Failed, so the pipeline theorems hold for every projector. Clock readings, random
ids, repository answers and sender answers are parameters. A source function that returns an error returns a `Result` here.

## What is proved

1. **Fast equals slow.** The two-strategy batch equals the per-row savepointed batch in state, marks and stats; a failing
   row influences no other row; a pass left alone equals one per-row drain of what it attempted, for all batch sizes.
2. **Ordered first attempts, exactly-once effect.** Over every interleaving of captures, barrier moves, background writes,
   forward, retry, failed, replayed, aborted and half-acknowledged batches and restarts. Exactly-once is proved with a log that lives inside the read model and is
   therefore rolled back and committed with it; the logged system is shown to run in lockstep with the plain one. A row
   is dead-lettered only at head and past its cutoff, and every processed row was delivered, in commit order.
3. **Coverage.** While everything else keeps committing, a pass that ends cleanly covers its range, for all batch sizes, if
   and only if the pending keys in it are distinct; it terminates under sustained ingest; a ready fill in it is applied.
4. **Sweeps are erasable.** Deleting the sweeper's steps changes nothing but the provisional marks, for runs of the state
   machine and for runs of the whole pipeline.
5. **Fills commute** on a bid and the first one closes an ask, reachable rows are sound, FILLED and event-cancelled rows are absorbing, the deal's buyer is a
   convergent register, orphan repair agrees with the projector.
6. **Decimal checks decide the exact rational predicates**; printers and parsers undo each other; a LIMIT order is
   accepted if and only if its exact values meet the market's rules, and is then on the chain's integer lattice.
7. **The canonical query string** is the same for two queries if and only if they agree key by key.
8. **The rate limiter** keeps its promised rate in every run if and only if the rate divides 1000.

## Where code and documentation disagree

* `crates/application/src/lib.rs:216-218` calls EXPIRED terminal. The placement guard and the fill's CASE name only FILLED
  and CANCELLED, so an expired row is left by a fill, a cancel or a replayed placement, and by nothing else
  (`ExpiredStaysIffSpared`, `ReplayReopensExpired`).
* `sdk/src/rate_limiter.rs:7-9` promises at most `max_rps` calls per second. The interval is rounded down, so a burst of
  `max_rps + 1` slots fits in one second unless `max_rps` divides 1000 (`RateHoldsIffExact`).
* The drain's cursor moves with a strict comparison, so a pending row that shares its key with the last row of a full
  batch is not attempted in that pass (`PassesCoverIffKeysDistinct`).
* `crates/infrastructure/src/inference_projectors.rs:467-478` says that a replay of an older fill cannot walk the buyer
  back. It can when the row has a position and no buyer: a fill without `buyerNote` leaves such a row, and so does
  `end_funding_cycle`, which clears the buyer and moves the position to the ask's. From there the first older fill
  replayed wins (`FillsConvergeIffDecided`, `UnsettledIsReachable`, `AskUnsettlesFundedDeal`).
* `services/indexer/src/main.rs` publishes a backfilling stream's cursor at once, although a stream at head may already
  have been asked. A message that becomes visible in between is captured below the barrier (`GapIsReachable`,
  `BarriersSafeIffGapFree`).
* `scale_decimal` prints a fractional digit at scale zero, which `lift_decimal` refuses at that scale
  (`LiftUndoesScaleIffPositive`).
* Local acceptance of a LIMIT order does not bound its notional; the note refuses one above 128 bits
  (`AcceptedLimitPassesIffNotionalFits`, `AcceptedLimitCanBeRefused`).
* A query with nothing but signatures has the same canonical string as the empty query, which reads back as one bare
  empty key (`KeepsPairsIffAnyRemain`).

## Model

| member | source | states |
|---|---|---|
| PipelineModel.OptimisticIsSavepointed | crates/infrastructure/src/indexer_repo.rs:535-656 | a clean optimistic pass ends exactly where the savepointed one does, and it is clean if and only if the savepointed pass counts no failure |
| PipelineModel.TwoStrategyEqualsPerRow | crates/infrastructure/src/indexer_repo.rs:498-528 | optimistic-then-replay has the same final database, marks and stats as the per-row drain, for every projector and batch |
| PipelineModel.SavepointedConcat | crates/infrastructure/src/indexer_repo.rs:661-754 | draining two lists one after the other is draining their concatenation |
| PipelineModel.SavepointedShift | crates/infrastructure/src/indexer_repo.rs:661-754 | counters and marks are only added to: what was counted before never influences the model or later verdicts |
| PipelineModel.ErroringRowIsIsolated | crates/infrastructure/src/indexer_repo.rs:681-748 | with an erroring row in the middle, the drain is the drain without it plus one scanned and one failed |
| PipelineModel.MarksComeFromRows | crates/infrastructure/src/indexer_repo.rs:835-859 | only rows of the batch are ever marked |
| PipelineModel.DeferredVerdict | crates/infrastructure/src/indexer_repo.rs:765-776 | a deferred row is consumed exactly when capture is at head, it is an inference event, the clock is past its ingest time plus the cutoff, and its repair goes through; not too old, it is left with its writes kept; too old with a failed repair, it errs |
| PipelineModel.PromptVerdict | crates/infrastructure/src/indexer_repo.rs:681-748 | an undecoded row is skipped, a failing one errs, and an applied or unknown one is consumed with exactly what the projector wrote |
| PipelineModel.CountersCountVerdicts | crates/infrastructure/src/indexer_repo.rs:681-748 | applied, unknown, deferred and failed are the numbers of rows with that verdict, each attempted where the rows before it left the read model |
| PipelineModel.MarkedIffConsumed | crates/infrastructure/src/indexer_repo.rs:751-752 | a batch marks exactly the rows it consumes |
| PipelineModel.MarkTwice | crates/infrastructure/src/indexer_repo.rs:835-859 | marking twice is marking the union once |
| PipelineModel.BatchIsFrontOfRange | crates/infrastructure/src/indexer_repo.rs:800-832 | with distinct keys every answer of the keyset select is the front of the range, full or all of it |
| PipelineModel.RangeAfterBatch | crates/infrastructure/src/indexer_repo.rs:800-859 | after a committed batch the rows above the new cursor are exactly the rest of the range |
| PipelineRepository.PageRows | crates/infrastructure/src/indexer_repo.rs:353-414 | inserting the collected rows gives the captured table: edges without a key dropped, first of repeated ids kept; the counters are exact |
| PipelineRepository.DrainOptimistic | crates/infrastructure/src/indexer_repo.rs:535-656 | the loop computes the optimistic drain, giving up on the first error |
| PipelineRepository.DrainSavepointed | crates/infrastructure/src/indexer_repo.rs:661-754 | the loop computes the savepointed drain, restoring the model after an error |
| PipelineModel.CapturedKeepsKeys | crates/infrastructure/src/indexer_repo.rs:422-434 | re-captured messages never rewrite a stored row |
| PipelineModel.NewRowIsFirstEdge | crates/infrastructure/src/indexer_repo.rs:353-434 | a message new to the table shows chain order, event and ingest time of the first edge with a key that names it, unprocessed |
| PipelineModel.NewRowHasEdge | crates/infrastructure/src/indexer_repo.rs:353-434 | no other message is new |
| PipelineModel.CommitConcat | crates/infrastructure/src/indexer_repo.rs:646-647 | a committed batch followed by another is one committed drain of both |
| PipelineModel.FailureIsFinal | crates/infrastructure/src/indexer_repo.rs:535-656 | once a prefix of a batch has failed, so has the batch |
| PipelineModel.TriedEndsAtFailure | crates/infrastructure/src/indexer_repo.rs:565-641 | a failed optimistic drain attempted a clean prefix and then the row that erred |
| PipelineModel.ScannedAll | crates/infrastructure/src/indexer_repo.rs:661-754 | every fetched row is scanned |
| PipelineModel.BatchShrinks | crates/infrastructure/src/indexer_repo.rs:1222-1257 | a non-empty batch leaves strictly fewer rows ahead of the cursor, ties or not: the pass terminates |
| PipelineRepository.Repository.PersistPage | crates/infrastructure/src/indexer_repo.rs:338-476 | the page's rows are inserted if absent; the stream's cursor is the page's end, or its old position, or none, if the page has no end; it is at head as the page says; every other stream and the read model are untouched; inserted, skipped, decoded and undecoded are given exactly from the page |
| PipelineRepository.Repository.SetCaptureBarrier | crates/infrastructure/src/indexer_repo.rs:302-322 | the barrier is replaced, also by none |
| PipelineRepository.Repository.FetchPendingBatch | crates/infrastructure/src/indexer_repo.rs:800-832 | unprocessed, decoded rows of (after, until], in order, at most the limit; a row of that kind left out means the batch is full and lies at or above every fetched one |
| PipelineRepository.Repository.MaxProjectable | crates/infrastructure/src/indexer_repo.rs:1110-1125 | the key of an unprocessed decoded row at or below the published barrier, the highest such; none without a barrier or such a row |
| PipelineRepository.Repository.CaptureAtHead | crates/infrastructure/src/indexer_repo.rs:328-336 | the capture stream's at-head flag, false without a row |
| PipelineRepository.Repository.ReprojectBatchFast | crates/infrastructure/src/indexer_repo.rs:535-656 | commits the whole optimistic drain or leaves the database unchanged |
| PipelineRepository.Repository.ReprojectBatchSavepointed | crates/infrastructure/src/indexer_repo.rs:661-754 | commits the per-row drain of the fetched rows |
| PipelineRepository.Repository.Mark | crates/infrastructure/src/indexer_repo.rs:835-859 | the named rows become processed, no other does, and no other column changes |
| PipelineRepository.Repository.Interleave | crates/infrastructure/src/indexer_repo.rs:302-476 | the other components' commits, in order: pages, barrier moves, background writes |
| PipelineRepository.Repository.ReprojectPendingFrom | crates/infrastructure/src/indexer_repo.rs:498-528 | reads the capture flag first, a failed read counting as not at head; falls back exactly when the optimistic drain of its fetch errs; what is committed is the per-row drain of the committing transaction's own fetch, after whatever was committed before the replay; failures as a whole commit nothing, a lost acknowledgement everything |
| PipelineRepository.Repository.PassBatch | crates/infrastructure/src/indexer_repo.rs:1222-1257 | one batch with its interference and its faults is a run of the transition system that reads the capture flag before its first transaction, and a full one leaves fewer rows ahead |
| PipelineRepository.Repository.DrainPass | crates/infrastructure/src/indexer_repo.rs:1222-1262 | a pass terminates under interleaved captures, barrier moves, background writes and faults and is a run of the transition system, clean if no fault strikes; its batches read the capture flag; left alone with a still clock, its state is that of one per-row drain of the rows it committed, tied keys or not |
| PipelineRepository.Repository.LoopTurn | crates/infrastructure/src/indexer_repo.rs:1189-1285 | a turn retries exactly when it is forced or the interval has passed, and is a run of the transition system whose batches read the capture flag and that ends idle with the floor the loop holds |
| PipelineSteps.TransactionIsPerRow | crates/infrastructure/src/indexer_repo.rs:512-527 | whichever strategy commits, the transaction is the per-row drain of its own fetch |
| PipelineSteps.AdvanceIsPerRow | crates/infrastructure/src/indexer_repo.rs:1222-1262 | a committed batch moves the cursor to its last row if full, and ends the pass and raises the floor if short |
| PipelineSteps.QuietPassIsOneDrain | crates/infrastructure/src/indexer_repo.rs:1222-1257 | left alone, batches of any sizes and strategies leave what one per-row drain of their rows leaves |
| PipelineSteps.CursorIsLastEnd | crates/infrastructure/src/indexer_repo.rs:459-470 | over every run the position of a stream is the end of its last page that carried one, and its at-head flag that of its last page |
| PipelineSteps.CursorStays | crates/infrastructure/src/indexer_repo.rs:459-470 | pages without an end leave the position, and steps that are no page of the stream leave its row |
| PipelineSteps.BarrierIsLastPublished | crates/infrastructure/src/indexer_repo.rs:302-322 | over every run the barrier is the one last published, also when that is none |
| PipelineSteps.HeadWasPublished | crates/infrastructure/src/indexer_repo.rs:504-512 | until capture has been published at head, no batch that reads the flag takes it to be |
| PipelineCoverage.PassCoversRange | crates/infrastructure/src/indexer_repo.rs:1222-1257 | whatever commits between its transactions, the batches of a pass are the front of its range, each row once and ascending, and all of it once the pass has ended |
| PipelineCoverage.CleanPassCoversRange | crates/infrastructure/src/indexer_repo.rs:1189-1262 | the same over every orderly run: a pass that ended cleanly attempted exactly the pending rows of its range |
| PipelineCoverage.PassStaysInRange | crates/infrastructure/src/indexer_repo.rs:800-832 | keys tied or not, every row of a pass is unprocessed, decoded, above its cursor and at or below its ceiling |
| PipelineCoverage.PassStartsAtFloor | crates/infrastructure/src/indexer_repo.rs:1189-1230 | a forward pass attempts nothing at or below the floor, a retry pass starts from the front, and neither attempts a row above the barrier it read |
| PipelineCoverage.RestartStartsOver | crates/infrastructure/src/indexer_repo.rs:1189-1230 | the first pass of a new process that ends attempts every pending row inside the barrier, if their keys are distinct, whatever floor the old process had |
| PipelineCoverage.PassIsBounded | crates/infrastructure/src/indexer_repo.rs:1181-1187 | under sustained ingest a pass commits at most one batch more than it has rows ahead, ties or not |
| PipelineCoverage.PassOfOnes | crates/infrastructure/src/indexer_repo.rs:1222-1257 | from every state of a pass there is a run that ends it |
| PipelineCoverage.PassesCoverIffKeysDistinct | crates/infrastructure/src/indexer_repo.rs:800-824 | from every state of a pass, every run that ends it covers its range, for all batch sizes and interleavings, if and only if the range's pending keys are distinct |
| PipelineRuns.RecordKeepsOrder | crates/infrastructure/src/indexer_repo.rs:800-824 | attempting the front of a fetched batch keeps first attempts ascending and untried rows above them |
| PipelineRuns.BatchKeepsOrder | crates/infrastructure/src/indexer_repo.rs:1222-1262 | after a batch everything pending up to the new cursor, or up to the ceiling if the batch was short, has been attempted |
| PipelineRuns.StepKeepsOrder | crates/infrastructure/src/indexer_repo.rs:1189-1285 | every step of capture, barrier, background jobs, fast commit, fast failure, replay, abort and restart keeps the order invariant |
| PipelineRuns.FirstAttemptsAreOrdered | crates/infrastructure/src/indexer_repo.rs:1189-1285 | in every orderly run first attempts are strictly ascending, none above the barrier its pass read, and every pending row at or below the floor has been attempted |
| PipelineRuns.EveryAttemptIsRecorded | crates/infrastructure/src/indexer_repo.rs:535-754 | over every run each row a transaction attempted, committed, failed or aborted, is among the first attempts |
| CaptureBarrier.BackfillBarrierSafeIff | services/indexer/src/main.rs:296-310 | with a stream still backfilling, the barrier is safe if and only if no stream at head has a message between its cursor and the barrier |
| CaptureBarrier.HeadBarrierIsSafe | services/indexer/src/main.rs:312-330 | with all streams at head, holding a candidate back for one poll makes what is published safe, if messages become visible in chain order |
| CaptureBarrier.BarriersSafeIffGapFree | services/indexer/src/main.rs:196-280 | over every run of polls all published barriers are safe if and only if no poll publishes a backfilling cursor over a gap |
| CaptureBarrier.AskedLateIsGapFree | services/indexer/src/main.rs:296-310 | there is no gap if every head stream was asked after the backfilling cursor had become visible |
| CaptureBarrier.BarrierFollows | services/indexer/src/main.rs:296-330 | the barrier advances: a head poll after a head poll publishes the highest cursor of the first; with streams backfilling it is the least cursor of those, none if one of them has none |
| CaptureBarrier.GapIsReachable | services/indexer/src/main.rs:296-330 | a concrete poll publishes a barrier over a message that is captured later |
| CaptureBarrier.PageIsOrderly | services/indexer/src/main.rs:196-280 | while the highest barrier is safe, a page of messages past the cursors is what ordered first attempts need of capture |
| PipelineLog.LogIsInvisible | crates/infrastructure/src/indexer_repo.rs:535-754 | the instrumented system takes every run of the plain one and differs only by its log |
| PipelineExactlyOnce.LogFollowsMarks | crates/infrastructure/src/indexer_repo.rs:751-752 | a drain logs exactly the ids it marks, in the same order |
| PipelineExactlyOnce.RunKeepsOnce | crates/infrastructure/src/indexer_repo.rs:353-378 | over every run the log lists the processed rows, each once |
| PipelineExactlyOnce.EffectsHappenExactlyOnce | crates/infrastructure/src/indexer_repo.rs:353-848 | under any interleaving each message takes effect at most once, and the applied, unknown and dead-lettered ids are exactly the processed ones |
| PipelineExactlyOnce.AttemptFate | crates/infrastructure/src/indexer_repo.rs:681-748 | the log entry of a consumed row is that of its outcome: dead-lettered if it was deferred, unknown if it was unknown |
| PipelineExactlyOnce.DeadLettersAreOld | crates/infrastructure/src/indexer_repo.rs:756-776 | over every run a dead-lettered row is processed, carries an inference event, and was in a committed batch with capture at head whose clock was past its ingest time plus the cutoff |
| PipelineExactlyOnce.DeadLettersNeedHead | crates/infrastructure/src/indexer_repo.rs:504-512 | over every run whose batches read the flag, a dead-lettered row was in a batch committed after capture had been published at head |
| PipelineExactlyOnce.RowsComeFromPages | crates/infrastructure/src/indexer_repo.rs:353-434 | over every run each stored row has the chain order, event and ingest time of the first edge that named it in the page that captured it |
| PipelineInference.AttemptIsRun | crates/infrastructure/src/indexer_repo.rs:681-748 | the read model after an attempt is that after delivering the event, followed by its repair exactly if it waits for an order and is overdue; the row is consumed unless it waits and is not overdue, and errs exactly when it cannot be read |
| PipelineInference.DrainIsRun | crates/infrastructure/src/indexer_repo.rs:681-749 | a drain is the run of its rows' deliveries and due repairs, row by row |
| PipelineInference.PipelineIsRun | crates/infrastructure/src/indexer_repo.rs:1189-1285 | for the read model, every run of the deployed system is the run of its steps' operations in commit order: the drains' deliveries and repairs, and the sweeps |
| PipelineInference.OutcomeIs | crates/infrastructure/src/inference_projectors.rs:37-73 | the projector fails exactly on an event it cannot read, defers exactly when an order the event names is missing, and calls unknown exactly the unrecognised ones; a readable event can always be repaired |
| PipelineDeliveries.RunDeliversAttempted | crates/infrastructure/src/indexer_repo.rs:681-749 | the deliveries of a deployed run are, in commit order, exactly those of the rows of its committed batches that can be read |
| PipelineDeliveries.RunRepairsAreDue | crates/infrastructure/src/indexer_repo.rs:698-731 | a repair comes right after the delivery of its own event, and only for a row that some batch of the run found overdue with capture at head |
| PipelineDeliveries.FetchedIsProcessedIff | crates/infrastructure/src/indexer_repo.rs:681-752 | a fetched row is processed by its batch exactly when it can be read and, at its turn, does not wait for an order or is overdue |
| PipelineDeliveries.ProcessedIsDelivered | crates/infrastructure/src/indexer_repo.rs:681-752 | every row a deployed run has processed was delivered by it, whatever its event |
| PipelineDeliveries.ProcessedTakesEffect | crates/infrastructure/src/inference_projectors.rs:37-73 | a processed cancel that met its order has ended it for good with what was left, a processed expiry left it neither OPEN nor swept, and a processed placement has put it in the book with its payload if it was new |
| PipelineInference.EveryReachableBookIsSound | crates/infrastructure/src/inference_projectors.rs:114-139 | in every state the pipeline reaches: remaining at most initial, OPEN is resting, a FILLED bid is used up, swept means CANCELLED |
| PipelineInference.TerminalRowsSurviveThePipeline | crates/infrastructure/src/inference_projectors.rs:350-398 | FILLED and event-cancelled rows keep status and remainder through every continuation of the pipeline |
| PipelineInference.DrainAppliesReadyFill | crates/infrastructure/src/indexer_repo.rs:695-731 | a fill whose legs are placed is marked, and delivered to tables with both legs, whatever the rows around it do |
| PipelineInference.DeliveredShows | crates/infrastructure/src/inference_projectors.rs:516-589 | a delivered fill is on the tape at the end of every continuation, with its own book, price, quantity, time and its maker's side if its key was new |
| PipelineInference.DeliveredFills | crates/infrastructure/src/inference_projectors.rs:350-398 | each leg takes the fill the moment it is delivered: an open bid is down by the ticks, an open ask is FILLED, a row that is over is unchanged |
| PipelineInference.FillWaitsOrIsDone | crates/infrastructure/src/indexer_repo.rs:695-731 | through every interleaving a pending ready fill in a pass's range is still waiting, or was delivered with both legs after operations of other keys only, and is marked |
| PipelineInference.PassAppliesReadyFill | crates/infrastructure/src/indexer_repo.rs:1222-1262 | once the pass has ended cleanly such a fill was delivered and marked, and the tape shows its book, price and quantity if its key was new, whatever was captured, published, swept, failed and replayed meanwhile |
| PipelineInference.NextRetryPassAppliesReadyFill | crates/infrastructure/src/indexer_repo.rs:1195-1204 | the next retry pass that ends cleanly delivers and marks every pending ready fill inside the barrier |
| PipelineErasure.AttemptsAgree | crates/infrastructure/src/indexer_repo.rs:681-748 | an attempt has the same verdict whatever was swept |
| PipelineErasure.LockstepWithoutSweeps | crates/infrastructure/src/indexer_repo.rs:1189-1285 | without the sweeper every step is still enabled and leads to the same state, sweeps aside |
| PipelineErasure.PipelineSweepsAreErasable | crates/infrastructure/src/inference_projectors.rs:350-398 | deleting the sweeper from any run of the deployed pipeline leaves a run with the same rows, marks, cursors, floor, phase, first attempts, deals and tape, the same markets up to sweep bookkeeping, and the same orders up to provisional marks |
| InferenceReadModel.FillColumns | crates/infrastructure/src/inference_projectors.rs:360-398 | a row that is FILLED or cancelled by an event is unchanged; any other is down by the ticks but not below zero and no longer swept, an ask FILLED, a bid FILLED exactly when nothing is left and else OPEN, with the later of the two positions and times and every placement column as it was |
| InferenceReadModel.LinkColumns | crates/infrastructure/src/inference_projectors.rs:460-486 | first book and seller kept, buyer of the later chain order, a known buyer never blanked, position never back |
| InferenceReadModel.ReadModel.SeedMarketSkeleton | crates/infrastructure/src/inference_projectors.rs:75-93 | a market row exists afterwards; a missing one is written as an unreconciled skeleton; every other market is unchanged |
| InferenceReadModel.ReadModel.UpsertRestingOrder | crates/infrastructure/src/inference_projectors.rs:100-162 | inserts, overwrites an untouched row, or refuses; refuses exactly a known row that is FILLED, CANCELLED or partly filled |
| InferenceReadModel.ReadModel.ApplyOrderPlaced | crates/infrastructure/src/inference_projectors.rs:164-236 | the upsert; an ask ends the funding cycle of its funded deal if it comes strictly later, clearing deposit and buyer and moving the position; every other deal is unchanged |
| InferenceReadModel.ReadModel.ApplyFilledDecrement | crates/infrastructure/src/inference_projectors.rs:350-422 | each present leg takes the fill's CASE, a book whose sweep was overridden restarts its sweep, nothing else moves |
| InferenceReadModel.ReadModel.LinkDealFromFilled | crates/infrastructure/src/inference_projectors.rs:434-499 | the deal of the fill's token contract is written or linked, every other deal is untouched, and without a token contract nothing is |
| InferenceReadModel.ReadModel.AppendInferenceTrade | crates/infrastructure/src/inference_projectors.rs:516-562 | a new match is written with its columns; an existing row keeps them, a divergent one is skipped, and only a missing time is filled in; other rows are unchanged |
| InferenceReadModel.ReadModel.ApplyInferenceFilled | crates/infrastructure/src/inference_projectors.rs:564-589 | applied exactly when both legs are present; otherwise nothing is written |
| InferenceReadModel.ReadModel.RepairExpiredOrphan | crates/infrastructure/src/inference_projectors.rs:619-656 | present legs are decremented, the match is recorded if its side is known, the number of legs is exact |
| InferenceReadModel.ReadModel.ApplyOrderCancelled | crates/infrastructure/src/inference_projectors.rs:726-762 | applied exactly when the row exists; a FILLED row is unchanged, any other is CANCELLED and not swept with its remainder; nothing else changes |
| InferenceReadModel.ReadModel.ApplyOrderExpired | crates/infrastructure/src/inference_projectors.rs:687-724 | applied exactly when the row exists; an OPEN or swept row is EXPIRED, any other is unchanged; nothing else changes |
| InferenceReadModel.ReadModel.ProvisionalCancel | crates/infrastructure/src/inference_reconciler.rs:727-738 | exactly the named OPEN rows become CANCELLED and swept |
| InferenceReadModel.ReadModel.ProjectEvent | crates/infrastructure/src/inference_projectors.rs:37-73 | dispatch, outcome and new tables are those of the projector function |
| InferenceReadModel.ReadModel.PerformAll | crates/infrastructure/src/inference_projectors.rs:37-762 | through every run of events, repairs and sweeps the object follows the table functions, so the laws of those runs hold of it |
| InferenceColumns.FillShows | crates/infrastructure/src/inference_projectors.rs:350-398 | a delivered fill takes both its legs or, while one is missing, none; a repair takes the legs that are there |
| InferenceColumns.CancelShows | crates/infrastructure/src/inference_projectors.rs:726-762 | a cancel makes any row but a FILLED one CANCELLED and not swept, with its remainder, its placement columns and the later stamp |
| InferenceColumns.ExpiryShows | crates/infrastructure/src/inference_projectors.rs:687-724 | an expiry makes an OPEN or swept row EXPIRED and leaves any other alone |
| InferenceColumns.SweepShows | crates/infrastructure/src/inference_reconciler.rs:727-738 | a sweep makes the named OPEN rows CANCELLED and swept, and changes no other column and no other row |
| InferenceColumns.PlacementShows | crates/infrastructure/src/inference_projectors.rs:100-236 | a placement under a new key shows its payload, the zero address and a zero deadline absent, OPEN and untouched; under a known key it is taken exactly by a row neither FILLED nor CANCELLED nor partly filled, which keeps the token contract and deadline it does not name |
| InferenceColumns.OnlyNamedRowsChange | crates/infrastructure/src/inference_projectors.rs:37-762 | no operation touches an order it does not name or removes one, and only a placement adds one |
| InferenceColumns.QuietEvents | crates/infrastructure/src/inference_projectors.rs:37-93 | only a fill is repaired; an event without a handler writes nothing but the first row of its market, one that cannot be read nothing at all |
| InferenceColumns.CancelIsFinal | crates/infrastructure/src/inference_projectors.rs:726-762 | in every continuation of a cancel its order is FILLED if it was, else CANCELLED and not swept, with what was left |
| InferenceColumns.PlacementStays | crates/infrastructure/src/inference_projectors.rs:100-162 | over every run nothing but a replay of its placement writes the placement columns of a row |
| InferenceColumns.SellerIsTheAsk | crates/infrastructure/src/inference_projectors.rs:434-460 | the seller's note is that of the only ask leg, none if no known leg is an ask |
| InferenceColumns.FillLinksDeal | crates/infrastructure/src/inference_projectors.rs:434-499 | a fill that is applied or repaired writes or links the deal of its token contract, seller from its ask leg, and no other deal |
| InferenceColumns.AskEndsCycle | crates/infrastructure/src/token_contract_projectors.rs:118-148 | a placement ends the funding cycle of exactly the funded deal it is a strictly later ask for: deposit and buyer gone, position the ask's; every other deal is unchanged |
| InferenceRuns.OrdersFollowLens | crates/infrastructure/src/inference_projectors.rs:37-762 | whatever the other tables hold, an operation changes each order row as the row lens says: no row is removed, rows evolve independently |
| InferenceRuns.RunsFollowLens | crates/infrastructure/src/inference_projectors.rs:37-762 | the same over whole runs |
| InferenceRuns.ReachableRowsAreSound | crates/infrastructure/src/inference_projectors.rs:114-139 | over every run of positive-size placements: remaining at most initial, OPEN is resting, FILLED bid used up, swept means CANCELLED |
| InferenceRuns.TerminalRowsAbsorb | crates/infrastructure/src/inference_projectors.rs:350-398 | a FILLED row is frozen in every column, an event-cancelled row in status and remainder, in every continuation |
| InferenceRuns.ExpiredStaysIffSpared | crates/infrastructure/src/inference_projectors.rs:138-139 | over every run an EXPIRED row stays EXPIRED if and only if no operation is a fill that reaches it, a cancel of it, or a replay while it is untouched, and then every column is frozen |
| InferenceRuns.ReplayReopensExpired | crates/infrastructure/src/inference_projectors.rs:138-139 | a concrete run in which an expired order is OPEN again |
| InferenceFills.FillsAddUp | crates/infrastructure/src/inference_projectors.rs:360-398 | a fresh bid after any fills and sweeps has max(initial - sum, 0) left, and is FILLED exactly when the sum reaches initial |
| InferenceFills.AskClosesOnFirstFill | crates/infrastructure/src/inference_projectors.rs:360-398 | a fresh ask after any fills and sweeps is FILLED exactly when a fill has reached it, and keeps what its first fill left, max(initial - ticks, 0), whatever came after |
| InferenceFills.FillOrderIsIrrelevant | crates/infrastructure/src/inference_projectors.rs:360-398 | any reordering of the same fills and sweeps leaves the same remainder and the same FILLED verdict |
| InferenceErasure.OpErases | crates/infrastructure/src/inference_projectors.rs:350-398 | one operation commutes with forgetting the sweeps |
| InferenceErasure.SweepsAreErasable | crates/infrastructure/src/inference_projectors.rs:350-398 | for every run with faithful replays, the run without its sweeps has the same deals, tape and orders, except that rows still swept are OPEN, and the same markets up to sweep bookkeeping |
| InferenceErasure.TouchedRowsAreExact | crates/infrastructure/src/inference_projectors.rs:687-762 | a fill, cancel or expiry that reaches a row makes it equal to its row in the sweepless run |
| InferenceErasure.DivergentReplayIsNotErasable | crates/infrastructure/src/inference_projectors.rs:138-139 | a replay with another payload is taken by an open row and refused by a swept one, so faithful replays are needed |
| InferenceDeals.TopWins | crates/infrastructure/src/inference_projectors.rs:460-486 | the buyer of the highest mark that moves the row wins, wherever it comes in the list |
| InferenceDeals.ConvergesIffDecided | crates/infrastructure/src/inference_projectors.rs:460-486 | marks with or without a buyer leave the same buyer in every order and repetition if and only if the highest one moves the row and names a buyer, or they offer one buyer only |
| InferenceDeals.BuyerConvergesIffSettled | crates/infrastructure/src/inference_projectors.rs:460-486 | marks that all carry a buyer converge, whatever they are, if and only if the row knows its buyer or has no position |
| InferenceDeals.FillsConvergeIffDecided | crates/infrastructure/src/inference_projectors.rs:460-486 | for every table and every list of fills with their legs placed, all reorderings and repetitions leave the same buyer if and only if their marks decide it |
| InferenceDeals.SettledFillsConverge | crates/infrastructure/src/inference_projectors.rs:460-486 | from a settled row, fills that all carry a buyer leave the same one in every order |
| InferenceDeals.BuyerlessFillUnsettles | crates/infrastructure/src/inference_projectors.rs:460-486 | a fill without a buyer leaves a new deal unsettled |
| InferenceDeals.AskUnsettlesFundedDeal | crates/infrastructure/src/token_contract_projectors.rs:118-148 | a fresh ask on a funded deal clears the buyer and moves the position on, which unsettles it |
| InferenceDeals.UnsettledIsReachable | crates/infrastructure/src/inference_projectors.rs:434-499 | a run from empty tables, an ask and a bid matched without a buyer, reaches a deal whose buyer then depends on the order of two older matches |
| InferenceDeals.RunWritesRegister | crates/infrastructure/src/inference_projectors.rs:434-499 | over every run of any operations that ends no funding cycle of the deal, its row is the register written with the run's marks |
| InferenceDeals.UnfundedIsUndisturbed | crates/infrastructure/src/token_contract_projectors.rs:118-148 | a deal without a deposit has no cycle to end |
| InferenceDeals.DealBuyerConverges | crates/infrastructure/src/inference_projectors.rs:460-486 | any two runs, whatever else they do, that put the same marks on a deal in any order and repetition leave the same buyer if the marks decide it, the one of the highest chain order if it names one |
| InferenceDeals.TapeIsImmutable | crates/infrastructure/src/inference_projectors.rs:530-541 | in every continuation a tape row keeps book, price, quantity and side, and its time once known |
| InferenceDeals.DealKeepsIdentity | crates/infrastructure/src/inference_projectors.rs:460-490 | in every continuation a deal keeps its first book and seller, and its position never goes back |
| InferenceOverrides.OverrideRestarts | crates/infrastructure/src/inference_projectors.rs:403-419 | an operation restarts the sweep of a discovering book exactly when it fills one of its swept rows |
| InferenceOverrides.OverridesAreCounted | crates/infrastructure/src/inference_projectors.rs:403-419 | over every run the override counter of a discovering book grows by exactly the number of operations that filled a swept row |
| InferenceOrphans.DeferralIsIdempotent | crates/infrastructure/src/inference_projectors.rs:564-577 | a deferred event adds at most one market row and is deferred again without writing anything more |
| InferenceOrphans.EnabledFillStaysEnabled | crates/infrastructure/src/inference_projectors.rs:328-348 | once both legs are placed a fill stays enabled in every continuation |
| InferenceOrphans.RepairAgreesOnOrders | crates/infrastructure/src/inference_projectors.rs:619-652 | present legs end as they would have with the missing leg placed, other rows are untouched, the missing row is not invented |
| InferenceOrphans.RepairAgreesOnSide | crates/infrastructure/src/inference_projectors.rs:503-508 | the tape direction is the same from either leg exactly when the maker is present or the sides are opposite |
| InferenceOrphans.RepairAgreesElsewhere | crates/infrastructure/src/inference_projectors.rs:619-656 | same tape and markets, same deals up to the seller's note, and equal deals if the missing leg is a bid |
| InferenceOrphans.RepairsMakeUpForLoss | crates/infrastructure/src/inference_projectors.rs:619-656 | over whole runs: with one placement lost, and every fill that names it deferred and repaired, the tape and every other order row are those of the full run, if those fills found both legs there and no side hung on the lost row alone |
| Digits.ValueOfToDigits | crates/domain/src/lib.rs:1091-1102 | printing and reading an integer gives it back |
| Digits.ShiftIsProduct | crates/domain/src/lib.rs:1017-1021 | padding by k digits multiplies by 10^k |
| Digits.SplitValue | crates/domain/src/lib.rs:1091-1102 | the high part's digits followed by the low digits read as the number |
| Digits.ToDigitsSplits | crates/application/src/lib.rs:1573-1613 | canonical digits are the high part's digits and the low digits |
| DecimalMeaning.ParseReads | crates/domain/src/lib.rs:980-1000 | a well-formed string parses to its digits and precision in both parsers; too much precision is the only error |
| DecimalMeaning.ParsesIffDenotes | crates/domain/src/lib.rs:980-1000 | parsing succeeds exactly on the well-formed strings of admitted precision |
| DecimalMeaning.TrimStrips | crates/domain/src/lib.rs:980-984 | trimming takes white space off both ends, all of it and nothing else |
| DecimalMeaning.ParseRefuses | crates/domain/src/lib.rs:980-1000 | a blank value is the only missing one; another character than a digit or point is invalid; what is not well-formed is refused |
| DecimalMeaning.BigUintIff | crates/application/src/lib.rs:1573-1613 | the big-integer parser reads an optional plus sign, a digit, then digits and underscores, and nothing else |
| DecimalMeaning.ReadModelParsesIff | crates/domain/src/lib.rs:673-704 | the read-model parser takes exactly the well-formed strings, of any precision |
| DecimalMeaning.LiftIsExact | crates/domain/src/lib.rs:1017-1021 | lifting succeeds exactly when the target holds the fraction, and gives the exact value at that scale |
| DecimalMeaning.MultipleCheckIsExact | crates/domain/src/lib.rs:1073-1084 | true if and only if value = k * step for a natural k; a zero step is an error |
| DecimalMeaning.NotionalCheckIsExact | crates/domain/src/lib.rs:1107-1127 | true if and only if price * quantity >= minimum over the rationals |
| DecimalMeaning.CmpIsRationalOrder | crates/domain/src/lib.rs:673-704 | the order of the rationals |
| DecimalMeaning.CmpRefusesIff | crates/domain/src/lib.rs:673-704 | the comparison is refused exactly when a side is ill-formed or the precisions are 2^32 or more apart |
| DecimalMeaning.TrailingZerosMeanNothing | crates/domain/src/lib.rs:673-704 | appending zeros to the fraction keeps the value |
| DecimalRoundTrip.FixedPointLifts | crates/domain/src/lib.rs:1091-1102 | what the fixed-point printer shows lifts back to the number |
| DecimalRoundTrip.InsertPointShows | crates/application/src/lib.rs:1573-1613 | padding and slicing show the high part, a point and the low digits |
| DecimalRoundTrip.LiftUndoesScaleIffPositive | crates/application/src/lib.rs:1573-1613 | lift(scale(raw, d), d) = raw for d up to 38 if and only if d is at least 1; at 0 it is a precision error |
| DecimalRoundTrip.ScaleIff | crates/application/src/lib.rs:1573-1613 | scaling takes exactly the integers, at up to 38 places; the empty string is zero; at zero places it shows n.0 |
| DecimalRoundTrip.ScaleUndoesLift | crates/application/src/lib.rs:1573-1613 | scale(lift(v, d), d) = normalize(v, d) for 1 <= d <= 38 |
| DecimalRoundTrip.NormalizeIsIdempotent | crates/domain/src/lib.rs:1091-1102 | normalising keeps the lifted value, and twice is once |
| DecimalRoundTrip.DescaleIsExactDivision | crates/domain/src/lib.rs:1037-1054 | succeeds exactly when 10^k divides the number, and then yields the quotient |
| DecimalRoundTrip.DescaleRefuses | crates/domain/src/lib.rs:1037-1054 | what is no integer is refused |
| DecimalRoundTrip.LiftShifts | crates/domain/src/lib.rs:1017-1021 | a finer lift is the coarser one with zeros appended |
| DecimalRoundTrip.DescaleUndoesLift | crates/domain/src/lib.rs:1037-1054 | descale(lift(v, D), D - k) = lift(v, k) whenever v lifts at k <= D |
| OrderEncoding.EncodedIdIsTheClients | crates/application/src/lib.rs:2701-2710 | an order goes out under the client's own id exactly as written, or else under the drawn one; either is a 64-bit number |
| OrderEncoding.OnGridIff | crates/application/src/lib.rs:2625-2646 | a number passes exactly when it has no more digits than every limit and lies on the grid |
| OrderEncoding.EncodeAmountIff | crates/application/src/lib.rs:2639-2667 | an amount passes exactly when it is also positive and fits 64 bits, and is encoded exactly |
| OrderEncoding.LimitAcceptedIff | crates/application/src/lib.rs:2602-2720 | a LIMIT order is accepted if and only if its exact values meet the market's rules and its id is a u64; price and amount are encoded without rounding |
| OrderEncoding.MarketAcceptedIff | crates/application/src/lib.rs:2602-2720 | a MARKET order is accepted if and only if it has no price, its time in force is absent or IOC, its exact amount is admissible, a BUY spends the minimum, and its id is a u64; its price is sent as 0 and its amount without rounding |
| OrderEncoding.LimitRefusal | crates/application/src/lib.rs:2602-2720 | a refused LIMIT order with readable numbers errs, in this order, for precision or grid, for amount or notional, for the client id |
| OrderEncoding.MarketRefusal | crates/application/src/lib.rs:2602-2720 | a refused MARKET order without a price errs, in this order, for precision or grid, for amount or minimum spend, for the client id |
| OrderEncoding.PresenceRefusal | crates/application/src/lib.rs:2612-2623 | a LIMIT order without a price is missing one; a MARKET order with a price or a resting time in force is invalid |
| OrderEncoding.AcceptedIsWellFormed | crates/application/src/lib.rs:2602-2720 | whatever the rules, only well-formed numbers are accepted, and exactly LIMIT orders carry a price |
| OrderGates.AcceptedLimitIsOnLattice | crates/application/src/lib.rs:2602-2720 | price is a multiple of the lifted tick, amount of the lifted step and in 1..u64::MAX, floor(amount * price / 10^4) at least the lifted minimum |
| OrderGates.FlagsTellTheType | crates/domain/src/lib.rs:921-952 | the chain's four flag bits read back exactly the type and the time in force; only MARKET with a time in force other than IOC is refused |
| OrderGates.AcceptedLimitPassesIffNotionalFits | contracts/dex/PrivateNote.sol:2780-2809 | the note takes an accepted LIMIT order if and only if its notional fits 128 bits |
| OrderGates.AcceptedLimitCanBeRefused | contracts/dex/PrivateNote.sol:2780-2809 | an accepted LIMIT order above that bound exists and is refused |
| OrderGates.AcceptedMarketPasses | contracts/dex/PrivateNote.sol:2780-2809 | every accepted MARKET order passes the note's gates |
| BatchOrders.EncodeItems | crates/application/src/lib.rs:2880-2906 | all items in order, or the error of the first failing one |
| BatchOrders.CreateBatchOrders | crates/application/src/lib.rs:2820-2920 | a batch is dispatched whole and in order, if and only if it is not empty, its market resolves, trades and has a hash, it is within the limit and every item encodes; each refusal has its error, in source order, the items' that of the first failing one; the i-th response id is the i-th item's own id if it has one, else the drawn one |
| BatchOrders.DispatchedLimitsAreOnLattice | crates/application/src/lib.rs:2820-2920 | every LIMIT order of a dispatched batch is on the chain's lattice |
| BatchOrders.HasDuplicate | crates/application/src/lib.rs:3001-3015 | true if and only if two of the ids are equal |
| BatchOrders.NoIdIsMissing | crates/application/src/lib.rs:607-626 | by pigeonhole, distinct ids, keys from the input and no shortfall leave no id without a row |
| BatchOrders.DrainLookup | crates/application/src/lib.rs:3124-3148 | draining succeeds exactly when every id has a row, and lists the input ids in input order |
| BatchOrders.CancelBatchOrders | crates/application/src/lib.rs:2950-3168 | each refusal of the request and of the lookup has its error, in source order; otherwise dispatch and response are exactly the input ids in input order with their rows' client ids; a lookup that keeps its contract never misses |
| QueryString.SortIsStable | crates/infrastructure/src/auth.rs:278 | sorted, same pairs, same order under each key |
| QueryString.StableSortIsUnique | crates/infrastructure/src/auth.rs:278 | any stable sort by key gives the same list |
| QueryString.BeforeIsCodePointOrder | crates/infrastructure/src/auth.rs:278 | the key order is that of code points: a prefix first, otherwise the first difference decides |
| QueryString.SplitJoin | crates/infrastructure/src/auth.rs:268-284 | splitting a joined list gives the list back |
| QueryString.CanonicalReadsBack | crates/infrastructure/src/auth.rs:263-285 | the canonical string reads back as the sorted pairs |
| QueryString.KeepsPairsIffAnyRemain | crates/infrastructure/src/auth.rs:263-285 | exactly the multiset of non-signature pairs is kept, if and only if there is one |
| QueryString.SignatureOnly | crates/infrastructure/src/auth.rs:263-285 | a query of one signature has no pairs left and an empty canonical string |
| QueryString.CanonicalIsIdempotent | crates/infrastructure/src/auth.rs:263-285 | canonicalising twice changes nothing |
| QueryString.SameCanonicalIff | crates/infrastructure/src/auth.rs:263-285 | two queries have the same canonical string if and only if they have the same pairs under each key in the same order |
| RateLimiter.TokenBucket.constructor | sdk/src/rate_limiter.rs:59-67 | the interval is 1000 / maxRps rounded down, and no slot is reserved |
| RateLimiter.TokenBucket.Acquire | sdk/src/rate_limiter.rs:75-87 | appends the caller's slot, now plus the wait, to the slots reserved so far; the wait is exactly the time to the next allowed slot, none if that has passed |
| RateLimiter.SlotsAreSpaced | sdk/src/rate_limiter.rs:75-87 | for all clock readings, even backward ones, slots j <= k are at least (k - j) intervals apart |
| RateLimiter.SlotsAreASchedule | sdk/src/rate_limiter.rs:75-87 | no slot is before its caller's clock, and each is an interval after the one before |
| RateLimiter.SlotsAreLeast | sdk/src/rate_limiter.rs:75-87 | no schedule of that kind serves any caller earlier: nobody waits longer than needed |
| RateLimiter.WindowIsBounded | sdk/src/rate_limiter.rs:59-87 | any half-open second holds at most ceil(1000 / interval) slots |
| RateLimiter.RateHoldsIffExact | sdk/src/rate_limiter.rs:59-87 | every window of every run holds at most maxRps slots if and only if maxRps divides 1000 |

## Left out

- SQL text, locking, pools and timeouts: tables are maps, one consumer, one transaction at a time; the order of rows with
  equal keys is left open, as SQL leaves it.
- Decoding of bodies, addresses and timestamps: an edge arrives decoded or not, and `Malformed` stands for every payload
  with an unreadable mandatory field.
- `chain_order` strings: any integers, since only their order is used; the surrogate row id is identified with `msg_id`.
- One clock reading per batch transaction; it may differ from batch to batch and between a batch and its replay.
- Commits of other components in the middle of a batch transaction: a transaction is one step.
- A batch size of zero, for which the source's pass scans nothing and still raises the floor.
- PipelineRepository.Repository.LoopTurn: the sleeps and the backlog gauge are left out.
- The transition system lets any barrier be published at any time; how it is computed, and when it is safe, is in `CaptureBarrier`, where the gateway is assumed to show messages in chain order.
- PipelineRuns.FirstAttemptsAreOrdered: assumes that capture inserts nothing at or below an earlier barrier and reuses no chain order; exactly-once and soundness assume nothing of capture.
- PipelineCoverage.PassCoversRange: assumes that nothing is captured at or below the ceiling during the pass, which follows from capture staying above the barrier.
- Funding events of deals: no modelled event sets a deposit, so a funded deal is a starting state.
- Metrics, log routing, first-sighting deduplication and the orphan counter, which survives a rollback by design.
- Projectors other than the inference order book: the pipeline theorems hold for every projector, but no other one is modelled. Of the deal rows only book, notes, deposit and position are kept.
- The reconciler's gating, paging and field repair: a sweep is any set of ids of a book at any time.
- InferenceErasure.SweepsAreErasable: does not compare the sweep cursor and the override counter of a market, which are the sweeper's own.
- Which note is taken as the seller's when both legs of a fill are asks: SQL takes any one, the model the maker's.
- InferenceOrphans.RepairAgreesElsewhere: the seller's note may differ, since only the SELL leg knows it.
- Wall-clock columns (`created_at`, `updated_at`); the sweep time is reduced to whether it is set.
- DecimalMeaning.CmpIsRationalOrder: for precisions that differ by less than 2^32, beyond which the source returns an error.
- Market rules finer than the chain's scales: `OrderGates` speaks of ticks, steps and minimums that lift to them.
- Note gates that are not about size: balance, busy flag, debt, uniqueness of the client id.
- RateLimiter.TokenBucket.Acquire: does not model 64-bit overflow of clock plus interval; a caller that oversleeps its slot is not modelled, the bound is on slots.
- Request signing, key storage and other cryptography, HTTP handlers, the GraphQL and chain clients, configuration.
