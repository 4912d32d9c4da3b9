# EcoGrid in Dafny

A model of the parts of EcoGrid that move data and decide schedules, with proofs of what they
promise: a greedy scheduler that puts flexible plant load into clean half-hours, and an
at-least-once pipeline that carries telemetry from two upstream feeds through a bounded disk
spool and a Kafka topic into a revision ledger. Around them are the request limiter, keyset
paging, the merge of the feeds, the retry schedule and the one-entry cache.

`dafny verify dfyconfig.toml` checks everything. No part of the repository was executed.

## How it is laid out

**The scheduler.** `Solver` is the nested loops of `solve` over a capacity ledger that is
reduced in place; every method is proved equal to a function of its inputs, and `Solve` to
`SolveSpec`. The theorems are about that function: `SolverCapacity` (conservation, and by how
much a ceiling can be exceeded), `SolverStability` (no process could have done better alone in
what is left), `SolverInstability` (which portfolios that holds of), `SolverOptimality` (with
ample capacity no assignment emits less), `SolverOrder` and `SolverListing` (when the listing
order of the portfolio does not matter), `SolverAccounting` (rows and totals agree exactly),
`SolverReport` (every process is reported, by its rows or by name and reason), `SolverSavings`
(when a saving is not negative). `OptimizerLoop` feeds the solver, `PlanStore` stores its plan.

**The pipeline.** `PublisherProtocol` is the sending side as a state machine over fetches, spool
replays, attempts, acknowledgements, late landings, overflows and crashes; `ConsumerProtocol` is
the receiving side over polls, writes, failed writes, commits, stops and crashes, and
`ConsumerProgress` shows that it can always catch up; `Pipeline` runs both against one topic.
`TelemetryPublisher` and `TelemetryConsumer` are the source's objects, with their dictionaries,
counters and loops, each proved to take exactly the steps of its machine; `PublisherTurns` is what
one turn of the publisher amounts to in that machine. `PublisherCycle` says what a cycle does to
the spool, record by record, and `PublisherDedupe` which fetched records are sent and what is
remembered for the next cycle. `DedupeCache` and `Ledger` are the two data structures in between,
`SpoolFile` the spool as the text of a file, and `PublisherLimits` where the delivery claim ends:
two runs, and what a replayed key ends in.

**The rest.** `RateLimiter`, `Keyset`, `Merge`, `Retry`, `LatestCache`.

## What it rests on

- MW, hours, intensities, percentages and seconds are reals, so floating-point rounding and
  `round(..., 3)` are absent. Integers are unbounded, as Python's are.
- The content hash is injective on a record less its ingestion time. A record carries its Kafka
  key and the partition the partitioner gives that key; equal keys go to equal partitions.
- The topic is an append-only log a partition, the database a map whose statements are atomic,
  Redis an entry with an expiry time on the caller's clock.
- A send that is not acknowledged leaves a copy in flight, which may land at any later time or
  never. It is assumed to land, if at all, before the next acknowledged send of its key (the guard
  of the event `Ack`).
- `commit()` without offsets commits the poll position. Consumers start at the earliest offset.

## What turned out otherwise

The code does less than its comments say in these places. Each has a theorem with the exact
condition, or a run that shows the difference.

- A saving can be negative. The baseline ignores capacity (`SavingIsNonNegativeExactlyWhen`,
  `TightCeilingLoses`), and blocks are compared by intensity, not carbon: without a ceiling no
  forecast loses exactly when no window is longer than one before it
  (`NoForecastLosesExactlyWhen`, `UnequalLengthsLose`).
- The order of the portfolio shows when two processes share both load and id and differ in
  anything else that the solver reads (`OrderIgnoresListingExactlyWhen`,
  `PlanIgnoresListingExactlyWhen`).
- A schedule need not be stable: a portfolio always gets a stable one exactly when none of its
  loads is negative or all are equal (`AlwaysStableExactlyWhen`, `NegativeLoadBreaksStability`).
- The fallback capacity is the highest known one, not the most recent
  (`FallbackIsMostRecentExactlyWhen`).
- A failed write is not redelivered once anything is committed after it, and a stop in the middle
  of a batch commits what was never handled (`PassedOffsetIsRedeliveredExactlyWhen`,
  `StopSkipsAnOffsetExactlyWhen`, `RunMissesNothingExactlyWhen`).
- `revision_count` counts changes in what was delivered, so a redelivered batch raises it, unless
  all of the key's deliveries in it had one digest (`RedeliveredBatchCountsExactlyWhen`,
  `RedeliveredBatchCountsAgain`).
- A plant row's hash is not always the hash of the row (`StoredHashIsHashOfRow`).
- A spool bound of zero keeps everything and a negative one drops too much
  (`BoundHoldsExactlyWhenPositive`).
- A replay can put an old version back on the topic: it does unless the key's last spooled version
  is the newest (`ReplayedKeyIsCurrentExactlyWhen`, `StaleReplayReverts`). An overflow can hide a
  landed version (`OverflowHidesALandedRecord`).
- Paging over all plants can skip rows (`UnchangingWalkIsCompleteExactlyWhen`).
- The dictionary that suppresses unchanged windows keeps a key in the place of its first
  acknowledgement, so when full it can forget a window of the very fetch it just sent, and the next
  cycle sends that again. With room for all keys the next cycle sends nothing
  (`RepeatedCycleSendsNothing`, `NothingIsSentExactlyWhen`, `FullDictionaryForgets`).
- The advised waiting time of the limiter can be too short (`AdviceIsEnoughExactlyWhen`).
- The backoff can exceed its cap (`DelayCanExceedCapExactlyWhen`).
- A record with a matching but empty mix is also flagged as missing one (`JoinedRecordMeans`).
- The cache keeps the first version of the newest window (`CacheHoldsTheGreatest`).

## Model

| member | source | states |
|---|---|---|
| Solver.BestBelow | ecogrid/optimizer/solver.py:173-180 | of the legal free starts before a bound, the one with the least total intensity, the earliest of equals; none exactly when none is free |
| Solver.FindBest | ecogrid/optimizer/solver.py:173-180 | the scan over starts finds that one |
| Solver.Reserve | ecogrid/optimizer/solver.py:193-194 | the chosen block, and no other window, loses the load, in place |
| Solver.WriteRows | ecogrid/optimizer/solver.py:204-253 | one row a window, run rows with the shared baseline and saving, and the running totals |
| Solver.TakeTurn | ecogrid/optimizer/solver.py:154-253 | one process's turn: left out with a note, or placed, reserved and written |
| Solver.PlaceAll | ecogrid/optimizer/solver.py:144-253 | all turns, heaviest first |
| Solver.Solve | ecogrid/optimizer/solver.py:114-265 | the plan is the one of the specification; a misaligned capacity is refused with both lengths |
| SolverCapacity.CapacityIsConserved | ecogrid/optimizer/solver.py:144-194 | at every step, original less remaining capacity is the load placed in the window |
| SolverCapacity.CeilingExceededByOneTolerance | ecogrid/optimizer/solver.py:176-194 | however many processes share a window, its ceiling is exceeded by 1e-9 at most |
| SolverCapacity.UntouchedCarriesNothing | ecogrid/optimizer/solver.py:193-194 | a window no process runs in carries no load |
| SolverCapacity.RowLoadIsLoad | ecogrid/optimizer/solver.py:193-253 | the load of the written rows of a window is the load the ledger gave out |
| SolverCapacity.PlanKeepsCeiling | ecogrid/optimizer/solver.py:114-265 | so the rows of a finished plan keep every used window's ceiling up to one tolerance |
| SolverStability.LoadOnlyGrows | ecogrid/optimizer/solver.py:193-194 | with non-negative loads a window's load never falls |
| SolverStability.FreeAtItsTurn | ecogrid/optimizer/solver.py:176-194 | with non-negative or equal loads, a block with room at the end was free at the process's turn |
| SolverStability.ScheduleIsStable | ecogrid/optimizer/solver.py:154-194 | with non-negative or equal loads, no scheduled process could move alone to a block it prefers, and no unscheduled one fits, in what is left |
| SolverInstability.NeighboursUpsetSchedule | ecogrid/optimizer/solver.py:173-194 | of neighbours in the order of loads, the second negative and least of all, a clean window with a ceiling between them keeps the first out though it has room for it in the end |
| SolverInstability.AlwaysStableExactlyWhen | ecogrid/optimizer/solver.py:154-194 | a portfolio's schedule is stable under every forecast and ceiling exactly when no load is negative or all loads are equal |
| SolverInstability.NegativeLoadBreaksStability | ecogrid/optimizer/solver.py:154-194 | for instance, a load of -10 MW leaves a process of 10 MW out that fits in the end |
| SolverAccounting.RowsAddUpToBlocks | ecogrid/optimizer/solver.py:196-253 | the rows of a process sum to its block's carbon, its baseline block's carbon and their difference |
| SolverAccounting.TotalsAreBlockTotals | ecogrid/optimizer/solver.py:236-237 | the running totals are the carbon of the chosen and of the earliest blocks |
| SolverAccounting.BooksAreBalanced | ecogrid/optimizer/solver.py:217-253 | at every step the totals are the sums of the rows written |
| SolverAccounting.PlanAddsUp | ecogrid/optimizer/solver.py:255-265 | the three totals of a plan are the sums of its rows and of its blocks |
| SolverAccounting.RowsOfProcess | ecogrid/optimizer/solver.py:217-253 | a scheduled process has one row a window, in order and under its id and name, running exactly in its block; another has none |
| SolverReport.PlanReportsTheLeftOut | ecogrid/optimizer/solver.py:156-188 | a plan names, in the solver's order, exactly the processes that had no free legal start at their turn, each with one note whose reason is the right one: longer than the horizon, no legal start, or none free |
| SolverReport.RowMeans | ecogrid/optimizer/solver.py:196-253 | every figure of a row: its own window's carbon and equal shares of the earliest block's carbon and of the saving, or nothing outside the block |
| SolverReport.HoursMean | ecogrid/optimizer/solver.py:108-111 | sixty minutes are an hour, adjoining windows add up, a window that ends before it starts has no length |
| SolverSavings.BlockCarbonIsScaledIntensity | ecogrid/optimizer/solver.py:204-213 | with equal lengths a block's carbon is its intensity times the energy |
| SolverSavings.SavingIsNonNegativeExactlyWhen | ecogrid/optimizer/solver.py:173-215 | over windows of one length and under any ceiling, a row's saving is non-negative always without energy, for a positive load exactly when a free block was no dirtier than the earliest legal one, for a negative load exactly when none was cleaner |
| SolverSavings.LaterIsNoWorse | ecogrid/optimizer/solver.py:204-213 | over windows that never get longer, a later block that is no dirtier emits no more |
| SolverSavings.NoForecastLosesExactlyWhen | ecogrid/optimizer/solver.py:173-215 | over windows of any lengths and without a ceiling, no forecast of non-negative intensities makes any process of non-negative load lose exactly when no window is longer than one before it |
| SolverSavings.NoDirtierBlockSaves | ecogrid/optimizer/solver.py:173-215 | over windows of one length, or never longer, and under any ceiling, a free block no dirtier than the earliest one is enough for a non-negative saving |
| SolverSavings.ChosenIsNoWorse | ecogrid/optimizer/solver.py:173-213 | over such windows, if every scheduled process found its earliest block free, the chosen blocks emit no more than the earliest ones |
| SolverSavings.PlanSaves | ecogrid/optimizer/solver.py:101-265 | then the plan saves, and the percentage is between 0 and 100 |
| SolverSavings.TightCeilingLoses | ecogrid/optimizer/solver.py:192-213 | a tight ceiling makes a saving negative |
| SolverSavings.UnequalLengthsLose | ecogrid/optimizer/solver.py:178-213 | for instance, a second window twice as long makes one negative without a ceiling |
| SolverOrder.SortKeepsElements | ecogrid/optimizer/solver.py:154 | the sort returns the same processes |
| SolverOrder.SortSorts | ecogrid/optimizer/solver.py:154 | by descending load, then ascending id, whatever ids are shared |
| SolverOrder.DistinctIdsSortStrictly | ecogrid/optimizer/solver.py:154 | strictly so with distinct ids |
| SolverOrder.SortedArrangementIsUnique | ecogrid/optimizer/solver.py:154 | there is one such arrangement if no two different processes share load and id |
| SolverOrder.SortKeepsFirst | ecogrid/optimizer/solver.py:154 | of processes that share both, the one listed first comes first |
| SolverOrder.PlanIgnoresListingOrder | ecogrid/optimizer/solver.py:114-265 | a permuted portfolio gives the same plan, row for row, if no two different processes share load and id |
| SolverOrder.OrderIgnoresListingExactlyWhen | ecogrid/optimizer/solver.py:154 | every listing is taken in the same order exactly when no two different processes share load and id |
| SolverListing.PlanIgnoresListingExactlyWhen | ecogrid/optimizer/solver.py:114-265 | all listings have one plan, whatever the windows and the ceiling, exactly when processes that share load and id also share name, duration and earliest start |
| SolverOrder.SharedIdShowsListingOrder | ecogrid/optimizer/solver.py:154 | two processes that share both can be scheduled or not depending on the listing |
| SolverOptimality.EverythingFits | ecogrid/optimizer/solver.py:176 | with ample capacity every legal block is free at every turn |
| SolverOptimality.AmpleCeilingIsNoCeiling | ecogrid/optimizer/solver.py:139-144 | a ceiling of at least the whole load gives the plan of no ceiling |
| SolverOptimality.SchedulableIsScheduled | ecogrid/optimizer/solver.py:155-188 | then a process is scheduled exactly when it has a legal start |
| SolverOptimality.NoAssignmentIsBetter | ecogrid/optimizer/solver.py:173-208 | and no assignment of legal starts emits less |
| SolverOptimality.SortedAssignment | ecogrid/optimizer/solver.py:154 | an assignment listed in the solver's order is one and emits the same |
| SolverOptimality.PlanIsOptimal | ecogrid/optimizer/solver.py:114-265 | the plan's total is the least of all assignments to the portfolio as given, with equal lengths and non-negative loads |
| OptimizerLoop.LoadCapacity | ecogrid/optimizer/loop.py:142-170 | none without windows or reports, otherwise one entry a grid window: the greatest report for that window, or, if no row is for it, the greatest of all; never negative |
| OptimizerLoop.CapacityMeans | ecogrid/optimizer/loop.py:161-170 | the capacity that a plan is built with is that one |
| OptimizerLoop.Fallback | ecogrid/optimizer/loop.py:169 | the fallback is the greatest value of the dictionary |
| OptimizerLoop.FallbackIsMostRecentExactlyWhen | ecogrid/optimizer/loop.py:167-169 | it is the capacity of the newest window reported exactly when no report exceeds that |
| OptimizerLoop.BuildPlan | ecogrid/optimizer/loop.py:185-211 | a plan in every case: below two windows the empty one with zero totals and its note, the remote one if any, the solver's otherwise, never its length error |
| PlanStore.Database.PersistPlan | ecogrid/optimizer/loop.py:214-279 | run and rows are upserted as specified, or everything is rolled back |
| PlanStore.PersistingTwiceIsPersistingOnce | ecogrid/optimizer/loop.py:214-279 | persisting a plan again is a no-op |
| PlanStore.PersistingStoresThePlanOnly | ecogrid/optimizer/loop.py:218-279 | the run and every row of the plan are stored column by column, what an upsert does not rewrite stays, nothing else is added, and no other run's row changes |
| PlanStore.OwnerOfRow | ecogrid/optimizer/solver.py:217-253 | every row of a plan belongs to one scheduled process and one window |
| PlanStore.SolverPlanPersistsExactlyWhen | ecogrid/models.py:245-296 | a solver plan can be stored exactly when scheduled ids and, if any is scheduled, window starts are distinct, and the names of the run, the solver and the scheduled processes fit their columns |
| DedupeCache.PutMeaning | ingest_grid.py:949 | assignment sets one key, in its place or at the end, and keeps the others |
| DedupeCache.TrimMeaning | ingest_grid.py:985-989 | each of the newest 1024 entries keeps its digest and every older one is forgotten |
| DedupeCache.RememberMeaning | ingest_grid.py:949-950 | an acknowledged digest is remembered; no other key gets a new one; the bound holds |
| PublisherProtocol.Overflow | ingest_grid.py:698-700 | Python's slice with any bound; a positive one is kept |
| PublisherProtocol.StepKeepsInv | ingest_grid.py:926-983 | every event of the publisher keeps the invariant |
| PublisherProtocol.EveryRunKeepsInv | ingest_grid.py:926-990 | it holds after any run from any spool found on disk |
| PublisherProtocol.RememberedDigestsAreCurrent | ingest_grid.py:942-950 | a remembered digest is the topic's last for its key, unless a record of it is pending or was dropped |
| PublisherProtocol.CleanCycleDelivers | ingest_grid.py:938-983 | a cycle with every send acknowledged empties the spool and leaves the topic ending in its fetch, key by key |
| PublisherProtocol.LeavingRecordsAreOnTheTopic | ingest_grid.py:628-710 | in one step, what leaves the spool is on the topic or was cut off |
| PublisherProtocol.EndedFetchIsOnTheTopicOrKept | ingest_grid.py:938-958 | the content of what a cycle fetched is on the topic or in the spool at its end, or was cut off |
| PublisherProtocol.OnlyACutDrops | ingest_grid.py:693-708 | a key counts as dropped from an overflow on, and from nothing else |
| PublisherProtocol.StepStaysWithin | ingest_grid.py:628-710 | only a fetch can make the spool larger, and with room for all fetches it never overflows |
| PublisherCycle.CycleKeepsExactlyTheUnanswered | ingest_grid.py:926-983 | over any cycle: after the replay the spool is exactly the records no acknowledgement of this replay answered, in order; the failures are exactly the fetched ones neither acknowledged nor skipped; in the end the spool is both, less the oldest cut off |
| PublisherCycle.SpooledRecordsLeaveForAReason | ingest_grid.py:960-983 | a spooled record was acknowledged in this replay, is still spooled, or was cut off |
| PublisherCycle.FetchedRecordsAreKept | ingest_grid.py:938-958 | a fetched record was acknowledged, skipped as unchanged, is spooled, or was cut off |
| PublisherCycle.OnlyTheEndsTouchTheSpool | ingest_grid.py:955-980 | nothing but the end of a replay and the end of a cycle touches the spool, a crash included |
| PublisherLimits.ReplayedKeyIsCurrentExactlyWhen | ingest_grid.py:960-983 | after a clean cycle, a key that was only replayed ends in its newest version exactly when that is its last spooled one |
| PublisherLimits.StaleReplayReverts | ingest_grid.py:960-983 | for instance, a spooled old version replayed after a newer send puts the topic back, in a cycle that fetched something else |
| PublisherLimits.OverflowHidesALandedRecord | ingest_grid.py:693-708 | in the grid worker with a spool bound of one, a dropped record that had landed is hidden from the dedupe map |
| TelemetryPublisher.Topic.SendWithRetry | ingest_grid.py:875-924 | the topic gets one copy for every attempt that lands, up to the first acknowledgement; success exactly if there is one |
| TelemetryPublisher.Publisher.constructor | ingest_grid.py:754-759 | a restart is the machine's crash: the topic and the spool file stay, the dictionary and the counters do not |
| TelemetryPublisher.Publisher.RememberSent | ingest_grid.py:949-950 | the dictionary after an acknowledgement |
| TelemetryPublisher.Publisher.TrySend | ingest_grid.py:946-953 | one record's attempts take topic, dictionary and lists where the events do |
| TelemetryPublisher.Publisher.ReplaySpool | ingest_grid.py:960-983 | the replay is the machine's; the result is the number of acknowledgements, and what was not acknowledged stays spooled |
| TelemetryPublisher.Publisher.Publish | ingest_grid.py:926-958 | so is publishing; the results are the acknowledgements and the failures, the rest being skipped; a fetch whose digests are all in the dictionary leaves the topic as it was and returns zeros |
| TelemetryPublisher.Publisher.RunCycle | ingest_grid.py:1118-1119 | a cycle of the object is a cycle of the machine, with its three counts; without failures it remembers its fetch, if there is room, and with nothing spooled and all remembered it sends nothing |
| TelemetryPublisher.PlantBridge.RunOnce | ecogrid/plant/bridge.py:212-262 | so is one of the bridge; each of its five counters is the machine's acknowledgements, skips, failures and spool size; a window that is all remembered is skipped as a whole |
| PublisherTurns.SentMeaning | ingest_grid.py:881-953 | the events of one send amount to its copies on the topic and one acknowledgement or failure |
| PublisherTurns.CycleKeepsInv | ingest_grid.py:926-983 | whole cycles of either worker keep the invariant |
| PublisherDedupe.FetchedTurn | ingest_grid.py:938-953 | a fetched record is skipped exactly when unchanged windows are suppressed and the dictionary holds its digest; a skip changes nothing, otherwise it is sent, remembered or listed as failed |
| PublisherDedupe.SpooledTurn | ingest_grid.py:970-981 | a spooled record is always sent, remembered or kept |
| PublisherDedupe.NothingIsSentExactlyWhen | ingest_grid.py:942-944 | publishing leaves the topic as it was, whatever the broker does, exactly when nothing was fetched or unchanged windows are suppressed and the dictionary holds every digest |
| PublisherDedupe.CycleIsRemembered | ingest_grid.py:946-950 | with room in the dictionary, a cycle without failures leaves the last digest fetched for every key in it |
| PublisherDedupe.RepeatedCycleSendsNothing | ingest_grid.py:926-983 | the same fetch right after a cycle with all sends acknowledged sends nothing, with room in the dictionary: topic, dictionary and spool stay, every record is skipped |
| PublisherDedupe.FullDictionaryForgets | ingest_grid.py:985-989 | a full dictionary forgets a window of the fetch just sent, which is then sent again |
| Ledger.RowIsFoldOfItsKey | ecogrid/consumer.py:127-176 | a row depends on the deliveries of its key alone |
| Ledger.InterleavingDoesNotMatter | ecogrid/consumer.py:356-358 | two interleavings of the same per-key deliveries give the same table |
| Ledger.ColumnsMean | ecogrid/consumer.py:127-176 | every column in terms of the deliveries: last content and hash, number of changes, first sighting for good, times of the last change |
| Ledger.StoredHashIsHashOfRow | ecogrid/plant/consumer.py:77-90 | the stored hash is the row's in the grid table always, in the plant table exactly when schema version and source are the first ones |
| Ledger.RedeliveredBatchCountsExactlyWhen | ecogrid/consumer.py:153-156 | redelivering the last deliveries of a key, at any times, leaves its revision count as it was exactly when they all had one digest |
| Ledger.RedeliveredBatchCountsAgain | ecogrid/consumer.py:153-156 | for instance, redelivering two versions counts two more revisions |
| Ledger.SuppressedDeliveriesLeaveNoTrace | ecogrid/consumer.py:155-168 | the table is that of the unsuppressed deliveries |
| Ledger.AdjacentRedeliveryIsInvisible | ecogrid/consumer.py:155-168 | delivering a key's last record again, anywhere before its next one, changes nothing then or later |
| Ledger.UpsertWrites | ecogrid/consumer.py:165-176 | a delivery adds one row, or one revision, or nothing |
| Ledger.DeliveriesAreConserved | ecogrid/consumer.py:127-176 | deliveries are the rows, their revisions and the suppressed duplicates |
| ConsumerProtocol.StepKeepsInv | ecogrid/consumer.py:346-461 | every event of a consumer keeps the invariant |
| ConsumerProtocol.EveryRunKeepsInv | ecogrid/consumer.py:346-461 | it holds after any run |
| ConsumerProtocol.CommittedOffsetsAreAccountedFor | ecogrid/consumer.py:356-362 | offsets below the committed one were settled or are known as missed; at the high-water mark every row that is not stale is its key's last record |
| ConsumerProtocol.CaughtUpRowsAreLast | ecogrid/consumer.py:127-176 | at the end of the log a row is its key's last record, content and hash |
| ConsumerProtocol.StepMissesNothingExactlyWhen | ecogrid/consumer.py:316-323 | a step misses an offset exactly when it is a failed write or a stop that commits a batch half done |
| ConsumerProtocol.RunMissesNothingExactlyWhen | ecogrid/consumer.py:290-292 | a run misses nothing exactly when no write failed and every stop had nothing to commit or came between two batches; then every offset below the committed one was settled, whatever crashed |
| ConsumerProtocol.CommittedIsForGood | ecogrid/consumer.py:360-362 | the committed offset never falls and nothing below it is handled again |
| ConsumerProtocol.PassedOffsetComesBackExactlyWhen | ecogrid/consumer.py:441-452 | a passed offset comes back exactly by a crash or a stop with nothing to commit, and is given up exactly by a commit |
| ConsumerProtocol.PassedOffsetIsRedeliveredExactlyWhen | ecogrid/consumer.py:441-452 | over any run, an offset whose write failed is delivered again exactly when a restart came before the first commit |
| ConsumerProtocol.StopSkipsAnOffsetExactlyWhen | ecogrid/consumer.py:316-323 | an offset polled but not handled is committed by a stop exactly when there is something to commit |
| ConsumerProtocol.StepSettlesExactly | ecogrid/consumer.py:375-461 | an offset is settled by being handled, and missed by a failed write or a stop that skips it, and by nothing else |
| ConsumerProtocol.RestartsWhereCommitted | ecogrid/consumer.py:340-352 | a consumer that restarts has everything from the committed offset on before it |
| ConsumerProtocol.CommittedNeverComesBack | ecogrid/consumer.py:360-362 | what is committed is never handled again, in any run |
| ConsumerProgress.AlwaysCatchesUp | ecogrid/consumer.py:340-362 | from wherever a run has come, a restart, a poll, the handling of what was polled and a commit leave nothing of the logs unhandled or uncommitted |
| ConsumerProtocol.FailedWriteIsCommittedPast | ecogrid/consumer.py:441-452 | a failed write followed by a success is committed past and in no row |
| ConsumerProtocol.StopMidBatchCommitsTheRest | ecogrid/consumer.py:316-323 | a stop after an exception commits messages that were never handled |
| TelemetryConsumer.TelemetryConsumer.HandleMessage | ecogrid/consumer.py:375-461 | row, audit row, all counters and what is left to commit, for every message and every fate of its write |
| TelemetryConsumer.TelemetryConsumer.HandleBatches | ecogrid/consumer.py:356-362 | a polled batch moves the object as the machine moves, and leaves nothing uncommitted |
| TelemetryConsumer.RoundCommitsExactlyWhen | ecogrid/consumer.py:356-362 | a round commits every poll position exactly when something was left to commit or some message of it was written or rejected; a round whose writes all failed commits nothing |
| TelemetryConsumer.TelemetryConsumer.constructor | ecogrid/consumer.py:226-239 | a restart is the machine's crash: the database stays, the counters do not |
| TelemetryConsumer.PlantConsumer.HandleMessage | ecogrid/plant/consumer.py:199-227 | the same for the plant table, counting only durable outcomes |
| TelemetryConsumer.PlantConsumer.HandleBatches | ecogrid/plant/consumer.py:233-240 | the same for its batches |
| TelemetryConsumer.BatchKeepsInv | ecogrid/consumer.py:356-362 | batches with writes of any fate keep the invariant |
| TelemetryConsumer.CountersMatchTheTable | ecogrid/consumer.py:377-420 | every message is counted once or failed; the insertions counted are the rows the table gained and the revisions counted are what its revision counts gained, each plus those counted before a failed commit |
| TelemetryConsumer.AuditOffsetIsGreatest | ecogrid/consumer.py:193-215 | an audit row's offset is the greatest ever reported, its counters those of the last report |
| Pipeline.WorkerIsNeverBlocked | ingest_grid.py:926-983 | whatever the worker does to the topic, the consumer can see |
| Pipeline.StepKeepsInv | ingest_grid.py:926-983 | every event of either side keeps both invariants |
| Pipeline.EveryRunKeepsInv | ingest_grid.py:926-983 | they hold after any interleaving |
| Pipeline.FetchedRecordsReachTheLedger | ecogrid/consumer.py:127-176 | end to end: after a cycle with all sends acknowledged and a consumer at the end of the log, each fetched key's row is the last record fetched for it |
| Pipeline.SmoothRunsExceptNothing | ecogrid/consumer.py:346-362 | without overflow, failed writes and stops that commit a batch half done, no key is excepted from that |
| Pipeline.SmoothRunsReachTheLedger | ecogrid/consumer.py:127-176 | so, for such runs of any length, each key fetched by a cycle with all sends acknowledged ends in its last fetched record once the consumer is at the end of the log |
| Pipeline.RoomForAllIsSmooth | ingest_grid.py:693-708 | a spool with room for all that is ever fetched never overflows, in any run |
| Pipeline.EveryFetchedRecordReachesTheLedger | ecogrid/consumer.py:127-176 | in particular, from hypotheses about the events alone |
| SpoolFile.ReadWhatWasJoined | ingest_grid.py:693-708 | lines written back are read back |
| SpoolFile.ReadLinesMeans | ingest_grid.py:697 | the lines read make up the text, each but the last ending in its only newline |
| SpoolFile.StripMeans | ingest_grid.py:649 | stripping takes off the space around a line and nothing else |
| SpoolFile.LoadedExactly | ingest_grid.py:648-658 | what is loaded is the decodings, in order, of exactly the lines that decode; a blank or corrupt one loads as nothing |
| SpoolFile.TrimReads | ingest_grid.py:693-708 | trimming a file keeps exactly the lines of Python's slice |
| SpoolFile.LinesAfterAppend | ingest_grid.py:628-640 | whatever complete lines a file holds, an append leaves the last `max` of them and the new ones |
| SpoolFile.LoadAfterAppendOfAnyLines | ingest_grid.py:628-662 | `load` after `append` to any complete lines: the old records and the new ones, less those in the lines the bound drops |
| SpoolFile.LoadAfterAppend | ingest_grid.py:628-662 | for a file of records, the last `max` of the old records and the new ones |
| SpoolFile.LoadAfterReplace | ingest_grid.py:664-691 | `load` after `replace` is exactly the records kept |
| SpoolFile.BoundHoldsExactlyWhenPositive | ingest_grid.py:698-700 | a non-empty append to any complete lines leaves the file, and what it loads, within the bound exactly when that is at least one |
| SpoolFile.PlantTrimLoadsTheSame | ecogrid/plant/bridge.py:99-113 | the bridge's trim loads back the same records |
| SpoolFile.TelemetrySpool.Append | ingest_grid.py:628-640 | the file's text after an append and trim |
| SpoolFile.TelemetrySpool.Trim | ingest_grid.py:693-708 | the file's text after a trim |
| SpoolFile.TelemetrySpool.Load | ingest_grid.py:642-662 | blank lines skipped, corrupt ones discarded, a missing file empty |
| SpoolFile.TelemetrySpool.Replace | ingest_grid.py:664-691 | the file's text is the records; no file appears for none |
| RateLimiter.Limiter.Check | ecogrid/ratelimit.py:43-75 | counter, expiry and every field of the result; allowed within the limit, and always when disabled or with the store down, which then stays as it was |
| RateLimiter.CountsAreExact | ecogrid/ratelimit.py:54-59 | a window's entry holds its exact count, outlives the window, and is gone within a second after the next one |
| RateLimiter.ExpiredEntriesDoNotCount | ecogrid/ratelimit.py:54-59 | an entry counts only while it lives |
| RateLimiter.FirstLimitPass | ecogrid/ratelimit.py:48-75 | exactly the first `limit` requests of an identity in a window pass, and what is used up is their number |
| RateLimiter.PassedInIsBounded | ecogrid/ratelimit.py:48-75 | so the number that pass is the smaller of the count and the limit |
| RateLimiter.PassesAreBounded | ecogrid/ratelimit.py:48-75 | at most `(n + 1) * limit` pass in any `n` window lengths |
| RateLimiter.TwiceTheLimitCanPass | ecogrid/ratelimit.py:3-5 | twice the limit can pass within half a second |
| RateLimiter.AdviceIsEnoughExactlyWhen | ecogrid/ratelimit.py:52 | the advised wait reaches the next window exactly when a whole number of seconds or less than one is left; it is at most what is left and less than a second short of it, or one second |
| Keyset.PageSize | ecogrid/api.py:449 | the size asked for, or the standard one, if within the maximum, else the maximum |
| Keyset.FiltersNarrow | ecogrid/api.py:451-461 | each filter added to a query leaves exactly the rows it names; without any, all are selected |
| Keyset.PageExists | ecogrid/api.py:463-467 | an answer to the query always exists |
| Keyset.GridRowsAreUntied | ecogrid/api.py:451-461 | grid windows never start together |
| Keyset.OnePlantIsUntied | ecogrid/api.py:666-668 | nor do those of one plant |
| Keyset.PagesDescend | ecogrid/api.py:463-470 | later pages hold strictly older windows, whatever changes in between |
| Keyset.PageDescends | ecogrid/api.py:463 | and so does each page within itself, without ties |
| Keyset.NothingTwice | ecogrid/api.py:463-470 | no row is returned twice |
| Keyset.NothingIsMissed | ecogrid/api.py:463-470 | a walk that ended returned every row that matched throughout |
| Keyset.EveryRowExactlyOnce | ecogrid/api.py:449-477 | for the grid endpoint with any filters, and the plant endpoint with a plant filter, a row that matched throughout is returned in exactly one place |
| Keyset.WalksEnd | ecogrid/api.py:470 | while finitely many rows ever match below the cursor, every walk ends, however many are inserted above it |
| Keyset.TiesAreLostExactlyWhen | ecogrid/api.py:666-678 | a full page loses rows exactly when no moment has as many rows at or after it as a page holds |
| Keyset.UnchangingWalkIsCompleteExactlyWhen | ecogrid/api.py:666-678 | paging over an unchanging table returns every row exactly when, for every number of full pages the table could fill, some moment has exactly that many rows at or after it |
| Keyset.UnfilteredPagingSkipsAPlant | ecogrid/api.py:666-678 | paging over two plants can never return one of them |
| Merge.MergeTelemetry | ingest_grid.py:366-436 | the popping loop computes the specification, including its first error |
| Merge.CollapseKeepsTheLast | ingest_grid.py:397-398 | a mix holds, for each fuel named, the last percentage given |
| Merge.SharesAreOrdered | ingest_grid.py:358-363 | shares are non-negative and the renewable one is within the low-carbon one |
| Merge.SharesAreSums | ingest_grid.py:80-84 | the three shares are the sums of their fuels' percentages |
| Merge.MergeIsALeftOuterJoin | ingest_grid.py:372-379 | every window comes out once, in order of its start, joined to the generation window of its span or flagged; a window listed before is flagged |
| Merge.JoinedRecordMeans | ingest_grid.py:393-423 | a record carries its window's readings, the time of the merge, the matching mix and its three shares fuel by fuel; it is flagged exactly when no mix or an empty one was found |
| Merge.JoinedSharesAreOrdered | ingest_grid.py:358-363 | the low-carbon share covers the renewable one |
| Merge.MergeFailsExactlyWhen | ingest_grid.py:307-309 | the merge is refused exactly when some low-carbon or fossil share exceeds a hundred, naming the first such window |
| Merge.GenerationOrderDoesNotMatter | ingest_grid.py:382-384 | permuting distinct generation windows changes nothing |
| Merge.MergeIsTheJoinsInOrder | ingest_grid.py:389-436 | with distinct starts the result is the joins in strict order |
| Merge.IntensityOrderDoesNotMatter | ingest_grid.py:435 | permuting intensity windows with distinct starts changes nothing |
| Merge.CommonStartShowsListingOrder | ingest_grid.py:435 | with a common start the listing order shows |
| Retry.DelayIsBounded | ingest_grid.py:444-450 | with a cap of at least half the base, the delay lies between half the base and its ceiling |
| Retry.DelayReaches | ingest_grid.py:444-450 | the draw ranges from half the base to the lesser of the cap and the base doubled once for each earlier attempt |
| Retry.DelayCanExceedCapExactlyWhen | ingest_grid.py:449-450 | otherwise some draw exceeds the cap, and exactly then |
| Retry.SendWithRetry | ingest_grid.py:881-924 | success exactly if an attempt is acknowledged, and the time of the attempts and sleeps up to it |
| Retry.SleepMeans | ecogrid/plant/bridge.py:300-302 | the bridge sleeps the doubled base or the cap, the grid worker between half the base and that |
| Retry.ElapsedIs | ingest_grid.py:881-924 | that time is the attempts up to the first acknowledged one, or all, and one sleep after each of them but the last |
| Retry.SendIsBounded | ingest_grid.py:875-924 | a send takes at most `N*T + min(base*(2^(N-1)-1), (N-1)*cap)` |
| Retry.StandardSendTakesAtMost | ecogrid/plant/bridge.py:266-302 | which is ninety seconds as the bridge is written |
| Retry.BridgeTakesThatLong | ecogrid/plant/bridge.py:266-302 | and so long it takes when every attempt times out |
| LatestCache.TelemetryCache.GetLatest | ecogrid/cache.py:31-46 | the stored window if one can be read; a corrupt entry is dropped |
| LatestCache.TelemetryCache.SetLatestIfNewer | ecogrid/cache.py:48-74 | stored exactly if datable, the store takes it, and no readable window starts as late |
| LatestCache.TelemetryCache.LatestTelemetry | ecogrid/api.py:401-429 | a valid cached window, or the newest row, which is offered to the cache; 404 for an empty table |
| LatestCache.CacheHoldsTheGreatest | ecogrid/cache.py:48-74 | between two evictions the cache holds the first payload offered with the greatest start |
| LatestCache.GreatestWithinLifetime | ecogrid/cache.py:65-70 | so it does, from the clock and the lifetime alone, for offers that follow an eviction within one lifetime of an entry |

## Left out

- Publisher: a late landing that comes after a later acknowledged send of its key is outside the model, as the guard of `Ack` says.
- TelemetryPublisher.Publisher.Publish: in the object, unlike in the machine, each failed attempt lands or is lost at once.
- TelemetryPublisher.PlantBridge.RunOnce: it sends through the grid worker's object with an unbounded dictionary instead of repeating its loops, and takes the fetched records as given before the replay.
- Publisher exceptions other than a Kafka error or a timeout, `OSError` on the spool and torn writes: assumed absent; they would skip the append.
- SpoolFile.LoadAfterAppend: for a file whose lines are all records; `LoadAfterAppendOfAnyLines` says what becomes of other lines. A file with an open last line is a torn write. Line ends other than the newline, as `splitlines` sees them, are assumed absent.
- SpoolFile: the text-level spool and the record-level one of the publisher are two models of one file; `LoadAfterAppend` and `LoadAfterReplace` are the link.
- TelemetryConsumer.TelemetryConsumer.HandleMessage: it returns the record it would offer to the cache instead of calling the cache, and reports of the dead-letter topic only whether a forward succeeded.
- ConsumerProtocol: a rebalance of single partitions, log compaction and retention, and an offset reset to the latest are not modelled. An exception that escapes a handler is the event `Abort`.
- Ledger: two windows that share a Kafka key because it is cut to the second are not modelled; the key is the row's key.
- Solver.Solve: the run id is given; the source draws one when it is missing.
- OptimizerLoop.BuildPlan: takes the windows, the portfolio and the rows as loaded; the queries behind them, the Databricks run and the parsing of the portfolio file are parameters.
- PlanStore.Database.PersistPlan: PostgreSQL cuts trailing spaces to a column's width instead of refusing them; names are taken to end in none.
- SolverSavings.SavingIsNonNegativeExactlyWhen: for windows of one length; for others `NoForecastLosesExactlyWhen` says which lengths are safe without a ceiling, and `NoDirtierBlockSaves` what is enough under one.
- Keyset.UnchangingWalkIsCompleteExactlyWhen: for a table that does not change during the walk; without ties `EveryRowExactlyOnce` allows any change.
- RateLimiter.PassesAreBounded: counts requests that reached the store; those let through while it was down are unbounded by design.
- LatestCache.CacheHoldsTheGreatest: for calls that do not interleave and a store that answers; races between the consumer and the API are not modelled.
- Keyset: the grid endpoint's `total` and the plain rows of a page are left out; a page is its keys.
- Merge.MergeTelemetry: field validation beyond the shares is done on the envelopes and assumed; warnings are left out.
- Retry: the HTTP client's retries and the wait for the broker use the same delay and are not modelled.
- HTTP fetching, Kafka, PostgreSQL and Redis clients, signals, logging, the heartbeat, authentication, the advisor, MLflow, the dashboard, the demo seeder and the plant simulator: input and output, or nothing deep to prove.
