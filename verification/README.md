# Candle aggregation, audit and repair: a verified model

This project models the part of the market-data service that decides what a candle is: how time is
cut into buckets, how minutes become higher timeframes, how splits adjust them, and how missing or
wrong candles are found and repaired. It proves that the many code paths doing this agree with each
other and lose nothing. `dafny verify dfyconfig.toml` checks everything.

## How the model is laid out

| layer | modules | what they model |
|---|---|---|
| time | Calendar, Timeframe, BucketCounting | the Gregorian calendar, the bucket arithmetic of all timeframes, closed-form bucket counts |
| rollup | Rollup, Aggregator, RollupChain | the rollup rule, the in-place scans that compute it, and the algebra behind it |
| store and cascade | Storage, Cascade, LiveCascade, MarketService, SourceGrid, FlatRollup, BatchRepair, RollupRepair, FrameSelection, Integrity | the memory store, the rollup queue in its two modes, the recursive batch repair, the live rollup, the integrity auditor |
| splits | CorporateAction | factor detection and adjustment |
| minute audit | MinuteLedger, MinuteWorker, Scheduling, SchedulingPasses | the lease ledger as a step machine, its workers, the scheduling passes with crash points |
| verified minutes | VerifiedMinutes, MinuteVerification, LateFinals, SymbolLocks | generations, revisions and marks over whole runs, the verification of a series, late finals, the sharded locks |
| gap repair | TimeAudit, GapAuditor, GapTargets, GapPlan, GapPipeline, SeriesPlan, GapRepair, GapExecutor | streaming gap detector, planner, validator and insert-only executor, and how they compose |
| guardian | GuardianRepair, GuardianRun | repair of a range against official candles, days proven empty, the retry state |
| streaming rollup | RollingFold, MinuteBarRollup | the Python one-pass aggregator |

Each timeframe is a strictly increasing sequence of boundaries `Boundary(tf, k)`. Everything above
Timeframe reasons with those, so minutes, weeks and calendar months are handled alike. Rollups are
specified level by level: `LiveCascade.RolledUp` is what the service's queue leaves on any store in
either mode, which in repair mode is `Cascade.CascadeRows`, and `BatchRepair.BatchRows` is what the
recursive batch repair leaves on any store. Queue and recursion are proved to leave those rows in
whatever order they worked, and it is proved exactly when the three agree. The ledger, the verified
minutes and the scheduling passes are state machines, and their theorems speak of every run.

Modelling choices: prices and volumes are `real`; timestamps are unbounded integers in milliseconds
and the service's truncating division is written out (`Timeframe.TruncDiv`); the clock, tokens,
fetched candles, failures and crash points are parameters; stores have the semantics of the memory
store.

## Where the code does not meet the expected property

* Truncating division and durations. The floor of a timestamp before 1970-01-05 can be the next boundary
  rather than the previous one, and week buckets are found through a duration, which holds no more than
  292 years. `Timeframe.TilingExactly` says for which timestamps buckets tile time; within that reach
  the floor used everywhere else is the service's (`Timeframe.FloorsAgreeExactly`).
* Late finals in live mode. A final candle that comes after the one that closed its bucket rebuilds
  nothing, so the bucket keeps its old rollup. `LiveCascade.LiveEqualsRepairExactly` is the exact
  condition, `LiveCascade.InOrderIsCascade` the case of candles that arrive in order,
  `LiveCascade.LateFinalIsSkipped` and `LiveCascade.LateFinalExample` the failure.
* Batch repair and queue. The queue reads a bucket's whole source range, the batch repair only the rows on
  boundaries, so a stray final row between boundaries stops the queue but not the batch repair; and the
  batch repair does not go on from a candle without positive prices, while the queue does.
  `BatchRepair.BatchEqualsQueueExactly` says on any store exactly when the two leave the same rows,
  `BatchRepair.CleanSourcesAgree` gives a condition on the stored source rows of the series alone, and
  `BatchRepair.StrayRowParts` parts them. `SourceGrid.ReadyIffOnGrid` is the exact condition for one bucket.
* A crash before the first cursor. If a scheduling pass is cut off between its very first registration
  and its first cursor, and the next pass starts later than the registered minutes end, the minutes in
  between are never registered. `Scheduling.CoveredExactly` is the exact condition,
  `Scheduling.OrphanExample` the run.
* Requests folded into finished tasks. A request, such as that of a conflicting final, is deduplicated into
  a task of the same identity even if that task is already finished, and then leaves no open work:
  `MinuteLedger.RequestOpenOrClosedSince` for requests of every kind. Only daily tasks stay when completed
  (`MinuteLedger.OnlyDailyStaysCompleted`), so for conflicts it takes an excluded or expired task:
  `LateFinals.ConflictIsOpen` and the run `LateFinals.ConflictFoldedAway`.
* Split times inside a minute. For one-minute candles the two adjustment paths agree exactly if the factors
  of the actions inside the minute multiply to one: `CorporateAction.MinuteAdjustmentExactly`.
* Listing time without expected data. A minute repair with a listing time but no expectation of data does
  not check coverage; `GuardianRun.ListingAloneIsNotEnough` says exactly when its success still means
  coverage. The guardian's own tasks always set both.
* Carried prices. The Python aggregator lets candles without trades set the prices of a traded bucket and
  takes the end of a candle without a tick for its tick; the service does neither. They agree exactly as
  `RollingFold.PricesAgreeExactly` and `RollingFold.TicksAgreeExactly` say, and on totals always
  (`RollingFold.TotalsAgree`). `RollingFold.MixedBucketsDiffer` and `RollingFold.MixedBucketsMayAgree`
  are buckets of either kind.

## Model

| member | source | states |
|---|---|---|
| Calendar.MonthBracket | internal/timeframe/timeframe.go:97-103 | every day lies in exactly the month that the date conversion names, over the whole Gregorian cycle |
| Calendar.MonthUnique | internal/timeframe/timeframe.go:97-103 | only that month holds the day, so month starts and month numbers are inverse |
| Calendar.MonthLength | internal/timeframe/timeframe.go:97-103 | consecutive month starts are a Gregorian month apart, leap years included, so the conversion is that of the calendar |
| Timeframe.FrameWidths | internal/timeframe/timeframe.go:22-52 | every timeframe's boundaries in milliseconds: fixed widths counted from 1970, weeks from Monday 1970-01-05, calendar months and quarters |
| Timeframe.FloorIsBoundary | internal/timeframe/timeframe.go:77-105 | the floor is the boundary of the bucket that holds the timestamp if the division rounds down there, and the next one otherwise |
| Timeframe.TilingExactly | internal/timeframe/timeframe.go:77-123 | floor(t) <= t < next(floor(t)) if and only if the division rounds down at t, which it does from 1970-01-05 on, and for weeks a duration reaches t |
| Timeframe.FloorsAgreeExactly | internal/timeframe/timeframe.go:89-96 | the saturating week arithmetic gives the floor of the unlimited one exactly for the weeks, from 1677 to 2262, that a duration reaches, and no bucket that holds t outside |
| Timeframe.Tiling | internal/timeframe/timeframe.go:77-147 | from 1970-01-05 on, for weeks as far as a duration reaches: buckets tile time, floor, next and previous are aligned and inverse, and no other aligned start claims the timestamp |
| Timeframe.NextOfBoundary | internal/timeframe/timeframe.go:107-147 | next, previous and end move by one along the boundaries, months of any length included |
| Timeframe.BucketsNest | internal/timeframe/timeframe.go:77-147 | within the same bounds, the source bucket of a timestamp lies inside its target bucket and the target's start is a source boundary |
| Rollup.SourceRefines | internal/aggregator/engine.go:13-28 | every rollup source is enabled, comes earlier in the timeframe order and its boundaries include those of its target |
| Rollup.SourceIsCoarsest | internal/aggregator/engine.go:13-28 | a timeframe is rolled up from the coarsest of the five feeding ones below it, none lies between the two, and the source's boundaries include the target's |
| BucketCounting.CountIsDistance | internal/timeaudit/audit.go:225-238 | the closed-form bucket count equals the distance of the bucket indices, calendar months included |
| BucketCounting.StepsAreTheStarts | internal/timeaudit/audit.go:223-238 | stepping that often visits each aligned start of the range exactly once |
| BucketCounting.LatestCompletedIsLatest | internal/timeaudit/audit.go:124-133 | the latest completed start is aligned, has ended by the watermark, and no later one has |
| BucketCounting.BarWindowStart | internal/retention/policy.go:46-61 | the retention window starts exactly keepBars buckets back, or at 0 when nothing is kept |
| BucketCounting.WindowHoldsKept | internal/retention/policy.go:46-61 | the buckets of the window are exactly the completed ones from its start on |
| Rollup.JoinAssociative | internal/aggregator/engine.go:30-91 | joining adjacent stretches of candles is associative, carried prices included |
| Rollup.FoldMeetsRule | internal/aggregator/engine.go:30-97 | the fold of a list has the rollup's ends, extremes and totals: only traded candles set prices unless none traded |
| Rollup.RollupRuleUnique | internal/aggregator/engine.go:30-91 | that rule determines the rollup |
| Rollup.RolledSummary | internal/aggregator/engine.go:30-97 | a rolled candle carries the summary of its sources, so rolling up again loses nothing |
| Aggregator.FindPriceEnds | internal/aggregator/engine.go:37-49 | the first scan finds the first and the last candle that set a price, and whether any traded |
| Aggregator.Accumulate | internal/aggregator/engine.go:70-89 | the second scan finds attained extremes over the price-setting candles and totals over all |
| Aggregator.RollupBars | internal/aggregator/engine.go:30-91 | the two scans over the sorted copy give the rollup of the sorted list, and nothing only for an empty list |
| RollupChain.ChainEqualsFlat | internal/aggregator/engine.go:13-97 | rolling minutes up through the whole source chain equals one flat rollup, for every mix of traded and untraded candles |
| Storage.MemoryStore.UpsertBars | internal/storage/memory.go:80-94 | a batch overwrites its keys in order and leaves verified minutes alone |
| Storage.UpsertedKeeps | internal/storage/memory.go:80-94 | keys outside the batch and verified minutes are unchanged; nothing appears that is not in the batch |
| Storage.UpsertedLast | internal/storage/memory.go:80-94 | every key of the batch that is no verified minute holds the batch's last candle of that key |
| Storage.MemoryStore.BarsInRange | internal/storage/memory.go:121-144 | returns exactly the final rows of the range in order |
| Storage.RangeContents | internal/storage/memory.go:121-144 | what a range read contains: all final rows, once, strictly increasing |
| Storage.MemoryStore.DeleteBarsInRange | internal/storage/memory.go:146-160 | removes exactly the rows of the range and their verification |
| Storage.MemoryStore.LoadMinuteVerifications | internal/storage/minute_verification.go:28-39 | pairs each final minute of the range with its generation |
| Storage.MemoryStore.UpsertMinuteRevisions | internal/storage/minute_verification.go:41-63 | overwrites exactly the minutes not verified more recently; rejects bad generations and other candles |
| Storage.MemoryStore.MarkMinutesVerified | internal/storage/minute_verification.go:65-84 | succeeds if and only if all stored values match, raises generations only, and stops at the first mismatch |
| Storage.EachValueCounts | internal/market/minute_verification.go:10-32 | two minutes have the same official values exactly if each price and volume is within the tolerance and end, final flag and a reported trade count are equal; the last tick does not count |
| MarketService.Service.SourceBarsComplete | internal/app/market_service.go:597-609 | accepts exactly the lists of final sources that cover the bucket without a hole |
| MarketService.Service.RebuildRollupBucket | internal/app/market_service.go:563-595 | stores the rollup of the sources if they are complete, and changes nothing otherwise |
| MarketService.Service.RollupFinalBars | internal/app/market_service.go:517-561 | the queue with its processed set terminates and, in repair and in live mode and on any store, leaves exactly the level-by-level rebuild of the ready buckets reached; in repair mode that is the cascade |
| LiveCascade.LiveEqualsRepairExactly | internal/app/market_service.go:517-561 | for any batch of one timeframe on any store, live mode leaves the rows of repair mode if and only if, level by level, every ready bucket it passes over already holds its rollup |
| LiveCascade.InOrderIsCascade | internal/app/market_service.go:538-542 | waiting for the closing candle loses nothing while finals arrive in order |
| LiveCascade.LateFinalIsSkipped | internal/app/market_service.go:538-542 | a final that does not close a complete bucket but changes its rollup leaves the bucket with the old one |
| LiveCascade.LateFinalExample | internal/app/market_service.go:538-542 | a corrected day that arrives live after the two-day candle was built |
| MarketService.Service.PersistFinalBars | internal/app/market_service.go:490-515 | refuses batches with a disabled timeframe untouched; otherwise stores the batch and leaves what rolling it up leaves in the given mode |
| Cascade.CascadeRestores | internal/app/market_service.go:517-609 | if every complete bucket outside the changed rows' dependents was the rollup of its sources, every one is afterwards |
| MarketService.PersistKeepsConsistent | internal/app/market_service.go:490-609 | storing minutes and cascading keeps a consistent store consistent |
| SourceGrid.ReadyIffOnGrid | internal/app/market_service.go:333-346 | the queue and the batch repair find a bucket ready alike exactly when no final row lies between source boundaries |
| SourceGrid.OffGridRowParts | internal/app/market_service.go:333-346 | one stray row parts them |
| BatchRepair.BatchEqualsQueueExactly | internal/app/market_service.go:227-383 | on any store, batch repair and queue leave the same rows if and only if, level by level, whatever only one of them builds is already stored |
| BatchRepair.CleanSourcesAgree | internal/app/market_service.go:227-383 | they agree whenever the source rows of the series concerned sit on their grid and have positive prices, whatever else is stored |
| BatchRepair.StrayRowParts | internal/app/market_service.go:333-346 | a stray row in an otherwise complete bucket that is not stored yet parts the rows they leave |
| BatchRepair.EarlyFeedNothing | internal/app/market_service.go:436-446 | rolled candles that are not accepted because they start at or before 1970 would have led to no further bucket |
| RollupRepair.RepairRollupsLocked | internal/app/market_service.go:227-383 | the recursive batch repair terminates and leaves exactly the level-by-level batch repair on any store |
| RollupRepair.WalkSources | internal/app/market_service.go:335-346 | walking the boundaries finds exactly the complete source list |
| RollupRepair.CollectBuckets | internal/app/market_service.go:227-256 | collects exactly the dependents of the valid final candles, and refuses disabled timeframes |
| FlatRollup.StoredIsFlat | internal/app/market_service.go:517-609 | in a consistent store every configured candle whose minutes are stored is their flat rollup, whatever other series and timeframes that feed nothing hold |
| FlatRollup.LiveIsFlat | internal/app/market_service.go:631-676 | the recursive live rollup is the flat rollup of the earlier minutes and the live one |
| FrameSelection.DependenciesAdded | internal/app/market_service.go:845-855 | adding dependencies adds exactly the source chain of a timeframe |
| FrameSelection.NormalizeFrames | internal/app/market_service.go:820-855 | the configured frames are the enabled requested ones with 15m, 30m, 1H and 1D as far as they lie below a requested one, once each, in order |
| FrameSelection.ChainIsFeeding | internal/app/market_service.go:845-855 | the dependencies of a timeframe are exactly the feeding timeframes between it and the minutes |
| Integrity.CompleteSource | internal/monitoring/integrity.go:279-293 | the auditor's completeness test accepts the same lists as the service's |
| Integrity.AuditBucket | internal/monitoring/integrity.go:231-269 | reports each issue exactly when its condition holds |
| Integrity.AuditSeries | internal/monitoring/integrity.go:219-271 | audits exactly the latest completed buckets, newest first |
| Integrity.CleanIffConsistent | internal/monitoring/integrity.go:242-268 | nothing missing or mismatched is reported if and only if a complete bucket holds its rollup |
| Integrity.ConsistentIsClean | internal/monitoring/integrity.go:219-271 | on a consistent store the auditor reports nothing missing or mismatched, at any tolerance |
| CorporateAction.ApplyFactors | internal/corporateaction/worker.go:676-702 | each minute's prices are multiplied by the product of all positive factors after it, its volume and contract volume times that product are the raw ones, and everything else stays |
| CorporateAction.AdjustBars | internal/corporateaction/worker.go:627-674 | a candle no action falls into stands at the price level of the actions after it, volumes divided; a crossed one is the rollup of its minutes, each at its own level, with their quote volume and trades; fails exactly on a crossed bucket without minutes |
| CorporateAction.TurnoverKept | internal/corporateaction/worker.go:691-698 | price times volume of a candle is the same at every price level |
| CorporateAction.SplitExample | internal/corporateaction/worker.go:676-702 | a one-for-two split halves the price and doubles the volume of every minute before it, and of none from it on |
| CorporateAction.AdjustCommutesWithRollup | internal/corporateaction/worker.go:627-702 | adjusting a candle equals rolling up its adjusted minutes, for every list of actions and every timeframe above the minute |
| CorporateAction.MinuteAdjustmentExactly | cmd/backfill_klines/main.go:839-915 | for one minute both adjustments agree if and only if the factors of the actions inside it multiply to one |
| CorporateAction.WholeMinutesNeverCross | cmd/backfill_klines/main.go:839-915 | minute-aligned actions never fall inside a minute, so its start and end have the same multiplier |
| CorporateAction.SnapFactor | internal/corporateaction/worker.go:340-367 | the search returns the nearest common factor within tolerance, or none |
| CorporateAction.SnapReciprocal | internal/corporateaction/worker.go:340-367 | a recognized ratio at least halves or doubles, and the reciprocal ratio gives the reciprocal factor |
| CorporateAction.ExactRatioSnaps | internal/corporateaction/worker.go:340-367 | a ratio that is exactly a common factor or the reciprocal of one is read as that |
| CorporateAction.CumulativeIsAfter | cmd/backfill_klines/main.go:925-969 | the backward multiplier at a minute is the product of all detected later actions |
| CorporateAction.ForwardAdjustOneMinuteBars | cmd/backfill_klines/main.go:925-969 | the single backward pass leaves every minute at the price level of all detected later actions, volumes divided |
| CorporateAction.JumpRemoved | cmd/backfill_klines/main.go:925-969 | where the price jumps by exactly a common factor between adjacent minutes, the adjusted minutes continue without a jump |
| MinuteLedger.FinishedStays | internal/storage/minute_audit_memory.go:124-158 | terminal statuses are absorbing in every run |
| MinuteLedger.FinishStep | internal/storage/minute_audit_memory.go:124-158 | what an accepted finish leaves: a completed task goes unless it is daily, any other takes outcome, next attempt and replay flag and keeps the rest; other tasks go only if finished for more than a week, and only at the finish of a daily task or one that excludes or expires |
| MinuteLedger.OnlyDailyStaysCompleted | internal/storage/minute_audit_memory.go:139-142 | in no run is a completed task stored that is not daily |
| MinuteLedger.FinishedStaysAWeek | internal/storage/minute_audit_memory.go:147-154 | a stored finished task, such as a completed daily one, stays for a week |
| MinuteLedger.CompletedOpensAfresh | internal/storage/minute_audit_memory.go:13-35 | after a task that is not daily was completed, the next request of its identity opens a fresh task under a new number |
| MinuteLedger.FoldedIntoExcluded | internal/storage/minute_audit_memory.go:13-35 | a request that is not daily is folded into a finished task exactly if that is an excluded or expired one |
| MinuteLedger.RetainedIsFirst | internal/guardian/durable_minute_audit.go:312 | the first retained minute is the first whole one after the retention period began |
| MinuteLedger.FinishNeedsCurrentLease | internal/storage/minute_audit_memory.go:124-158 | a finish changes the ledger only for the holder of the latest unexpired lease |
| MinuteLedger.LeaseFate | internal/storage/minute_audit_memory.go:37-55 | a lease is still held, was given back by its holder, or lapsed before the next one |
| MinuteLedger.LeasesExclusive | internal/storage/minute_audit_memory.go:37-55 | two leases of a task overlap only if the first holder finished in between |
| MinuteLedger.RetryDelayGrows | internal/guardian/durable_minute_audit.go:208-220 | retry delays start at half a minute, double with every attempt and stop at a quarter of an hour |
| MinuteLedger.EveryTaskComesBack | internal/storage/minute_audit_memory.go:113-122 | a quarter of an hour after the last event every unfinished task can be leased |
| MinuteLedger.EnqueuedIsTracked | internal/storage/minute_audit_memory.go:13-35 | every accepted range is in an unfinished task or was closed by an accepted finish |
| MinuteLedger.RequestOpenOrClosedSince | internal/storage/minute_audit_memory.go:13-35 | until it is made again, a request of any kind is open, or was closed after it was made, if and only if no finished task of its identity was in the ledger when it was made |
| MinuteLedger.NoWorkLost | internal/guardian/durable_minute_audit.go:299-359 | every enqueued minute is in an unfinished task, was completed or excluded by a lease holder, or had left retention |
| MinuteWorker.MinuteAuditStore.EnqueueTask | internal/storage/minute_audit_memory.go:13-35 | registers a valid range once: a known identity changes nothing, a new one becomes a pending task with everything that was asked for |
| MinuteWorker.MinuteAuditStore.LeaseTask | internal/storage/minute_audit_memory.go:37-55 | grants exactly the due tasks; a granted one is running under the token with one attempt more and otherwise as before |
| MinuteWorker.MinuteAuditStore.FinishTask | internal/storage/minute_audit_memory.go:124-158 | accepts, ignores or refuses a finish exactly by the current lease; an accepted one leaves exactly the tasks that FinishStep says, any other none changed |
| MinuteWorker.MinuteAuditStore.SaveCursor | internal/storage/minute_audit_memory.go:173-196 | cursors only move forward |
| MinuteWorker.ExecuteMinuteTask | internal/guardian/durable_minute_audit.go:128-206 | loads the task, and after any steps of others leases it exactly if it is due then; reports completed if and only if the repair succeeded, otherwise retry or blocked with the growing delay, whatever other workers do between any two calls |
| MinuteWorker.RetryTask | internal/guardian/durable_minute_audit.go:299-359 | expires, excludes, blocks or executes exactly in the stated cases, with the outcome, next attempt and replay flag of each; queues the retained rest, to be replayed from the official listing on, before expiring; and keeps every run one in which no work is lost |
| Scheduling.PlanIsGood | internal/guardian/durable_minute_audit.go:72-112 | the ranges of a pass follow each other and the cursor without a hole and end at the window or the latest settled day |
| Scheduling.PlanIsShort | internal/guardian/durable_minute_audit.go:72-112 | no range of a pass is longer than a day but a first one before the retained minutes, older stretches end before the window begins, and every daily range inside retention is one whole day |
| Scheduling.CursorNeverBack | internal/storage/minute_audit_memory.go:173-196 | the cursor never moves back in any run of passes |
| Scheduling.FullPassReachesEnd | internal/guardian/minute_day_audit.go:35-92 | a pass that is not cut off moves the cursor to its end |
| Scheduling.EveryMinuteRegistered | internal/guardian/durable_minute_audit.go:67-126 | in every run of passes cut off anywhere, every minute from the first recorded range through the cursor is registered |
| Scheduling.CoveredExactly | internal/guardian/durable_minute_audit.go:67-126 | from the first registered minute on that holds if and only if no pass without a cursor starts beyond what was registered |
| Scheduling.OrphanExample | internal/guardian/minute_day_audit.go:54-84 | a run that leaves minutes out: the first daily pass is cut off before its cursor and the next comes two days later |
| SchedulingPasses.AuditMinuteWindow | internal/guardian/durable_minute_audit.go:67-119 | performs exactly a prefix of the planned calls, catching up and then the window, expecting data exactly where a listing time is known; stops early only when cut off or refused; a complete pass executes the task of the window |
| SchedulingPasses.ScheduleDays | internal/guardian/minute_day_audit.go:45-84 | performs exactly a prefix of the planned calls for the days of one target, expecting data exactly where a listing time is known |
| SchedulingPasses.MinuteDayAuditOnce | internal/guardian/minute_day_audit.go:35-92 | one daily pass over all targets: those before the first failure get their whole plan asked for and their cursor, those after it keep their cursor |
| SchedulingPasses.EveryMinuteAccounted | internal/guardian/durable_minute_audit.go:67-206 | scheduling and ledger together: in every run, every minute from the first recorded range through the cursor is in an unfinished task, was completed or excluded by a lease holder, or had left retention |
| VerifiedMinutes.GenerationNeverFalls | internal/storage/minute_verification.go:65-84 | while a minute is not deleted its generation never decreases |
| VerifiedMinutes.VerifiedRowChanges | internal/storage/minute_verification.go:41-63 | a verified row changes only by a revision at least as new as its verification |
| VerifiedMinutes.MinuteStep | internal/storage/memory.go:80-94 | ordinary writes never alter a verified minute; marks are set only on matching values |
| VerifiedMinutes.VerifiedIsBacked | internal/storage/minute_verification.go:41-84 | in every run a verified minute shows an official value at least as new as its mark |
| MinuteVerification.VerifySymbolMinutes | internal/app/minute_verification.go:123-180 | succeeds, for distinct minutes, exactly when no newer verification is known; then each minute keeps its matching row or takes the official one and has exactly the stated generation; other minutes are untouched and consistency is kept in every case |
| MinuteVerification.ReviseMinute | internal/app/minute_verification.go:149-170 | a permitted revision is stored and everything above it brought up to date |
| LateFinals.AcceptUnverifiedFinal | internal/app/minute_verification.go:43-76 | turns away exactly the finals of verified minutes; one that contradicts is registered as a conflict |
| LateFinals.RepairFinalBar | internal/app/market_service.go:177-210 | an ordinary repair refuses disabled timeframes, and otherwise either cascades its candle or changes nothing; it never alters a verified minute |
| LateFinals.ConflictIsOpen | internal/storage/minute_audit_memory.go:13-35 | in every run a conflict leaves no open work if and only if an excluded or expired task of the same minute is in the ledger; a completed one does not stand in the way |
| LateFinals.ConflictFoldedAway | internal/storage/minute_audit_memory.go:13-35 | a run in which a conflict is folded into an excluded task |
| SymbolLocks.LockOrder | internal/app/minute_verification.go:18-38 | the shards of a batch, each once, in increasing order |
| SymbolLocks.StepIsSound | internal/app/minute_verification.go:18-38 | no two batches ever hold the same shard |
| SymbolLocks.SomeoneCanStep | internal/app/minute_verification.go:18-38 | no deadlock: while a batch is unfinished some batch can go on |
| SymbolLocks.EveryStepCounts | internal/app/minute_verification.go:18-38 | every step brings the batches closer to the end, so all of them finish |
| TimeAudit.StartsOfRows | internal/timeaudit/audit.go:157-221 | the canonical starts are the positive aligned starts of the stream, each once, in order |
| TimeAudit.KindsAddUp | internal/timeaudit/audit.go:178-221 | every counted row is a duplicate, an invalid start, misaligned or canonical |
| TimeAudit.GapsAreExact | internal/timeaudit/audit.go:207-219 | between first and last canonical row the gaps are exactly the absent starts, and present and missing add up to the bucket count |
| GapAuditor.AuditRow | internal/timeaudit/audit.go:178-221 | one row updates all figures of its series truthfully |
| GapAuditor.Accumulator.Add | internal/timeaudit/audit.go:157-221 | refuses exactly the rows out of order and counts exactly those up to the latest completed bucket |
| GapAuditor.AuditIsExact | internal/timeaudit/audit.go:157-238 | what the finished figures of a series mean |
| GapAuditor.FinishSeries | internal/timeaudit/audit.go:249-277 | status, expected count and exact tail lag of a series |
| GapTargets.ExpandGap | internal/gapfill/plan.go:229-275 | succeeds exactly when the count leads from first to last within the cap, and adds exactly the gap's starts |
| GapTargets.PlanSeries | internal/gapfill/plan.go:229-281 | succeeds exactly for sound gaps that add up to the reported number within the cap |
| GapPlan.SourceSpan | internal/gapfill/plan.go:433-442 | the counting loop computes the span, capped one above the maximum |
| GapPlan.SourceIsOffered | internal/gapfill/plan.go:409-422 | a target is repaired from its own official candles exactly where the exchange offers them, and else from the days or months it is made of |
| GapPlan.RequestFitsHistory | internal/gapfill/plan.go:392-407 | the limit of every Binance source keeps a request within the 200 days that are answered |
| GapPlan.OneTargetFits | internal/gapfill/plan.go:392-422 | a single target never exceeds its source's limit, so the planner's span error cannot occur |
| GapPlan.ChunkTargets | internal/gapfill/plan.go:349-369 | the tasks take up the missing starts in order, each once, each within its limit and as long as possible |
| GapPipeline.AuditIsPlannable | internal/timeaudit/audit.go:207-238 | the gaps of an audit are valid for the planner and hold as many starts as reported |
| GapPipeline.ValidateTask | internal/gapfill/repair.go:197-233 | accepts exactly the valid tasks, symbols upper-case and trimmed, and returns their targets in order |
| GapPlan.NormalIsNormal | internal/gapfill/plan.go:177 | trimming and upper-casing a symbol twice changes nothing more, so the executor's test passes every planned symbol |
| GapPipeline.PlannedTaskIsValid | internal/gapfill/plan.go:349-369 | every planned task passes validation at any time after its targets ended |
| GapPipeline.PlanGaps | internal/gapfill/plan.go:229-275 | plans the internal gaps of one series: exactly the missing starts from the boundary on |
| SeriesPlan.PlanSeriesTasks | internal/gapfill/plan.go:159-370 | plans the leading, internal, tail or no-data targets of one audited series; fails exactly for an unknown exchange, an interval below 15 minutes, an empty symbol, gaps that contradict the report, an unfinished end or too many targets |
| SeriesPlan.EverythingIsPlanned | internal/gapfill/plan.go:229-323 | with leading and tail targets, each start without a candle from the first plannable one to the latest finished one is in exactly one of the three lists, and nothing else is |
| SeriesPlan.PlannedTasksAreValid | internal/gapfill/plan.go:349-369 | the leading and outer tasks pass the executor's validation as well |
| GapPipeline.AuditPlanExecute | internal/gapfill/plan.go:229-370 | auditor, planner and executor compose: the targets are exactly the absent starts from the boundary on and every task is accepted later |
| GapPipeline.BoundaryIsFirst | internal/gapfill/plan.go:374-390 | the listing boundary is the first bucket that reaches past the listing, or that begins after it for derived ones |
| GapRepair.CollectSources | internal/gapfill/repair.go:98-116 | keeps exactly the valid candles that are alone at their start |
| GapRepair.BuildRepair | internal/gapfill/repair.go:118-148 | finds the repair of a target if there is one: the official candle, or the rollup of sources that tile the bucket exactly |
| GapExecutor.GapStore.InsertMissingBars | internal/gapfill/repair.go:22-27 | adds rows and skips every key that is taken |
| GapExecutor.Repair | internal/gapfill/repair.go:52-195 | whatever other writers do between its reads and its insert: the insert changes no row that it meets and adds only repairs of requested targets; if nothing fails, every target without a row gets one or cannot be repaired; a verified report lists exactly the targets without a final row; and each outcome is reported exactly in its case |
| GuardianRepair.FilterOfficialBars | internal/guardian/repair.go:250-273 | one acceptable candle per start, in order, and whether any had to be rejected |
| GuardianRepair.ConfirmNoTradeDays | internal/guardian/daily_coverage.go:22-88 | confirms exactly the unanswered days with 24 official hours without activity and nothing stored against them, up to the end of the range or the seventh look-up; fails only on a failed look-up |
| GuardianRepair.JudgeResponse | internal/guardian/repair.go:131-178 | a response is faulty or leaves the range unchecked exactly in the stated cases |
| GuardianRun.RepairTimeframeRange | internal/guardian/repair.go:28-248 | success for minutes and days means every expected bucket is an accepted candle or a proven empty day and no stored candle lies outside; an answer that fulfils this succeeds; every success stores its range as repaired, clean, empty or not listed exactly by what was found and settles a pending retry within it; a failure leaves a pending retry, a failed replay one to be replayed; exactly the new, different or replayed candles are written |
| GuardianRepair.EmptyDayPasses | internal/guardian/daily_coverage.go:67-84 | the evidence of an empty day always passes the count, filter and hour-by-hour tests |
| GuardianRun.ListingAloneIsNotEnough | internal/guardian/repair.go:131-160 | for minutes with a listing time, every passing answer covers the expected minutes if and only if data is expected, the range is one minute, or the listing lies after it |
| GuardianRun.ToRepair | internal/guardian/repair.go:180-198 | the candles to write are exactly the new, different or replayed ones |
| GuardianRun.EachDifferenceCounts | internal/guardian/guardian.go:764-786 | a stored candle differs exactly if a price or volume is off by more than the tolerance, or its end, final flag or a reported trade count is |
| GuardianRun.PendingRetryStays | internal/guardian/repair.go:323-348 | a pending retry stays pending over at least its range until a result covering that range settles it |
| RollingFold.FoldMeaning | src/crypto_ticket/models.py:106-146 | first open, last close, attained extremes and totals |
| RollingFold.GapSettles | src/crypto_ticket/aggregation.py:231-257 | a gap continues the finals without holding anything |
| RollingFold.PricesAgreeExactly | src/crypto_ticket/models.py:106-146 | the streaming fold has the prices of the service's rollup if and only if the bucket opens and closes as its price-setting candles do and no other candle reaches beyond them |
| RollingFold.PricedExist | src/crypto_ticket/models.py:106-146 | every bucket has a first and a last price-setting candle, so that condition always has a meaning |
| RollingFold.TotalsAgree | src/crypto_ticket/models.py:106-146 | volumes and trade counts always agree |
| RollingFold.TicksAgreeExactly | src/crypto_ticket/models.py:106-146 | the last ticks agree if and only if each candle without a tick ends by a tick that another reported |
| RollingFold.MixedBucketsDiffer | src/crypto_ticket/models.py:137-146 | a mixed bucket on which the prices differ |
| RollingFold.MixedBucketsMayAgree | src/crypto_ticket/models.py:137-146 | a mixed bucket on which they agree |
| MinuteBarRollup.FillGapBars | src/crypto_ticket/aggregation.py:231-257 | fills exactly the empty buckets before the next one, at the previous close, without volume and with the previous end as last tick |
| MinuteBarRollup.MinuteBarRollupAggregator.ApplyBar | src/crypto_ticket/aggregation.py:200-229 | ignores exactly the late candles; otherwise accepts the candle, appends the finals that became due, closes the bucket exactly when the candle reaches its end, and shows it otherwise |
| MinuteBarRollup.MinuteBarRollupAggregator.On1mBar | src/crypto_ticket/aggregation.py:186-198 | takes one-minute candles only; every timeframe accepts the candle unless it is too late there; the finals are exactly those that have become due, timeframe after timeframe, and the current candles exactly those of the timeframes left open; every other state is left alone |
| MinuteBarRollup.StreamIsExact | src/crypto_ticket/aggregation.py:186-261 | for every stream: finals have consecutive starts, each non-gap final is the fold of its accepted candles, and emitted plus open totals equal the accepted totals |

## Left out

- HTTP, WebSocket and exchange adapters, MySQL, Redis, files, journals, monitoring, alerts, command lines and dashboards: foreign systems. Fetched candles, read and write failures are parameters.
- Floating-point rounding: arithmetic is over the reals, and infinities and NaN do not occur.
- The derived fields PrevClose, Chg and Amp, and Source, Reason, UpdatedAt, margin type and units: not part of any agreement proved here.
- Normalization of exchange names, and of symbols outside the gap planner: names are compared as given. The planner's trimming and upper-casing is modelled for ASCII. The hash of the sharded locks is a parameter.
- MarketService.Service.RollupFinalBars: stated for batches of candles of one timeframe, the only ones its callers pass.
- RollupRepair.RepairRollupsLocked: stated for batches of candles of one timeframe, the only ones its callers pass.
- Timeframe.FloorIsBoundary: speaks of the floor without the limit of a duration, as do all later modules; beyond 1677 and 2262 Timeframe.FloorsAgreeExactly says that week floors differ from it.
- FlatRollup.LiveIsFlat: the caching of the live minute and the publishing of live candles are not modelled.
- MinuteVerification.VerifySymbolMinutes: sorting a mixed batch into series is not modelled, the method takes the ordered minutes of one series; the exact outcome is stated for distinct starts.
- MinuteWorker.ExecuteMinuteTask: the mutex around a symbol and the time limits are not modelled; other workers may take any steps between any two calls.
- CorporateAction.AdjustBars: takes the candles already in order of start.
- SchedulingPasses.MinuteDayAuditOnce: how long a pass may take is a budget of calls, and what a failed target logs is not modelled.
- SeriesPlan.PlanSeriesTasks: the merging of several reports of one series, the skip reasons and the search for the lowest starting lower timeframe, which is a parameter, are not modelled.
- GapExecutor.Repair: other writers act while candles are fetched and before the result is verified, not inside the insert, which is one statement of the database.
- GuardianRun.RepairTimeframeRange: the effect of the repairer on the store is a success flag here; the repairers themselves are MinuteVerification.VerifySymbolMinutes, LateFinals.RepairFinalBar and RollupRepair.RepairRollupsLocked.
- MinuteBarRollup.MinuteBarRollupAggregator.ApplyBar: restored checkpoints and the tick-driven aggregator are not modelled; the multi-timeframe aggregator runs with one-minute candles only.
- The 3-day timeframe as a rollup target: it is disabled, only its calendar arithmetic is modelled.
- Corporate-action jobs, their confirmation requests and retries: scheduling of remote calls.
- CutoffMS and the day-based retention rules: a date subtraction without buckets.
