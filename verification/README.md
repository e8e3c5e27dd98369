# SignalOps: verified models of its protocols, scores and decisions

This project models the parts of SignalOps (a Go signal-processing platform) whose correctness spans
more than one function: the leased queue that reconciles missing equity prices, the statistical scoring
of the algorithm runner, the delivery and resumption protocols, the retention governor, and the decisions
whose counts must balance. It proves what these promise for every input, every run and every reachable state.

`dafny verify dfyconfig.toml` checks everything.

| file | what it models |
|---|---|
| `ReconciliationTasks.dfy`, `ReconciliationRules.dfy`, `Reconciler.dfy` | the equity reconciliation run: queue rows, ledger, provider, clock and store as nondeterministic environment |
| `Reals.dfy`, `Samples.dfy`, `ZScores.dfy`, `LinearFit.dfy`, `Medians.dfy` | z-scores, trend residuals, median and isolation scores over the reals |
| `Sequences.dfy`, `Replay.dfy`, `Outbox.dfy`, `Backfill.dfy` | replay worker, the two outbox relays, backfill planning, pull budgets and campaign resumption |
| `Materialization.dfy`, `Evaluation.dfy` | preflight-then-write of signals, backtest evaluation and promotion readiness |
| `Retention.dfy` | retention policies as set operations, with failing statements |
| `Allocation.dfy`, `RiskReward.dfy`, `MarketInput.dfy` | byte attribution in 64-bit arithmetic, best-candidate overview, point-in-time prices |

Conventions. Times are integers, dates are day numbers. A call to the store, the broker or the provider may
fail, and a failed write may or may not have been carried out. In the reconciliation queue, `faults` counts
the store calls of a run that failed or were cut off, and `lost` what was counted only in updates that never
reached the table, so that the books are equations. The persisted states of one reconciliation run are kept in
a ghost trace, so that a law about whole runs is a law about any two members of a chain.

Where the code does not do what its names or messages suggest, the model follows the code:

- `nextReconciliationWait` uses 0 for "unset" (cmd/massive-puller/reconcile.go:469), so its result is the
  earliest candidate if and only if no row is already due (`Reconciliation.WaitIsMinimum`). It is always
  positive and at most the poll.
- The universe of a reconciliation run is listed with the request budget as its limit
  (cmd/massive-puller/reconcile.go:84): a nil error says that the listed assets are normalized, and these
  are the whole universe if and only if it fits the budget (`Reconciliation.ListedIsWhole`).
- Enqueueing an existing row renews its attempt cap, which may leave it above the new cap
  (`Reconciliation.LoweredCapIsExceeded`). When a row is within its cap throughout the claim loop is decided by what can
  be seen before it (`Reconciliation.KeepsCap`, `Reconciliation.CapInEveryState`).
- The outbox of the signal relay is ordered by a time and an id that its writers choose
  (internal/storage/postgres/signal_assurance_outbox.go:12), so events arrive in the middle of it. The log is in outbox order
  if and only if no event arrives before one published by the end of the same flush, or already published between
  flushes (`Outbox.SignalRelay.Operate`). A late arrival can also make an event that was published but not marked appear
  twice with others in between (`Outbox.LostMarkIsRepeated`); exactly when none does is
  `Outbox.RepeatsStayImmediate`, over whole runs `Outbox.SignalRelay.Operate`.
- The CyberOps relay goes on after a publish error, so rows may reach the log out of order, and a row whose publication
  reported an error may have reached it all the same; exactly when the order is kept is `Outbox.OrderKept`, over whole
  runs `Outbox.ConnectRelay.Operate`. It would stop for good at an oldest row with undecodable headers, but the only
  writer of the outbox encodes them itself (internal/cyberops/connect/persister.go:46).
- A backfill child that covers only weekend days can never be completed (`BackfillPlan.RequiredIsAttainable`).
- Materialization looks at the newest 500 signals, and a materialized signal carries the time of its proposal; exactly
  when a duplicate can escape the listing is `Materialization.DuplicateCanBeWritten`, for a whole run
  `Materialization.EventCanBeMaterializedTwice`. Blank source ids never match
  (`Materialization.WrittenOnce`), and the proposals of one preflight do not see each other (`Materialization.BatchIsBlind`).
- Two different graph facts can have one join key when a name contains the separator
  (`Evaluation.KeyIsUnambiguous`).
- Promotion looks at precision only when there are false positives; for the evaluations the build makes that makes no
  difference (`Evaluation.ReadyIffThresholdsMet`).
- The shares of a shared table are fair if and only if every product of size and count but the last fits in 64 bits
  (`Allocation.SharedAllocations`).
- A dry run of the financial retention policy counts fewer rows than an enforced run deletes, by exactly the
  statements that lose their last snapshot (`Retention.FinancialDryRunMissesFreed`). The record of a run counts
  the deletions of its targets up to the one that failed, and is exact if and only if the statement that failed was not
  carried out (`Retention.Governor.RunPolicy`); when a target could not be measured it counts none, though earlier ones
  were deleted (`Retention.RecordIsExact`).
- The sort behind the latest price is not stable, so the price is determined if and only if the closes of the
  latest session agree (`MarketInput.PriceIsDetermined`).

## Model

| member | source | states |
|---|---|---|
| ReconciliationTasks.ClaimShrinksWindow | internal/storage/postgres/equity_reconciliation.go:105-139 | a claim (expired leases put back, one due row leased) leaves work, attempts and replays as they were and strictly shortens the time in which rows can still be claimed |
| ReconciliationTasks.RecoverSums | internal/storage/postgres/equity_reconciliation.go:107-118 | putting back expired leases creates neither work nor attempts nor replays nor time |
| ReconciliationTasks.AheadLeavesLessWork | cmd/massive-puller/reconcile.go:214-296 | a row that was closed, or got one more attempt or its replay, has strictly less work left |
| ReconciliationTasks.RowWriteEvolves | internal/storage/postgres/equity_reconciliation.go:141-161 | writing one row in an allowed way is an allowed step of the whole table and its counters |
| ReconciliationTasks.RecoverEvolves | internal/storage/postgres/equity_reconciliation.go:105-118 | recovering leases is an allowed step of the whole table |
| ReconciliationTasks.ChainEvolves | cmd/massive-puller/reconcile.go:151-187 | any two persisted states of a run are related as neighbours are |
| ReconciliationTasks.RunSafety | cmd/massive-puller/reconcile.go:151-296 | over every pair of persisted states of a run: terminal rows never change, a row becomes succeeded only after the ledger reported its symbol, attempts and replays are within their caps later exactly when they were before, and persisted attempts never outrun the provider requests, which never exceed the budget |
| Reconciliation.Normalize | cmd/massive-puller/reconcile.go:414-440 | the settings a run works with are all positive, and every setting that was positive is kept |
| Reconciliation.FoldedAfterLastZero | cmd/massive-puller/reconcile.go:458-484 | the running wait is the minimum of the candidates after the last 0 |
| Reconciliation.WaitIsPositive | cmd/massive-puller/reconcile.go:485-492 | with an active row the sleep is positive and at most the poll |
| Reconciliation.WaitIsMinimum | cmd/massive-puller/reconcile.go:458-492 | the sleep ends with the earliest candidate if and only if no candidate is 0 |
| Reconciliation.NextReconciliationWait | cmd/massive-puller/reconcile.go:458-493 | active exactly when some row is not terminal; the wait follows the fold; positive and at most the poll when active |
| Reconciliation.ProcessedClaim | cmd/massive-puller/reconcile.go:156-186 | a claimed and handled row moves the table strictly down in (work, time left to claim) and accounts for the claim |
| Reconciliation.ListedIsWhole | cmd/massive-puller/reconcile.go:84-91 | a run looks at its whole universe if and only if the universe fits the request budget (and the store's listing limit) |
| Reconciliation.EnqueueStarts | internal/storage/postgres/equity_reconciliation.go:48-81 | enqueueing one more missing symbol extends what discovery does to the table to that symbol |
| Reconciliation.RequeueStarts | internal/storage/postgres/equity_reconciliation.go:163-179 | requeueing after discovery gives the table the claim loop begins with |
| Reconciliation.CapInEveryState | cmd/massive-puller/reconcile.go:113-187 | in every persisted state of the claim loop a row is within its cap if and only if it was failed and requeued, or within the new cap when its symbol was found missing, or within its own cap otherwise; added rows always are |
| Reconciliation.LoweredCapIsExceeded | internal/storage/postgres/equity_reconciliation.go:69-72 | a row of a missing symbol that used more attempts than the new cap is above its cap in every state of the loop |
| Reconciliation.LoopSucceeds | cmd/massive-puller/reconcile.go:151-187 | over a claim loop succeeded rows stay, and a row is newly succeeded only if its symbol is normalized |
| Reconciliation.StaysKnown | cmd/massive-puller/reconcile.go:60-212 | if every succeeded row had its symbol in the ledger before, it has afterwards |
| ReconciliationRun.Reconciler.SucceedTask | cmd/massive-puller/reconcile.go:391-399 | closes the row as succeeded, only for a symbol that was reported; the row moves on unless the store failed |
| ReconciliationRun.Reconciler.FailTask | cmd/massive-puller/reconcile.go:401-412 | closes the row as failed with the message |
| ReconciliationRun.Reconciler.RescheduleOrFail | cmd/massive-puller/reconcile.go:373-389 | a provider failure below the cap requeues the row after the backoff of its attempt; any other failure closes it |
| ReconciliationRun.Reconciler.PollNormalized | cmd/massive-puller/reconcile.go:311-325 | the poll ends, and says "found" only for a symbol the ledger reported |
| ReconciliationRun.Reconciler.AwaitNormalization | cmd/massive-puller/reconcile.go:298-326 | after the wait the row is succeeded and reported, or back in the queue with the attempt or replay counted, or the store failed |
| ReconciliationRun.Reconciler.ReplayTask | cmd/massive-puller/reconcile.go:230-246 | a stored raw event is replayed only for a row never replayed before, else the row fails; a replay reported as failed closes the row but may have reached the broker, and is then counted apart |
| ReconciliationRun.Reconciler.PullTask | cmd/massive-puller/reconcile.go:250-296 | the provider is asked if and only if the global budget and the row's cap allow it, for the claimed symbol and once; request, attempt and published counts match what happened |
| ReconciliationRun.Reconciler.PullOnce | cmd/massive-puller/reconcile.go:259-296 | one provider call: success is awaited, failure requeues or fails the row by its attempts |
| ReconciliationRun.Reconciler.LookUp | cmd/massive-puller/reconcile.go:224-249 | what the ledgers hold decides the case: normalized first, then a stored raw event with its id, and nothing stored only if neither ledger held the symbol |
| ReconciliationRun.Reconciler.ProcessTask | cmd/massive-puller/reconcile.go:214-296 | the whole decision for a claimed row: a normalized symbol is closed, a replay needs a stored raw event and no normalized one, the provider is asked only for a symbol neither ledger held; what was asked and acknowledged is in the row or was lost with an update that never reached it |
| ReconciliationRun.Reconciler.ClaimNext | internal/storage/postgres/equity_reconciliation.go:105-139 | the claimed row was due and of least rank among the due rows, after recovery; nothing is claimed only if nothing is due; a failed call may have recovered leases, or also leased that row |
| ReconciliationRun.Reconciler.HandleActive | cmd/massive-puller/reconcile.go:184-186 | the outcome of processing, with a failure noted and none otherwise |
| ReconciliationRun.Reconciler.HandleClaim | cmd/massive-puller/reconcile.go:178-186 | an inactive symbol fails without any publication or note; otherwise a failure is noted, at most 25 in all; attempts and replays of the row match what was asked and sent |
| ReconciliationRun.Reconciler.Idle | cmd/massive-puller/reconcile.go:164-176 | with nothing due the run ends only when every row is terminal or the deadline has come; otherwise time passes |
| ReconciliationRun.Reconciler.Step | cmd/massive-puller/reconcile.go:151-187 | a turn that continues lowers (work, time left to claim, time left) lexicographically whatever store and provider do, and keeps the books; it breaks off only after a failed store call |
| ReconciliationRun.Reconciler.ClaimLoop | cmd/massive-puller/reconcile.go:144-187 | the loop terminates; claims plus remaining work are at most the initial work plus faults; requests and acknowledged replays equal what the table gained plus what was lost with updates that never reached it, at most one each; requests equal the provider calls, and acknowledged plus unacknowledged replays the log; counted publications never outnumber requests; the provider was asked only for symbols neither ledger held when the loop began; drained means all rows terminal, broken means a failed store call |
| ReconciliationRun.Reconciler.Sweep | cmd/massive-puller/reconcile.go:196-204 | the final count is at least what the ledger held before the sweep and at most what it reported |
| ReconciliationRun.Reconciler.CountStatuses | cmd/massive-puller/reconcile.go:193-195 | the status counts are the numbers of rows per status |
| ReconciliationRun.Reconciler.Enqueue | internal/storage/postgres/equity_reconciliation.go:48-81 | a new symbol gets a fresh queued row as given, an existing row only its rank and cap; nothing else changes |
| ReconciliationRun.Reconciler.EnqueueMissing | cmd/massive-puller/reconcile.go:107-131 | a new row may be tried at once if and only if the raw event is already there, otherwise after the first backoff |
| ReconciliationRun.Reconciler.Discover | cmd/massive-puller/reconcile.go:93-132 | complete and missing assets partition the universe, the missing ones not normalized when the run began; in a write run exactly the rows of missing symbols are renewed or added; a dry run leaves the table alone |
| ReconciliationRun.Reconciler.RequeueFailed | internal/storage/postgres/equity_reconciliation.go:163-179 | exactly the failed rows are queued afresh, and their number is reported |
| ReconciliationRun.Reconciler.Prepare | cmd/massive-puller/reconcile.go:67-142 | writes need acknowledgement; a dry run and a refused run leave the table alone; the claim loop is entered exactly by a write run without error, with the table that discovery and requeueing give |
| ReconciliationRun.Reconciler.Conclude | cmd/massive-puller/reconcile.go:189-212 | the verdict: no error only if the deadline was not reached and every listed asset is normalized |
| ReconciliationRun.Reconciler.Run | cmd/massive-puller/reconcile.go:60-212 | a whole run from any keyed table: the table the loop begins with in terms of the one given, the cap of every row in every state, books that balance exactly, provider and replays only as the ledgers allow, FinalComplete at least InitiallyComplete and at least the listed assets with a succeeded row, a store failure only after a store call failed or was cut off, and no error from a write run only if every listed asset is normalized |
| ReconciliationRun.Reconciler.Operate | cmd/massive-puller/reconcile.go:60-212 | over any number of runs a succeeded row stays succeeded, and only rows of normalized symbols become so |
| ZScores.SampleStats | internal/algorithms/runner.go:567-582 | mean and population variance (the square of the returned deviation) |
| ZScores.DeviationBound | internal/algorithms/runner.go:403-414 | a squared distance from the mean is at most n - 1 times the variance |
| ZScores.ZScoresAreStandard | internal/algorithms/runner.go:403-414 | the z-scores of samples with spread sum to 0 and their squares to n |
| ZScores.ScoreReaches | internal/algorithms/runner.go:406-410 | a score of c or more is a distance of c standard deviations or more |
| ZScores.ReachableSeverity | internal/algorithms/runner.go:403-414 | a distance of c standard deviations is possible among n samples if and only if c * c <= n - 1 |
| ZScores.SeverityNeedsSamples | internal/algorithms/runner.go:841-857 | a severity proves a minimal number of samples, by its multiple of the threshold |
| ZScores.ScoreZ | internal/algorithms/runner.go:403-414 | the scores of samples with spread sum to 0 and their squares to n, and no severity is given that so few samples cannot earn |
| LinearFits.LinearFit | internal/algorithms/runner.go:600-620 | for two samples or more the residuals cancel out and are orthogonal to the index; the small cases |
| LinearFits.DenominatorPositive | internal/algorithms/runner.go:610-614 | 12 times the denominator is n^2 (n^2 - 1): 0 only for at most one sample, positive beyond |
| LinearFits.SolvesNormalEquations | internal/algorithms/runner.go:614-619 | slope and intercept as computed solve the normal equations |
| LinearFits.ErrorDecomposition | internal/algorithms/runner.go:600-620 | the squared error of any line in terms of any other |
| LinearFits.FitIsUniqueMinimum | internal/algorithms/runner.go:600-620 | the fit is the unique minimiser of the squared error over all lines |
| LinearFits.FitIsUnique | internal/algorithms/runner.go:600-620 | only one line has residuals that cancel out and are orthogonal to the index |
| LinearFits.ResidualVarianceIsLeast | internal/algorithms/runner.go:449-468 | no line leaves a smaller residual variance |
| LinearFits.ForecastResiduals | internal/algorithms/runner.go:449-461 | residuals of the fit and their variance, least over all lines |
| Medians.SampleMedian | internal/algorithms/runner.go:584-598 | the middle of the sorted samples |
| Medians.MedianIgnoresOrder | internal/algorithms/runner.go:584-598 | the median depends on the multiset of samples only |
| Medians.MedianMinimises | internal/algorithms/runner.go:584-598 | the median minimises the sum of absolute deviations |
| Medians.MedianSplits | internal/algorithms/runner.go:584-598 | at least half of the samples lie on either side of the median |
| Medians.ScoreIsolation | internal/algorithms/runner.go:487-503 | each score is the distance from the median in units of the median absolute deviation |
| Medians.HalfScoreAtMostOne | internal/algorithms/runner.go:487-503 | with a positive deviation at least half of the samples score at most 1 and at least half at least 1 |
| Replay.PublishWithRetry | cmd/replay-worker/main.go:323-343 | between one and the configured number of attempts; failure needs all of them or an ended context; the topic gets at most one copy an attempt and at least one on success |
| Replay.LoadWorkerConfig | cmd/replay-worker/main.go:349-356 | all settings are positive and a batch holds at most 200 records |
| Replay.PublishPage | cmd/replay-worker/main.go:221-245 | a page is published in order up to its first failure, and the counters say so |
| Replay.ExecuteReplayJob | cmd/replay-worker/main.go:178-254 | on success exactly the first min(maximum, available) records are acknowledged, once each and in order, with counters and the first 100 results to match; on error a prefix followed by the failure of the next record; on cancel whole batches; the topic holds the acknowledged records in order, each as often in a row as attempts reached it, and perhaps the failed one |
| Replay.TopicIsLog | cmd/replay-worker/main.go:323-343 | with records that all differ, the topic of a job without immediate repetitions is the log of acknowledged records, or that and the record which failed |
| Outbox.LateArrival | internal/storage/postgres/signal_assurance_outbox.go:12-12 | an arrival keeps a published prefix a prefix if and only if it does not come before its end, and never makes a prefix of what is none |
| Outbox.LateArrivals | internal/storage/postgres/signal_assurance_outbox.go:12-12 | the same for any number of arrivals |
| Outbox.RepeatsStayImmediate | cmd/marketops-signal-assurance-outbox/main.go:66-84 | publishing a listing keeps every event logged once, up to immediate repetition, if and only if nothing in it was logged before except its first event as the last one logged |
| Outbox.OrderedIsOnce | cmd/marketops-signal-assurance-outbox/main.go:66-84 | a log in outbox order holds each event once, up to immediate repetition |
| Outbox.LostMarkIsRepeated | cmd/marketops-signal-assurance-outbox/main.go:66-84 | an event whose mark was lost is logged again after one that arrived before it, and the log becomes b, a, b |
| Outbox.PendingInOrder | internal/storage/postgres/signal_assurance_outbox.go:12-12 | a listing holds undelivered rows in outbox order and skips none |
| Outbox.PendingRows | internal/storage/postgres/signal_assurance_outbox.go:12-12 | a listing repeats nothing and holds nothing delivered |
| Outbox.FlushKeepsOrder | cmd/marketops-signal-assurance-outbox/main.go:66-84 | publishing events while others arrive leaves the log in outbox order if and only if it was and no arrival came before an event published by then |
| Outbox.FlushEnds | cmd/marketops-signal-assurance-outbox/main.go:66-84 | wherever a flush stops and whatever arrived: marked implies published, and an ordered log has its marks as a prefix, at most one behind |
| Outbox.SignalRun | cmd/marketops-signal-assurance-outbox/main.go:32-84 | the order, repetition and republication laws over every history of periods the signal relay can have |
| Outbox.SignalRelay.constructor | cmd/marketops-signal-assurance-outbox/main.go:32-65 | an empty outbox satisfies the relay's invariant |
| Outbox.SignalRelay.Arrive | internal/storage/postgres/signal_assurance.go:73-73 | an event arriving at any place between flushes keeps the order if and only if it does not come before a published one |
| Outbox.SignalRelay.Publish | cmd/marketops-signal-assurance-outbox/main.go:72-77 | an acknowledged event is in the log; one not acknowledged may be |
| Outbox.SignalRelay.MarkPublished | internal/storage/postgres/signal_assurance_outbox.go:27-36 | a confirmed mark is stored; one not confirmed may be |
| Outbox.SignalRelay.FlushEvents | cmd/marketops-signal-assurance-outbox/main.go:71-82 | the listed events are published and marked from the first on, marks at most one behind, while others arrive |
| Outbox.SignalRelay.Flush | cmd/marketops-signal-assurance-outbox/main.go:66-84 | whatever arrives: the log grows by a first part of the listing, once each, and a finished flush marked all of it; the log is in outbox order afterwards if and only if it was and no arrival came before an event published by the end, which for a finished flush is the end of the listing; each event is logged once, up to immediate repetition, if and only if that was so and nothing published had been logged but the first event as the last one |
| Outbox.SignalRelay.Operate | cmd/marketops-signal-assurance-outbox/main.go:32-84 | over any run with arrivals at any place during and between flushes, outbox, log and marks are those of a history of listings, publications, marks and arrivals; no marked event is published again, whenever it was marked; the log without repetitions is a prefix of the outbox if and only if no event arrived before one published by the end of the same period, so always when none arrived; each event is logged once, up to immediate repetition, if and only if no period published one that had been logged before another, and at least when the log is in order |
| Outbox.OrderKept | cmd/cyberops-connect-outbox/main.go:61-74 | rows reach the log for the first time in their order if and only if they did so far and no row reaches it after an earlier listed one did not, unless that one had before |
| Outbox.ConnectRun | cmd/cyberops-connect-outbox/main.go:28-76 | the order and republication laws over every history of periods the CyberOps relay can have |
| Outbox.ConnectRelay.constructor | cmd/cyberops-connect-outbox/main.go:28-55 | nothing is marked or logged at first |
| Outbox.ConnectRelay.Try | cmd/cyberops-connect-outbox/main.go:65-74 | a row is marked only when its publication was acknowledged; one that reports an error may have reached the log; attempts are counted for this row alone |
| Outbox.ConnectRelay.Persist | internal/cyberops/connect/persister.go:46-52 | rows arrive at any place, with headers that can be decoded |
| Outbox.ConnectRelay.TryAll | cmd/cyberops-connect-outbox/main.go:61-75 | rows are tried in turn; what was acknowledged reached the log; with encoded headers only a failed mark or the end of the process stops a flush early |
| Outbox.ConnectRelay.Flush | cmd/cyberops-connect-outbox/main.go:56-76 | the tried rows that reached the log did so in list order, and those acknowledged are marked; the order of first publication is that of the outbox if and only if it was, every row reached the log in its turn, and no arrival came before a published row |
| Outbox.ConnectRelay.Operate | cmd/cyberops-connect-outbox/main.go:28-76 | the same for the CyberOps relay: rows, log and marks are those of a history; no marked row is published again; rows reach the log for the first time in outbox order if and only if every one took its turn and none arrived before one published by the end of the same period |
| Calendar.WeekdayCount | cmd/marketops-algorithm-evaluation-backfill/main.go:275-283 | the number of weekdays of the half-open range |
| Calendar.ParseObservationDates | cmd/massive-puller/main.go:278-319 | the single date, yesterday if it is blank, or exactly the weekdays of the range in order; otherwise which of the six errors |
| Calendar.ThreeDaysHaveAWeekday | cmd/marketops-algorithm-evaluation-backfill/main.go:275-283 | three consecutive days include a weekday |
| PullBudget.RemainingBudget | cmd/massive-puller/main.go:357-366 | a set limit never turns into 0, which means unlimited |
| PullBudget.PullDays | cmd/massive-puller/main.go:225-269 | if every pull honours its budget, the totals honour every limit; each day gets a real budget; the loop stops early only on a failed day or a used-up limit |
| BackfillPlan.PlanChunk | cmd/marketops-algorithm-evaluation-backfill/main.go:208-215 | the children of one chunk extend the tiling by that chunk |
| BackfillPlan.PlanChildren | cmd/marketops-algorithm-evaluation-backfill/main.go:200-217 | every symbol position on every day of the window lies in exactly one child, nothing outside in any, and child ids are distinct |
| BackfillPlan.ChildDays | cmd/marketops-algorithm-evaluation-backfill/main.go:218-231 | a planned child is pulled on exactly its weekdays, within the puller's limit; only a child without weekdays is refused |
| BackfillPlan.RequiredIsAttainable | cmd/marketops-algorithm-evaluation-backfill/main.go:233-252 | the required coverage is at most the expected one if and only if the child has a weekday |
| BackfillCampaign.EncodeCoverage | cmd/marketops-algorithm-evaluation-backfill/main.go:301-308 | the stored list holds each completed id once, in the order of the id texts |
| BackfillCampaign.AscendingIsCanonical | cmd/marketops-algorithm-evaluation-backfill/main.go:301-308 | the stored list is determined by the set of completed ids, whatever order that is traversed in |
| BackfillCampaign.DecodeCoverage | cmd/marketops-algorithm-evaluation-backfill/main.go:285-299 | gives back the set of ids a list was made from, and none for coverage that cannot be decoded |
| BackfillCampaign.Campaign.constructor | cmd/marketops-algorithm-evaluation-backfill/main.go:49-85 | a campaign begins without a record |
| BackfillCampaign.Campaign.CompleteChild | cmd/marketops-algorithm-evaluation-backfill/main.go:115-140 | a child counts as completed only after its coverage was confirmed, and earlier completions stay |
| BackfillCampaign.Campaign.ExecuteChildren | cmd/marketops-algorithm-evaluation-backfill/main.go:111-141 | only children not completed yet are pulled; at the end all planned ones are completed |
| BackfillCampaign.Campaign.Run | cmd/marketops-algorithm-evaluation-backfill/main.go:49-151 | one invocation, possibly cut short: completion never shrinks, completed children are not pulled again and none twice, success means every planned id is complete |
| BackfillCampaign.Campaign.Operate | cmd/marketops-algorithm-evaluation-backfill/main.go:49-151 | over any number of invocations with any plans, pulls and completions are those of a history of runs: completion never shrinks, no run pulls a child completed before it, by whichever run, and none pulls a child twice |
| BackfillCampaign.CompletedStaysUnpulled | cmd/marketops-algorithm-evaluation-backfill/main.go:111-141 | over such a history a child completed at some point is not pulled from then on and stays completed |
| TextKeys.UniqueStringsAreKeys | internal/api/algorithms.go:495-510 | the unique strings are the trimmed nonblank values, each once |
| TextKeys.UniqueStringsGrow | internal/api/algorithms.go:495-510 | the unique strings come in order of first occurrence |
| Materialization.DuplicateSignalIds | internal/api/algorithms.go:475-493 | the search returns the ids of the overlapping signals |
| Materialization.OverlappingIds | internal/api/algorithms.go:475-493 | an id is listed if and only if a signal with it overlaps the proposal |
| Materialization.WouldWriteIff | internal/api/algorithms.go:377-460 | a proposal would be written if and only if it is writable in itself and no signal with a nonblank id overlaps it |
| Materialization.ReasonTallyCounts | internal/api/algorithms.go:434-440 | the tally of a reason is how often it was given |
| Materialization.PreflightResponse | internal/api/algorithms.go:377-460 | item i is the assessment of proposal i against the given ledger; every proposal is counted in exactly one status; would-write equals eligible |
| Materialization.DuplicateIsHidden | internal/api/router.go:2087-2144 | a write shares a source event with a ledger signal of its tenant and type if and only if that signal was left out of the listing |
| Materialization.NoEventMaterializedTwice | internal/api/router.go:2087-2144 | over any run of preflight and write, whatever signals others add between the requests, no materialized signal shares a source event with an earlier signal of its tenant and type if and only if no write had a duplicate hidden from it |
| Materialization.SmallTenantsAreClean | internal/api/router.go:2087-2144 | as long as the listing holds all signals of the tenants that ask, nothing is hidden |
| Materialization.RunKeepsKeys | internal/api/router.go:2065-2144 | signal ids stay unique over a run as long as other writers keep them so |
| Materialization.WrittenOnce | internal/api/router.go:2092-2144 | a written proposal is not written again by any request whose listing holds its signal, whatever else the listing holds, if and only if it has a nonblank source event |
| Materialization.DuplicateCanBeWritten | internal/api/router.go:2087-2092 | a duplicate can be written if and only if the proposal is writable, there is a duplicate, and at least as many other signals of the tenant as the listing holds are no older than every duplicate |
| Materialization.EventCanBeMaterializedTwice | internal/api/router.go:2087-2144 | whatever signals others add between the requests: some listings make a run materialize a source event twice if and only if, had every preflight seen the whole ledger, one of them would meet the condition under which a duplicate can be written |
| Materialization.BatchIsBlind | internal/api/algorithms.go:392-457 | two writable proposals of one response do not see each other |
| Evaluation.KeyTellsFacts | internal/api/marketops_backtest_evaluation_labels.go:104-110 | keys are equal exactly for equal facts when source node and relationship contain no separator |
| Evaluation.KeyIsUnambiguous | internal/api/marketops_backtest_evaluation_labels.go:104-110 | the key of a relationship belongs to that fact alone if and only if every separator inside one of its names has a space beside it |
| Evaluation.CountScores | internal/api/marketops_backtest_evaluations.go:69-117 | indexing by key and by proposal id gives each proposal its one outcome, with later labels winning |
| Evaluation.TallyBalances | internal/api/marketops_backtest_evaluations.go:84-117 | candidates are labeled plus unscored; outcomes add up to positive plus negative |
| Evaluation.TallyCounts | internal/api/marketops_backtest_evaluations.go:84-117 | every counter is the number of proposals with that outcome |
| Evaluation.RatiosInUnit | internal/api/marketops_backtest_evaluations.go:149-154 | all ratios lie between 0 and 1 |
| Evaluation.BuildEvaluation | internal/api/marketops_backtest_evaluations.go:69-134 | counts and scores of an evaluation |
| Evaluation.ImprovementIff | internal/api/marketops_backtest_evaluations.go:136-147 | an evaluation is an improvement if and only if it has no false positives, nothing left to manual review and a recall of 0.8; with enough coverage it is then ready for review |
| Evaluation.ReadyIffThresholdsMet | internal/api/marketops_backtest_promotion_candidates.go:102-135 | a built evaluation is ready for review if and only if the comparison is sound and precision, recall and coverage meet their thresholds |
| Allocation.Wrap | cmd/storage-monitor/main.go:171-171 | the value of a 64-bit result: in range, unchanged when it fits, congruent modulo 2^64 always |
| Allocation.ShareIsFairIffItFits | cmd/storage-monitor/main.go:168-177 | a share is within a byte of the exact one if and only if the product fits |
| Allocation.SharedAllocations | cmd/storage-monitor/main.go:134-179 | in 64-bit arithmetic the shares sum to the table size modulo 2^64; every share but the last is within a byte of its exact value if and only if all products fit, and then the sum is exact, none is negative and the last is within as many bytes as there are groups |
| RiskReward.KeepBest | internal/api/marketops_risk_reward_history.go:78-87 | one best candidate per day and ticker, for every pair that has any |
| RiskReward.BetterIsTransitive | internal/api/marketops_risk_reward_history.go:120-128 | the comparison is a strict weak order |
| RiskReward.KeptRankIgnoresOrder | internal/api/marketops_risk_reward_history.go:78-87 | the rank of what is kept does not depend on the order of the candidates |
| DaySets.SortedDates | internal/api/marketops_risk_reward_history.go:88-96 | the days in ascending order, each once |
| RiskReward.PointOf | internal/api/marketops_risk_reward_history.go:98-115 | the categories hold exactly the eligible tickers of each direction; counts add up |
| RiskReward.OverviewPoints | internal/api/marketops_risk_reward_history.go:78-118 | one point for each of the latest days, ascending, and no day left out in favour of an earlier one |
| RiskReward.CoverageIsComplete | internal/api/marketops_risk_reward_history.go:98-115 | eligible, insufficient and unprocessed add up to the active assets, and no ticker is in two categories |
| MarketInput.SortBySession | cmd/marketops-signal-assurance-worker/main.go:192-194 | the same closes, as often each, in session order |
| MarketInput.Latest | cmd/marketops-signal-assurance-worker/main.go:192-203 | the last close of a session not after the given time, in some order the sort may give |
| MarketInput.AnswersAreLatest | cmd/marketops-signal-assurance-worker/main.go:192-203 | whatever the sort does inside a session, the answers it can give are exactly the closes of the latest visible session |
| MarketInput.MarketInput | cmd/marketops-signal-assurance-worker/main.go:170-213 | both prices are closes of the latest visible session; the session count is the number of visible sessions since confirmation |
| MarketInput.NoLookAhead | cmd/marketops-signal-assurance-worker/main.go:170-213 | ledgers that agree on what was known give the same session count and, with one close in the latest session, the same price |
| MarketInput.PriceIsDetermined | cmd/marketops-signal-assurance-worker/main.go:192-203 | all orders the sort may give yield the same price if and only if the closes of the latest session agree |
| Retention.DeletedIsSelected | cmd/retention-governor/main.go:122-143 | a deleted row is the tenant's, in a table of the policy, and too old |
| Retention.NoDanglingStatement | cmd/retention-governor/main.go:130-132 | however far a financial run gets, no surviving snapshot references a statement it deleted |
| Retention.FinancialDryRunMissesFreed | cmd/retention-governor/main.go:86-119 | an enforced financial run deletes what a dry run counts plus exactly the statements freed by the deleted snapshots |
| Retention.DryRunIsExactElsewhere | cmd/retention-governor/main.go:86-119 | for every other policy both numbers are equal |
| Retention.NothingIsLeft | cmd/retention-governor/main.go:122-143 | after an enforced run no target of the policy selects anything |
| Retention.CatchUp | cmd/retention-governor/main.go:84-119 | a run with a later cutoff ends in the same database whether or not the policy was run before |
| Retention.AffectedIsLoss | cmd/retention-governor/main.go:107-114 | the deletions counted are the rows lost |
| Retention.RecordIsExact | cmd/retention-governor/main.go:86-90 | the deletions in the record of an enforced run are all there were if and only if each target it applied without counting it found nothing, and never more |
| Retention.PolicyLeavesNothingDangling | cmd/retention-governor/main.go:122-143 | no policy, however far it gets, leaves a snapshot with a deleted statement |
| Retention.EvidenceIsPreserved | cmd/retention-governor/main.go:122-143 | only a target that keeps receipts can delete cited CyberOps events |
| Retention.Governor.constructor | cmd/retention-governor/main.go:33-57 | the stores as they are found |
| Retention.Governor.Delete | cmd/retention-governor/main.go:107-114 | deletes the rows the target selects, or fails with or without effect |
| Retention.Governor.PreserveReceipts | cmd/retention-governor/main.go:161-168 | receipts are only added, each for cited evidence; on success all old evidence has one |
| Retention.Governor.ApplyTarget | cmd/retention-governor/main.go:86-117 | one target: nothing changes in a dry run; no evidence goes without a receipt |
| Retention.Governor.Apply | cmd/retention-governor/main.go:86-119 | the targets in turn, up to the first failing statement; the deletions counted are those of all targets applied but perhaps the last, or none when a target could not be measured; exact counts on success |
| Retention.Governor.RunPolicy | cmd/retention-governor/main.go:74-121 | one policy with any failures: the database is that of some prefix of its targets, evidence is kept, nothing dangles, a dry run changes nothing; the record counts the deletions of the targets before the failed one and is exact if and only if the failed statement was not carried out, and counts none when a target could not be measured |
| Retention.Governor.RunAll | cmd/retention-governor/main.go:33-57 | the same over all policies of a tenant, whose rows alone can go |

## Left out

- Reconciler.Elapse, Reconciler.Sleep, Reconciler.HasNormalized, Reconciler.FindRaw, Reconciler.Pull, Reconciler.PublishReplay: the environment; they promise only what the model assumes of store, ledger, provider and broker (ledgers that never forget during a run, one provider call publishing at most one event).
- Reconciler.Run: several reconcilers at once and SIGTERM are not modelled; a lease can expire during a run, but only this run takes rows.
- Reconciler.RescheduleOrFail: error texts are modelled as a fixed set of notes, and the idempotency key of a row is not modelled.
- ReconciliationTasks.RunSafety: says nothing about the discovery phase, whose writes are covered by Discover, RequeueFailed and Run.
- Reconciler.Enqueue: the store's own limits on a row (a cap of at most 3, a rank of at most 50) are among the reasons for which the call may fail.
- ZScores.SampleStats: floating-point rounding is not modelled; the standard deviation appears through its square.
- ZScores.ReachableSeverity: the rounding of reported scores to six digits and the confidence value are not modelled.
- Medians.Sort: the library sort is represented by its result.
- Online anomaly, change point, classifier and Python scores, and the paged event scan of the algorithm runner: the first reuse the statistics proved here, the scan has the shape of the replay worker's paging.
- Replay.ExecuteReplayJob: the heartbeat is not modelled.
- Outbox.SignalRelay.Operate: one relay only; two of them can interleave.
- Outbox.ConnectRelay.Operate: rows of one creation time are taken to have a fixed order, which the store's listing does not promise.
- BackfillCampaign.Campaign.ExecuteChild: the child process and the normalization wait are represented by their outcome.
- BackfillPlan.ChildDays: assumes the validated chunk size of 1 to 20 days.
- Materialization.NoEventMaterializedTwice: requests are handled one at a time; others add signals to the ledger but do not rewrite those in it; the stored materialization record, which answers repeated requests and so keeps signal ids new, and the publication after the write are not modelled.
- MarketInput.MarketInput: the 1000-row limit of the caller's query and letters outside ASCII are not modelled.
- TextKeys.Trim: white space is the Latin-1 white space of the Go library, not all of Unicode.
- Retention.Governor.RunAll: other writers during a run, and the oldest and newest times of a run record, are not modelled; signals do not change while a policy runs.
- Allocation.SharedAllocations: one table at a time; the order of its groups is given by the query, and their row counts are taken to sum to a 64-bit number.
- Equal ranks in the risk/reward overview: which of two equally good candidates is kept depends on their order, as in the code.
- Calibration summaries, asset algorithm observations, IoT devices and services, live-traffic buckets, tactical and peer valuation, options coverage, and the finalization of asset backfills: further aggregations of the kinds proved above.
- HTTP routing, DTO mapping, authentication, mail encryption, JSON encoding, hashing of ids, and the consume loops of normalizers and persisters.
