# Verified model of the analytics engine

The engine collects delivery data from GitHub and Jira, runs durable background jobs over it and
computes DORA metrics. This project models the parts where correctness depends on several functions
agreeing with each other, and proves what they promise together.

* **The job queue and its leases** (`Jobs`, `Queue`, `JobTable`, `ClaimOrder`, `QueueMetrics`,
  `Leases`, `Workers`). Rows of `processing_jobs` move between PENDING, FAILED, RUNNING, SUCCEEDED and
  DEAD. The row transitions and transactions are functions; the table, the advisory-lock server and
  the job lease are classes whose methods are proved against those functions.
* **The worker pool as a state machine** (`Protocol`, `LockInvariants`, `ClaimInvariants`,
  `OwnershipInvariants`, `RequestInvariants`, `ProtocolTheorems`, `PollTheorems`, `RecoveryTheorems`,
  `Outcomes`, `Witnesses`). Unboundedly many workers and jobs, one step per committed transaction or lock attempt:
  start, insert, coalescing enqueue, poll (recovery and claim), the four steps of acquiring a lease,
  heartbeat, dispatch, release, deferral, loss of the lease session, crash of any set of workers. Every
  theorem is about every state of every run. `PollTheorems` says exactly when a poll commits, which
  stale claims it ends and which job it claims; `RecoveryTheorems` how long a collision lasts;
  `Outcomes` what each outcome of a dispatch writes and who is handed a continuation.
* **The backfill cursor machine** (`Cursors`, `WorkflowScan`, `ScanTheorems`, `ScanBounds`,
  `Backfill`, `BackfillTheorems`). The whole state of a resumable scan is a cursor in the job payload; the workflow-run
  stage bisects time windows when the provider caps its results at 1,000. `BackfillTheorems` says in
  which order the stages come, when a backfill may end, and what it has read by then.
* **Metric buckets and alerts** (`Calendar`, `Periods`, `Buckets`, `Percentiles`, `Metrics`, `Alerts`,
  `AlertTheorems`, `RawAlerts`). Calendar buckets in any time zone, clock changes and a skipped local day included,
  recalculation of a minimal slice of them, the four calculators, and the rolling-window value that
  alert rules rebuild from stored DAY observations.
* **Tables that forget the order of delivery** (`Upserts`, `Deployments`, `JiraIssues`, `Incidents`,
  `Links`). Guarded upserts, and the incident and link tables rebuilt from them.

Two facts about the code that the proofs brought out:

* Recovery and claim share one transaction. If a RECALCULATE_METRICS row goes stale while a newer one
  of the same repository waits, handing the stale row back violates the unique index over waiting
  rows, and the whole poll rolls back. `Queue.RecoveryCommitsIff` gives the exact condition. A crash
  leads there (`Witnesses.RecoveryCanCollide`), and so does a deferral that races with an enqueue while
  its worker lives on (`Witnesses.DeferralCanCollide`). The collision lasts exactly until a poll claims
  the newer row (`RecoveryTheorems.CollisionLastsIff`). A poll can do so only if it skips the stale row,
  which happens when two polls overlap: the first has the stale row locked while the second runs. With
  polls that do not overlap, no job of any kind is claimed (`RecoveryTheorems.UnskippedPollsStayStuck`).
* Merging a ranged recalculation request into a waiting one without a range keeps only the range, so
  the default period that the earlier request asked for is dropped. `Queue.UnrangedEnqueueIff` says so
  of one enqueue, `RecoveryTheorems.UnrangedSurvivesIff` of whole runs, and
  `Witnesses.UnrangedCanBeReplaced` reaches such a state.

Instants and durations are integers in microseconds, percentiles and rates are exact reals before
rounding, and ISO timestamps are taken to keep order and to survive a round trip.

## Model

| member | source | states |
|---|---|---|
| `ProtocolTheorems.RunsKeepInv` | app/jobs/lease.py:42-128 | every state of every interleaving satisfies the table, lock, claim, ownership, attempt, request and scope invariants together |
| `ProtocolTheorems.OwnershipIsStable` | app/jobs/dispatcher.py:50-117 | an executing job's row is RUNNING, owned by its executor and as claimed, however old its heartbeat; so dispatch never meets an ownership error and the outcome names the committed status; it fails if and only if the result asks for a retry, attempts are left and a rival recalculation waits |
| `ProtocolTheorems.NoRequestIsLost` | app/metrics/service.py:679-713 | in every later state some recalculation row of the repository, whose payload names that repository and a range covering the request, waits or was claimed after it; if that row succeeded, the execution that served it was handed such a payload |
| `ProtocolTheorems.ExecutionIsExclusive` | app/jobs/lease.py:72-106 | two executing leases share no job and no repository; sharing a workspace makes both repository-scoped; workspace-wide work excludes every repository known to be in the workspace, even if a payload names another one |
| `Leases.ScopeRepositoryIff` | app/jobs/lease.py:48-79 | a claimed row is for a repository exactly if its job is not workspace-wide and the row names it, or else the event does, or else the payload |
| `Leases.ScopeWorkspaceIff` | app/jobs/lease.py:80-98 | a claimed row is for a workspace exactly if its repository belongs to it, or, with no such repository, the row, else the event, else the payload, else the Jira integration of a RENEW_JIRA_WEBHOOK names it |
| `Leases.WorkspaceWork` | app/jobs/lease.py:73-79 | the four kinds of job that are workspace-wide whatever repository they name |
| `ProtocolTheorems.OneLeasePerRepository` | app/jobs/lease.py:42-106 | two executing leases whose claimed rows are for one repository, by their columns, events or payloads, are one |
| `ProtocolTheorems.WorkspaceWorkIsAlone` | app/jobs/lease.py:72-106 | an executing lease for a workspace and no repository is the only one executing for that workspace |
| `Leases.AcquisitionDecides` | app/jobs/lease.py:42-106 | an acquisition is busy, not owned or successful by the job lock, the row's owner and attempts, the workspace lock and the repository lock, in that order |
| `ProtocolTheorems.NoLockLeftBehind` | app/jobs/lease.py:168-196 | a worker without a lease in use holds no lock, so a failed, lost or ended lease leaves none |
| `ProtocolTheorems.FinalizersAreFenced` | app/jobs/retry.py:36-54 | a finalizer takes effect only if the row's latest claim is that worker's own current, unended one, with a lease or without; no claim ends twice |
| `ProtocolTheorems.AttemptsAreAccounted` | app/jobs/retry.py:149-168 | attempts equal claims minus hand-backs since the last reset, lie in 1..max while RUNNING, the lock fields are set exactly while RUNNING, and a waiting row meets the claim statement's WHERE clause exactly when it is due |
| `ProtocolTheorems.TerminalRowsStay` | app/jobs/claimer.py:27-101 | SUCCEEDED and DEAD rows are never written again in any run |
| `PollTheorems.NextPollCommitsIff` | app/jobs/claimer.py:104-140 | an idle worker's next poll, which recovers all it can and claims the first job in line, commits if and only if recovery collides nowhere |
| `PollTheorems.StaleClaimEndsIff` | app/jobs/claimer.py:52-115 | in every run, an idle worker's next poll ends the claim of a stale job, not ended before, if and only if no other session holds its job lock and recovery collides nowhere in the table |
| `PollTheorems.NextClaimIff` | app/jobs/claimer.py:27-50 | in every run, an idle worker's next poll claims a job if and only if recovery collides nowhere and the job is, after recovery, the least eligible one by (priority, created_at, id) |
| `PollTheorems.LineAdvances` | app/jobs/claimer.py:117-140 | after a committed poll nothing is left to recover for any idle worker, no poll collides, and the jobs in line are those before without the first, in the same order |
| `PollTheorems.SuccessivePolls` | app/jobs/claimer.py:27-50 | k polls in a row, by whichever workers, claim one by one what a single claim of size k takes from the recovered table, so a due job waits only behind the jobs ordered before it |
| `RecoveryTheorems.CollisionLastsIff` | app/jobs/claimer.py:52-140 | over runs, an abandoned stale recalculation facing a waiting rival stays as it is, unrecovered, exactly until some poll claims the rival, whatever workers do and polls skip |
| `RecoveryTheorems.StuckStepIff` | app/jobs/claimer.py:52-140 | the same of every single step of the state machine |
| `RecoveryTheorems.UnskippedPollsStayStuck` | app/worker.py:152-172 | as long as polls skip no row, no poll commits and no job of any kind is claimed again |
| `RecoveryTheorems.UnrangedSurvivesIff` | app/metrics/service.py:679-709 | over runs, a waiting request without a range is still pending before its row is claimed if and only if every enqueue for the repository since then was without a range |
| `ProtocolTheorems.UninterruptedAcquire` | app/jobs/lease.py:42-106 | the interleaved lock steps, taken without interference, decide exactly as the sequential acquisition: scope, ownership error or busy |
| `OwnershipInvariants.JobLockKeepsRecoveryAway` | app/jobs/claimer.py:52-101 | recovery by another session sees the job lock of a re-checked lease and skips its row |
| `ClaimInvariants.RecoveryEndsClaims` | app/jobs/claimer.py:104-115 | recovery ends the claim of each recovered row, once, and leaves every other claim and row as it was |
| `RequestInvariants.DeferKeepsPayloads` | app/worker.py:97-99 | a deferral writes back the payload the row still has, so no row's payload changes |
| `OwnershipInvariants.GuardPoll` | app/jobs/claimer.py:117-140 | a poll, whatever it recovers or claims, takes no row from a worker past its ownership re-check |
| `Witnesses.SomeoneExecutes` | app/worker.py:152-205 | for any tables and key hash some run reaches execution under a full lease |
| `Witnesses.RecoveryCanCollide` | app/jobs/claimer.py:77-101 | a reachable state with an idle worker in which a crashed recalculation faces a newer waiting one |
| `Witnesses.DeferralCanCollide` | app/worker.py:97-129 | the same without a crash, one live idle worker: its scope was busy, the repository was enqueued again, and its deferral collided |
| `Witnesses.SkippingClears` | app/jobs/claimer.py:77-101 | from such a state a poll that skips the stale row claims the rival and ends the collision |
| `Witnesses.UnrangedCanBeReplaced` | app/metrics/service.py:692-700 | a reachable state in which an enqueue without a range followed by a ranged one leaves only the range |
| `Queue.RecoveryCommitsIff` | app/jobs/claimer.py:52-115 | recovery of all stale rows commits if and only if no row to hand back competes for the waiting slot of its repository |
| `Queue.CommitFailsIffSlotTaken` | app/metrics/service.py:688-690 | a single-row write is rejected exactly when it makes a second waiting recalculation of a repository |
| `Queue.DispatchReportsRow` | app/jobs/dispatcher.py:50-117 | one finalization per dispatch: success reports the status of the one row it wrote; failure changes nothing and happens exactly without ownership, or when the result asks for a retry, attempts are left and a rival waits |
| `Outcomes.DispatchWrites` | app/jobs/dispatcher.py:50-117 | what each reported outcome has written: a continuation the handler's payload, its delay and the attempt given back or all reset; a success no error and the time; a failure the same payload, its error, and a time or the end of the backoff |
| `Outcomes.ContinuationIsDelivered` | app/jobs/retry.py:134-181 | over runs, from the dispatch that requeues a job until a poll picks it, the row carries the handler's payload and delay, and the claim of that poll holds the payload |
| `Queue.FailureEndsClaim` | app/jobs/retry.py:57-131 | `mark_failed` by the owner ends the claim as DEAD exactly for a permanent error or the last attempt, else as FAILED; it fails exactly without ownership or when a retry meets a waiting rival |
| `Queue.EnqueueKeepsTable` | app/metrics/service.py:666-725 | a coalescing enqueue never collides, leaves one waiting row covering the old and the new range with attempts reset, and touches no other row |
| `Queue.EnqueueWrites` | app/metrics/service.py:679-720 | the row written names repository and workspace in the payload keys that the handler reads, is pending at once with no error and no attempts, and, if new, has the same ids in its columns and priority 100 |
| `JobTables.JobTable.MarkSucceeded` | app/jobs/retry.py:33-54 | new table state, or an ownership error and no change |
| `JobTables.JobTable.MarkFailed` | app/jobs/retry.py:57-131 | new table state and status, or an error and no change |
| `JobTables.JobTable.RequeueWithPayload` | app/jobs/retry.py:134-181 | new table state, or an error and no change |
| `JobTables.JobTable.Heartbeat` | app/jobs/lease.py:109-128 | only `locked_at` of the worker's own claim changes |
| `JobTables.JobTable.DispatchJob` | app/jobs/dispatcher.py:50-117 | handler result to row transition, by exception case |
| `JobTables.JobTable.RecoverStaleJobs` | app/jobs/claimer.py:104-115 | both recovery statements, with their counts |
| `JobTables.JobTable.ClaimJobs` | app/jobs/claimer.py:117-158 | an argument error exactly for bad arguments, a roll-back exactly if recovery collides, otherwise success: recovery, then exactly the least eligible rows marked and returned in order |
| `JobTables.JobTable.EnqueueRecalculateMetrics` | app/metrics/service.py:666-725 | merge into the waiting row or insert, and the id of the row written |
| `ClaimOrder.ChosenAreLeast` | app/jobs/claimer.py:27-50 | a claim takes rows that may be claimed, in strict order of (priority, created_at, id), as many as asked for or as there are, and each before every such row that it leaves |
| `ClaimOrder.BatchEqualsSingles` | app/jobs/claimer.py:27-50 | a claim of size k equals k successive claims of size one at the same instant |
| `ClaimOrder.SortedIdsIsUnique` | app/jobs/claimer.py:156-158 | the order is strict and total, so sorting what the UPDATE returns has one result |
| `QueueMetrics.ClaimMovesReadyJobs` | app/jobs/queue_metrics.py:15-40 | a claim has size min(k, ready count) and moves exactly that many jobs from ready to running in the snapshot |
| `QueueMetrics.OldestWaitIsReal` | app/jobs/queue_metrics.py:17-26 | the reported wait is the longest wait of a ready job |
| `Jobs.BackoffBounds` | app/jobs/retry.py:22-26 | backoff grows with the attempts, stays within 1 and 900 seconds and honours a provider's retry delay up to that cap |
| `Jobs.BackoffDoubles` | app/jobs/retry.py:22-26 | the backoff is one second, doubling with every attempt, plus the jitter, cut at 900 seconds; a provider's longer delay replaces it up to the same cut |
| `Jobs.RecoveredRowIsDue` | app/jobs/claimer.py:52-101 | recovery makes a row with attempts left due at once, and buries another, with its error and its payload kept |
| `ProtocolTheorems.DeferralReturnsIff` | app/worker.py:97-99 | in every run, a deferral hands the job back, as it was claimed but for the attempt given back and the delay, if and only if the worker owns it and no rival waits; otherwise no row changes |
| `Jobs.DeferralUndoesClaim` | app/jobs/retry.py:149-168 | the row a deferral writes: the one before the claim, attempts included, claimable again exactly when the delay is over |
| `Jobs.FailedRowWaits` | app/jobs/retry.py:69-131 | a failure buries exactly a permanent error or the last attempt; otherwise the row is claimable exactly from the end of its backoff, never within a second |
| `Jobs.BeatsPostponeStaleness` | app/jobs/lease.py:109-128 | a claim and each heartbeat postpone staleness by exactly the stale interval |
| `Queue.HeartbeatWrites` | app/jobs/lease.py:109-128 | a heartbeat moves staleness to exactly one interval from now if the worker still owns this very claim, and changes nothing else |
| `Jobs.MergedRangeIsHull` | app/metrics/service.py:692-700 | the merged range is the smallest one containing both |
| `Queue.UnrangedEnqueueIff` | app/metrics/service.py:679-709 | the row an enqueue writes has no range exactly when the request has none and the waiting row it found, if any, had none |
| `Leases.KnownRepositoryFixesWorkspace` | app/jobs/lease.py:72-98 | the workspace of a known repository overrides the row and the payload |
| `Leases.LockServer.TryLock` | app/jobs/lease.py:34-39 | a lock is granted exactly when it clashes with no other session's |
| `Leases.JobLease.Acquire` | app/jobs/lease.py:42-106 | job lock, ownership re-check, scope, workspace lock, repository lock; on success exactly the lease's locks are held |
| `Leases.JobLease.Maintain` | app/jobs/lease.py:168-196 | wherever the session fails, all locks are gone; an error up to the first heartbeat is the acquisition's own and changes no row; a later one runs the fail-closed callback exactly if the handler is not done |
| `Leases.EntersIff` | app/jobs/lease.py:168-181 | a lease is entered exactly if its acquisition succeeded and the session lived through the first heartbeat; otherwise the error is the refusal, or the lost session |
| `Workers.ConsumerIdsAreUnique` | app/worker.py:78-81 | identities are injective in (boot id, slot) whatever the prefixes, and at most 128 characters long |
| `WorkflowScan.ProcessWorkflowRunPage` | app/jobs/handlers/backfill_repository.py:354-421 | next cursor or error, and the runs normalized |
| `WorkflowScan.SplitHalves` | app/jobs/handlers/backfill_repository.py:377-394 | half-even bisection yields two non-empty windows sharing one instant, equal in width up to a microsecond |
| `WorkflowScan.HalfEvenRounds` | app/jobs/handlers/backfill_repository.py:389-394 | half of a duration, an odd one rounded to the even microsecond |
| `WorkflowScan.PageReads` | app/providers/github.py:197-224 | pages of an uncapped window read it all, each item once |
| `WorkflowScan.PageDecreases` | app/jobs/handlers/backfill_repository.py:377-421 | every lease lowers a lexicographic measure, so a scan of a fixed provider ends |
| `ScanTheorems.BackfillScanCovers` | app/jobs/handlers/backfill_repository.py:354-421 | a scan ends; without error every run of the period was normalized once, or twice exactly at an instant where windows meet; the one possible error is 1,000 runs within a second |
| `ScanTheorems.ScanCovers` | app/jobs/handlers/backfill_repository.py:354-421 | the coverage invariant at any page boundary carries through to the end of the scan |
| `ScanBounds.StackIsLogarithmic` | app/jobs/handlers/backfill_repository.py:548-550 | whatever the provider answers, the stack has at most 25 windows, doubling in width downwards, and the cursor passes validation on the next lease |
| `ScanBounds.BoundIsReached` | app/jobs/handlers/backfill_repository.py:377-394 | 25 is exact: a dense newest instant stacks that many windows on a 365-day scan |
| `Cursors.ReadPendingWindows` | app/jobs/handlers/backfill_repository.py:545-568 | the reading loop, against a recursive reader |
| `Cursors.CursorRoundTrips` | app/jobs/handlers/backfill_repository.py:519-568 | an emitted cursor is read back as itself if and only if it is acceptable |
| `Cursors.ParsedCursorsAreAcceptable` | app/jobs/handlers/backfill_repository.py:519-568 | whatever JSON passes validation has non-empty windows, at most 64 of them, and a page from 1 |
| `Cursors.RejectedCursors` | app/jobs/handlers/backfill_repository.py:519-568 | an object is rejected for its stage exactly if that is none of the six names, and for its page exactly if that is no integer from 1 |
| `Cursors.MissingWindowsDefault` | app/jobs/handlers/backfill_repository.py:540-568 | a scan cursor without windows, or with one end only, stands for what is missing of the whole period |
| `Backfill.MachineAcceptsItself` | app/jobs/handlers/backfill_repository.py:40-137 | over any leases and answers, every stored cursor is read back with the same meaning, stage fits mode, the cutoff never moves, and no cursor or stage error occurs |
| `Backfill.StageKeepsShape` | app/jobs/handlers/backfill_repository.py:140-181 | each stage turns a fitting cursor into a fitting cursor |
| `Backfill.DaysAccepted` | app/jobs/handlers/backfill_repository.py:594-605 | 90 days unless stated, and any stated number or numeral from 1 to 365, nothing else |
| `Backfill.RejectedPayloads` | app/jobs/handlers/backfill_repository.py:40-57 | bad days, two modes at once, or a bad start are rejected, in that order, and nothing else is by these errors |
| `BackfillTheorems.LeasesFollowStages` | app/jobs/handlers/backfill_repository.py:140-460 | over any leases, the cursors read form a trace: next page, next window or next stage, in the order of the mode; the last result is what the last cursor read and its answer call for |
| `BackfillTheorems.NoStageIsSkipped` | app/jobs/handlers/backfill_repository.py:184-351 | in the default mode pull requests begin only after the last page of the open ones, scan or deployments only after the last page of the pull requests |
| `BackfillTheorems.CompletionIsEarned` | app/jobs/handlers/backfill_repository.py:140-460 | a backfill ends only on a last page: of the pull requests if pushes are the signal, of the deployments, of the last window of the scan, or of a mode's only stage |
| `BackfillTheorems.CompletedBackfillCovers` | app/jobs/handlers/backfill_repository.py:40-137 | against a fixed provider, a default backfill by workflow runs that completed has normalized every run of its period, once, or twice where windows met, and no other |
| `Calendar.MonthLength` | app/metrics/calculator.py:100-119 | the first of the next month is one month's length later, across year ends and leap years |
| `Calendar.FirstOfJanuary` | app/metrics/calculator.py:78-101 | days are numbered from 1 January of year 1 by the Gregorian leap rule |
| `Calendar.DateInItsPeriod` | app/metrics/calculator.py:78-101 | every date lies in its day, ISO week or month |
| `Buckets.GetPeriodBuckets` | app/metrics/calculator.py:67-119 | the loops end and tile: consecutive calendar periods, the first starting at or before the range, the last ending at or after it |
| `Buckets.PaddingSuffices` | app/metrics/calculator.py:122-157 | paddings of 2, 14 and 62 days always leave a whole period before the first touched one and reach past the last |
| `Buckets.GetRecalculationBuckets` | app/metrics/calculator.py:122-157 | an error exactly for a reversed range; else all calendar periods touching the range and the one before the first of them, contiguous, nothing more |
| `Periods.SliceIsExact` | app/metrics/calculator.py:143-157 | the slice is independent of the padding; the clamp at index 0 never acts |
| `Periods.RangeIsTouched` | app/metrics/calculator.py:143-157 | the touched candidates are all the touched periods, unbroken, and skip the first candidate |
| `Percentiles.PercentilesAreSound` | app/metrics/calculator.py:34-64 | order-independent, between least and greatest value, p50 <= p75 <= p90 |
| `Percentiles.PercentileMonotone` | app/metrics/calculator.py:42-64 | the interpolated percentile rises with p |
| `Percentiles.SummaryInterpolates` | app/metrics/calculator.py:42-64 | p50, p75 and p90 lie on the lines between sorted values, at half, three quarters and nine tenths of the last index |
| `Percentiles.MedianIsP50` | app/jobs/handlers/evaluate_alerts.py:48-53 | the alert median and the interpolated p50 are one number |
| `Metrics.CalculateDeploymentFrequency` | app/metrics/calculator.py:160-215 | counts and stores exactly the bucket's production successes |
| `Metrics.CalculateChangeFailureRate` | app/metrics/calculator.py:346-414 | totals, failures and ratio of exactly the bucket's finished production deployments |
| `Metrics.CalculateChangeLeadTime` | app/metrics/calculator.py:218-283 | median and stored observations of the bucket's lead times |
| `Metrics.CalculateRecoveryTime` | app/metrics/calculator.py:286-343 | median and stored observations of the bucket's recoveries |
| `Metrics.CountedDeployments` | app/metrics/calculator.py:178-190 | counted are production successes, and of all finished production deployments those failed or with an incident |
| `Metrics.LeadTimeMeans` | app/metrics/calculator.py:236-256 | a lead time is the hours from first commit to finish of a production success, zero allowed, negative ones left out |
| `Metrics.RecoveryMeans` | app/metrics/calculator.py:296-318 | a recovery is the hours from detection, else creation, to the recovering finish, else the resolution, negative ones left out |
| `Metrics.BucketsAddUp` | app/metrics/calculator.py:178-190 | counts and failures over consecutive buckets sum to those of their hull |
| `Metrics.WeekIsItsDays` | app/metrics/calculator.py:357-368 | a week's counts and failures are those of its seven days, across clock changes |
| `Alerts.AggregateDoraMetric` | app/jobs/handlers/evaluate_alerts.py:56-124 | the dictionary loops compute the metric of the deduplicated entries |
| `Alerts.SelectedEntries` | app/jobs/handlers/evaluate_alerts.py:402-410 | overlapping snapshots and the time filter find each event of the window that some snapshot holds, and nothing else |
| `Alerts.SelectedAreOverlapping` | app/jobs/handlers/evaluate_alerts.py:402-410 | a rule reads, in order, exactly the snapshots that end after its window starts and start before it ends |
| `RawAlerts.RawAlertValue` | app/jobs/handlers/evaluate_alerts.py:56-124 | for any stored observations, malformed, unnamed or repeated ones included, the value is the metric of those that are usable and first of their identity, in order |
| `RawAlerts.NothingToEvaluateIff` | app/jobs/handlers/evaluate_alerts.py:63-108 | there is no value exactly without snapshots, for an unknown metric, or, unless deployments are counted, without a usable observation |
| `RawAlerts.StripTrims` | app/jobs/handlers/evaluate_alerts.py:86-90 | a key is compared without the white space at its ends, all of it |
| `AlertTheorems.AlertEqualsDirect` | app/jobs/handlers/evaluate_alerts.py:56-124 | for any family of snapshots covering the window, tiling or overlapping, the rule's value equals the metric of the raw events |
| `AlertTheorems.AlertEqualsCalculators` | app/jobs/handlers/evaluate_alerts.py:93-124 | on a window with observations that value is what the calculator of the metric reports for the window as one bucket: count, failure percentage or interpolated p50 |
| `AlertTheorems.MetricForgetsOrder` | app/jobs/handlers/evaluate_alerts.py:93-124 | count, failure ratio and median depend only on the bag of values |
| `AlertTheorems.DayBucketsCover` | app/metrics/calculator.py:67-119 | the DAY buckets of the window are such a covering family |
| `Upserts.ConvergesIff` | app/normalization/deployments.py:327-342 | a row forgets order and repetitions of its deliveries if and only if its newest deliveries agree |
| `Upserts.FinalIsNewest` | app/normalization/deployments.py:339-342 | whatever the order, the row holds a delivery as new as any |
| `Upserts.DistinctTimesSettle` | app/normalization/deployments.py:339-342 | deliveries with distinct times, each possibly repeated, agree |
| `Deployments.DeploymentTable.RunUpsert` | app/normalization/deployments.py:313-365 | one stable row per key, and its id even if the delivery loses the guard |
| `Deployments.RowIsFinal` | app/normalization/deployments.py:313-365 | a row depends on its own key's deliveries only |
| `Deployments.RowKeepsBooks` | app/normalization/deployments.py:313-365 | over a history, a deployment keeps the id first offered for it, its version counts the accepted deliveries after the first, and `started_at` is the first known among the accepted |
| `Deployments.HistoryForgetsOrder` | app/normalization/deployments.py:327-342 | histories of the same settled deliveries leave the same readings for every key |
| `JiraIssues.IssueTable.UpsertJiraIssue` | app/normalization/jira_issues.py:25-140 | payloads without identifiers are skipped; the guarded row otherwise; `is_incident` survives every update |
| `JiraIssues.IssuesForgetOrder` | app/normalization/jira_issues.py:104-122 | the same convergence for an issue's guarded columns |
| `JiraIssues.RowKeepsBooks` | app/normalization/jira_issues.py:25-140 | over payloads, a row exists exactly for an identified issue that came; its version counts the accepted payloads, its creation time is the last known among them, and no payload makes it an incident |
| `Incidents.IncidentTable.ReconcileGithubIncidents` | app/metrics/service.py:152-227 | delete orphans, then refresh or insert one incident for every failure |
| `Incidents.OneIncidentPerFailure` | app/metrics/service.py:155-227 | exactly one GITHUB incident per finished production failure, resolved by the earliest strictly later production success, which it names, and no other GITHUB incident of the repository |
| `Incidents.ReconcileDropsIff` | app/metrics/service.py:155-227 | an earlier incident is dropped exactly if it is a GITHUB incident of the repository whose failed deployment no longer is a production failure; the others keep their row, or, if their deployment is one, their failure, with the next version |
| `Incidents.ReconcileAdds` | app/metrics/service.py:178-227 | incidents added are new rows of version 0, each of a failure that no remaining incident records |
| `Incidents.ReconcileIsIdempotent` | app/metrics/service.py:152-227 | a second reconcile inserts nothing and changes only versions |
| `Incidents.ReconcileReconciles` | app/metrics/service.py:152-227 | a reconcile leaves a reconciled table, from any earlier one |
| `Incidents.IncidentsForgetOrder` | app/metrics/service.py:230-237 | after the same settled deliveries in any order, each reconciled incident of a failure has exactly one counterpart in the other table, and it tells the same story |
| `Links.LinkTable.LinkDeployments` | app/metrics/service.py:32-127 | the three statements in order, and the number of links inserted |
| `Links.MethodByPrecedence` | app/metrics/service.py:45-127 | a pair's link after a rebuild: MANUAL stays, else MERGE_SHA for its merge commit or head, else COMMIT_GRAPH for one of its commits, else MERGE_WINDOW for the first shipment of its branch since the merge, else none |
| `Links.RebuildIsLocal` | app/metrics/service.py:45-55 | links of other repositories' deployments and manual links stay as they are; a pair with no pull request of the repository keeps only a manual link |
| `Links.WindowIsFirstShipment` | app/metrics/service.py:87-125 | the window condition holds if and only if the deployment finished when the repository first shipped at or after the merge, having shipped before it |
| `Links.MergeWindowLaw` | app/metrics/service.py:87-125 | a MERGE_WINDOW link means no shipment between the merge and the deployment's finish, and one before the merge, so the earliest shipment has none |
| `Links.WindowsAreDisjoint` | app/metrics/service.py:87-125 | a pull request's window links all go to deployments that finished at one instant |
| `Links.RebuildIsIdempotent` | app/metrics/service.py:45-127 | rebuilding twice is rebuilding once |

## Left out

- HTTP clients, mail, encryption, tokens, web endpoints, logging, metric counters, the machine-learning handlers: I/O or library code. The GitHub provider is a fixed list of runs, or for the stack bound any function of the lease.
- The loop of `consume_jobs` is modelled on values, as steps of the state machine, because its meaning lies in the interleaving of many workers; sleeping between polls is not modelled.
- A poll's recovery and claim are one step, as they are one transaction; a worker claims one job at a time, as `consume_jobs` does.
- The partial unique index on waiting RECALCULATE_METRICS rows is not in the files modelled; it is taken from the `ON CONFLICT` clause that names it, and modelled as a guard that aborts the transaction.
- ExecutionIsExclusive: claimed while the lease session is held; between losing the session and the exit of the process only the fencing of finalizers is claimed.
- NoRequestIsLost: stated for requests with a range; for one without, `UnrangedSurvivesIff` gives the exact condition.
- AttemptsAreAccounted: a row that meets the WHERE clause is claimed only by a poll that commits and finds it first in line; `NextClaimIff` gives the condition.
- UnskippedPollsStayStuck: assumes that no other lock key hashes to the stale job's; `CollisionLastsIff` assumes nothing of the kind.
- NextClaimIff: speaks of a poll that meets no row lock; in the state machine a poll may skip rows in recovery and claim any due job, as it does when other transactions have rows locked.
- The tables that scope resolution reads (events, repositories, Jira integrations) do not change during a run; `ExecutionIsExclusive` rests on this for repositories known to belong to a workspace.
- Deletion of rows, in particular by DELETE_WORKSPACE, and the writes of the separate API service.
- Advisory-lock keys are hashed by an arbitrary function, so collisions are allowed; the hash itself is not modelled.
- Handlers are arbitrary: any result at any time, except that the recalculation handler does not requeue itself.
- PostgreSQL's row locks appear only as the rows that a poll skips; lock and statement timeouts are errors while acquiring.
- Rounding of floats; `Metrics` and `Percentiles` use exact reals, and equalities are stated before `round`.
- The mean that the calculators store beside the median.
- Cursor stage values that are lists or objects raise a `TypeError` in the code; numerals are those of `int()` on plain decimal text.
- The item loops of the other backfill stages: they normalize items and move to the next page.
- `ProviderError` handling inside a backfill stage: the lease ends and the stored cursor stays as it was.
- Alert comparators, cooldowns and mail contents.
- MachineAcceptsItself: an inactive integration, an archived or untracked repository and malformed provider items, which end the job too, are not modelled.
- The timeout argument of the queue snapshot and its check.
- HistoryForgetsOrder: says nothing about `started_at`, ids and versions, which depend on the order as `RowKeepsBooks` says, or about bookkeeping times; two equally new deliveries that differ leave whichever came last.
- IssuesForgetOrder: says nothing about `jira_created_at`, which keeps the last known value in order of arrival, as `JiraIssues.RowKeepsBooks` says.
- OneIncidentPerFailure: an incident of another source on the same failed deployment becomes a GITHUB incident, as the code's conflict clause makes it; the workspace column is left out.
- Reclassification of stored deployments, name patterns and glob matching: a delivery's production flag is part of its reading.
- Overlapping catalogue synchronizations and GitHub-issue upserts without a provider time, which do not converge in general.
- Unknown time-zone names and granularities, which the bucket functions reject; the zone is given as two functions in which midnights never go back, no local day is longer than 48 hours and no two days in a row are empty. Where a zone skips a local day, as Pacific/Apia skips 30 December 2011, that day is a bucket of length zero, and it can be the one before the first touched bucket.
- Error texts are kept as the handler raised them: collapsing white space and cutting at 2,000 characters is not modelled.
