/** What each outcome of a dispatch writes, and what happens to it until the job is claimed again. */
module Outcomes {
  import opened Prelude
  import opened Jobs
  import opened Queue
  import opened Leases
  import opened Protocol
  import opened ClaimInvariants
  import opened ProtocolTheorems
  import opened PollTheorems
  import opened RecoveryTheorems

  /** The error text that a failed dispatch records. */
  predicate Records(jobType: JobType, handled: HandlerResult, error: string) {
    if jobType.Unsupported? then error == "UNSUPPORTED_JOB_TYPE: " + jobType.name
    else
      match handled
      case Returned => false
      case Requeued(_, _, _) => error == REQUEUE_ERROR
      case RaisedPermanent(e) => error == e
      case RaisedProvider(e, _) => error == e
      case RaisedOther(e) => error == e
  }

  /** Whether the dispatch's error rules out a retry. */
  predicate IsPermanent(jobType: JobType, handled: HandlerResult) {
    jobType.Unsupported? || handled.RaisedPermanent?
  }

  function ProviderDelay(handled: HandlerResult): Option<int> {
    if handled.RaisedProvider? then handled.retryAfter else None
  }

  /** The row can be claimed from an instant on, and not before. */
  ghost predicate DueFrom(row: Row, at: Instant) {
    forall t :: Claimable(row, t) <==> at <= t
  }

  /** What the outcome says about the row that was dispatched. */
  ghost predicate Written(before: Row, row: Row, outcome: Outcome, jobType: JobType, handled: HandlerResult,
                          now: Instant, jitter: int)
  {
    && SameColumns(row, before) && row.lockedAt.None? && row.lockedBy.None?
    && match outcome
       case ContinuationRequeued =>
         && handled.Requeued? && row.payload == handled.payload
         && row.attempts == (if handled.reset then 0 else before.attempts - 1)
         && row.lastError == before.lastError && row.finishedAt == before.finishedAt
         && DueFrom(row, now + handled.delay)
       case SucceededJob =>
         && handled.Returned? && row.payload == before.payload && row.attempts == before.attempts
         && row.lastError == None && row.finishedAt == Some(now)
       case DeadLettered =>
         && row.payload == before.payload && row.attempts == before.attempts
         && (IsPermanent(jobType, handled) || before.attempts == before.maxAttempts)
         && row.lastError.Some? && Records(jobType, handled, row.lastError.value) && row.finishedAt == Some(now)
       case RetryScheduled =>
         && row.payload == before.payload && row.attempts == before.attempts
         && !IsPermanent(jobType, handled) && before.attempts < before.maxAttempts
         && row.lastError.Some? && Records(jobType, handled, row.lastError.value) && row.finishedAt == None
         && DueFrom(row, now + FailureDelay(before.attempts, jitter, ProviderDelay(handled)))
  }

  lemma FailureWrites(rows: Rows, id: Uuid, worker: WorkerId, now: Instant, failure: Failure)
    requires TableOk(rows) && DispatchFailure(rows, id, worker, now, failure).1.Ok?
    ensures var (after, r) := DispatchFailure(rows, id, worker, now, failure);
            && id in rows && id in after
            && var (row, before) := (after[id], rows[id]);
               && SameColumns(row, before) && row.lockedAt.None? && row.lockedBy.None?
               && row.payload == before.payload && row.attempts == before.attempts
               && row.lastError == Some(failure.error)
               && (if failure.permanent || before.attempts == before.maxAttempts
                   then r.value.DeadLettered? && row.finishedAt == Some(now)
                   else && r.value.RetryScheduled? && row.finishedAt == None
                        && DueFrom(row, now + FailureDelay(before.attempts, failure.jitter, failure.retryAfter)))
  {
    FailedRowWaits(rows[id], now, failure);
  }

  /**
    What a dispatch writes, by the outcome it reports: a continuation carries the handler's payload
    and delay and gives the attempt back or resets them; a success clears the error; a failure keeps
    the payload and records its error, and is due again exactly when its backoff is over.
  */
  lemma DispatchWrites(rows: Rows, id: Uuid, jobType: JobType, worker: WorkerId, now: Instant, jitter: int,
                       handled: HandlerResult)
    requires TableOk(rows) && DispatchTx(rows, id, jobType, worker, now, jitter, handled).1.Ok?
    ensures var (after, r) := DispatchTx(rows, id, jobType, worker, now, jitter, handled);
            && id in rows && id in after && after == rows[id := after[id]]
            && Written(rows[id], after[id], r.value, jobType, handled, now, jitter)
  {
    DispatchReportsRow(rows, id, jobType, worker, now, jitter, handled);
    match FailureOf(jobType, handled, jitter)
    case Some(failure) => FailureWrites(rows, id, worker, now, failure);
    case None =>
      if handled.Requeued? && RequeueTx(rows, id, worker, now, handled.payload, handled.delay, handled.reset).Err? {
        FailureWrites(rows, id, worker, now, Failure(REQUEUE_ERROR, false, jitter, None));
      }
  }

  // ----- over runs -----------------------------------------------------------------------------

  /** A waiting row that is no recalculation, as it stood at some state. */
  ghost predicate Parked(s: System, id: Uuid, row: Row) {
    id in s.rows && s.rows[id] == row && Waiting(row) && !row.jobType.RecalculateMetrics?
  }

  lemma ParkedNext(env: Environment, run: seq<System>, steps: seq<Step>, j: nat, id: Uuid, row: Row)
    requires IsScript(env, run, steps) && j < |steps| && Parked(run[j], id, row) && Picked(steps[j]) != Some(id)
    ensures Parked(run[j + 1], id, row)
  {
    ScriptIsRun(env, run, steps);
    RunsKeepInv(env, run, j);
    assert StepAt(env, run, steps, j);
    WaitingRowStep(env, run[j], steps[j], id);
  }

  lemma {:induction false} StaysParked(env: Environment, run: seq<System>, steps: seq<Step>, i: nat, k: nat, id: Uuid,
                                       row: Row)
    requires IsScript(env, run, steps) && i <= k < |run| && Parked(run[i], id, row) && NotPicked(steps, i, k, id)
    ensures Parked(run[k], id, row)
    decreases k
  {
    if i < k {
      StaysParked(env, run, steps, i, k - 1, id, row);
      NotPickedGrows(steps, i, k - 1, id);
      ParkedNext(env, run, steps, k - 1, id, row);
    }
  }

  /** The claim that a poll commits holds the row as it stood, but for what claiming sets. */
  predicate HoldsClaimOf(phase: Phase, id: Uuid, row: Row) {
    phase.Claimed? && phase.claim.job == id && phase.claim.row.payload == row.payload
    && phase.claim.row.attempts == row.attempts + 1 && SameColumns(phase.claim.row, row)
  }

  lemma PollClaims(env: Environment, s: System, poll: Step, id: Uuid, row: Row)
    requires Enabled(env, s, poll) && Picked(poll) == Some(id) && Parked(s, id, row)
    ensures HoldsClaimOf(PhaseOf(Apply(env, s, poll), poll.worker), id, row)
  {
  }

  /** A dispatch step that reports a continuation leaves the row parked with the handler's payload. */
  lemma ContinuationParks(env: Environment, s: System, w: WorkerId, handled: HandlerResult, jitter: int)
    requires TableOk(s.rows) && ClaimsOk(s) && Enabled(env, s, Dispatch(w, handled, jitter))
    requires ApplyDispatch(s, w, PhaseOf(s, w).claim, handled, jitter).1 == Ok(ContinuationRequeued)
    ensures var (t, id) := (Apply(env, s, Dispatch(w, handled, jitter)), PhaseOf(s, w).claim.job);
            && id in s.rows && id in t.rows && Parked(t, id, t.rows[id])
            && Written(s.rows[id], t.rows[id], ContinuationRequeued, s.rows[id].jobType, handled, s.now, jitter)
  {
    var c := PhaseOf(s, w).claim;
    assert ClaimOk(s, w, c);
    DispatchReportsRow(s.rows, c.job, c.row.jobType, w, s.now, jitter, handled);
    DispatchWrites(s.rows, c.job, c.row.jobType, w, s.now, jitter, handled);
  }

  /** A dispatch by the worker requeues the job. */
  predicate Continues(s: System, w: WorkerId, handled: HandlerResult, jitter: int, id: Uuid) {
    HasClaim(PhaseOf(s, w)) && PhaseOf(s, w).claim.job == id
    && ApplyDispatch(s, w, PhaseOf(s, w).claim, handled, jitter).1 == Ok(ContinuationRequeued)
  }

  /** The worker has claimed the job with this payload, and not yet begun to lock it. */
  predicate HasClaimed(s: System, w: WorkerId, id: Uuid, payload: Payload) {
    PhaseOf(s, w).Claimed? && PhaseOf(s, w).claim.job == id && PhaseOf(s, w).claim.row.payload == payload
  }

  lemma ContinuationStored(env: Environment, run: seq<System>, steps: seq<Step>, i: nat, w: WorkerId,
                           handled: HandlerResult, jitter: int, id: Uuid)
    requires IsScript(env, run, steps) && i < |steps| && steps[i] == Dispatch(w, handled, jitter)
    requires Continues(run[i], w, handled, jitter, id)
    ensures handled.Requeued? && id in run[i + 1].rows && Parked(run[i + 1], id, run[i + 1].rows[id])
    ensures run[i + 1].rows[id].payload == handled.payload
    ensures DueFrom(run[i + 1].rows[id], run[i].now + handled.delay)
  {
    ScriptIsRun(env, run, steps);
    RunsKeepInv(env, run, i);
    assert StepAt(env, run, steps, i);
    ContinuationParks(env, run[i], w, handled, jitter);
  }

  lemma PickDelivers(env: Environment, run: seq<System>, steps: seq<Step>, k: nat, id: Uuid, row: Row)
    requires IsScript(env, run, steps) && k < |steps| && Picked(steps[k]) == Some(id) && Parked(run[k], id, row)
    ensures HasClaimed(run[k + 1], steps[k].worker, id, row.payload)
  {
    assert StepAt(env, run, steps, k);
    PollClaims(env, run[k], steps[k], id, row);
  }

  /**
    A continuation is not lost: from the dispatch that requeues a job on, until a poll picks it, its
    row carries the handler's payload, whatever all workers do; and the claim of the poll that picks
    it, before any other does, holds that payload.
  */
  lemma ContinuationIsDelivered(env: Environment, run: seq<System>, steps: seq<Step>, i: nat, k: nat, w: WorkerId,
                                handled: HandlerResult, jitter: int, id: Uuid)
    requires IsScript(env, run, steps) && i < k < |run| && steps[i] == Dispatch(w, handled, jitter)
    requires Continues(run[i], w, handled, jitter, id) && NotPicked(steps, i + 1, k, id)
    ensures handled.Requeued? && id in run[k].rows && run[k].rows[id].payload == handled.payload
    ensures DueFrom(run[k].rows[id], run[i].now + handled.delay)
    ensures k < |steps| && Picked(steps[k]) == Some(id) ==>
              HasClaimed(run[k + 1], steps[k].worker, id, handled.payload)
  {
    ContinuationStored(env, run, steps, i, w, handled, jitter, id);
    var row := run[i + 1].rows[id];
    StaysParked(env, run, steps, i + 1, k, id, row);
    if k < |steps| && Picked(steps[k]) == Some(id) {
      PickDelivers(env, run, steps, k, id, row);
    }
  }
}
