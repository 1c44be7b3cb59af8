/** The queue's transactions as functions on the whole job table. */
module Queue {
  import opened Prelude
  import opened Jobs
  import opened ClaimOrder

  datatype TxError = NotOwned | IndexConflict | BadArgument

  /**
    Two rows competing for one entry of the partial unique index behind the coalescing enqueue:
    (repository_id, job_type) over waiting RECALCULATE_METRICS rows. Null repositories never collide.
  */
  predicate SameSlot(x: Row, y: Row) {
    Waiting(x) && Waiting(y) && Rivals(x, y)
  }

  /** Recalculations of one repository, waiting or not. */
  predicate Rivals(x: Row, y: Row) {
    && x.jobType.RecalculateMetrics? && y.jobType.RecalculateMetrics?
    && x.repositoryId.Some? && x.repositoryId == y.repositoryId
  }

  predicate UniqueWaiting(rows: Rows) {
    forall a, b | a in rows && b in rows && SameSlot(rows[a], rows[b]) :: a == b
  }

  ghost predicate TableOk(rows: Rows) {
    && (forall id | id in rows :: RowOk(rows[id]))
    && UniqueWaiting(rows)
  }

  /** A transaction whose writes would break the unique index is rolled back. */
  function Commit(rows: Rows): Result<Rows, TxError> {
    if UniqueWaiting(rows) then Ok(rows) else Err(IndexConflict)
  }

  function After(rows: Rows, tx: Result<Rows, TxError>): Rows {
    if tx.Ok? then tx.value else rows
  }

  function SucceedTx(rows: Rows, id: Uuid, worker: WorkerId, now: Instant): Result<Rows, TxError> {
    if OwnedIn(rows, id, worker) then Commit(rows[id := SucceedRow(rows[id], now)]) else Err(NotOwned)
  }

  function FailTx(rows: Rows, id: Uuid, worker: WorkerId, now: Instant, failure: Failure): Result<Rows, TxError> {
    if OwnedIn(rows, id, worker) then Commit(rows[id := FailRow(rows[id], now, failure)]) else Err(NotOwned)
  }

  function RequeueTx(rows: Rows, id: Uuid, worker: WorkerId, now: Instant, payload: Payload, delay: int, reset: bool)
    : Result<Rows, TxError>
  {
    if OwnedIn(rows, id, worker) then Commit(rows[id := RequeueRow(rows[id], now, payload, delay, reset)])
    else Err(NotOwned)
  }

  /** The heartbeat also tests the attempt number; updating no row is not an error. */
  function HeartbeatTx(rows: Rows, id: Uuid, worker: WorkerId, attempts: nat, now: Instant): Rows {
    if OwnedIn(rows, id, worker) && rows[id].attempts == attempts then rows[id := HeartbeatRow(rows[id], now)]
    else rows
  }

  /** Stale rows the first recovery statement buries, `locked` being job locks held by other sessions. */
  function StaleExhausted(rows: Rows, now: Instant, staleAfter: int, locked: set<Uuid>): set<Uuid> {
    set id | id in rows && id !in locked && Stale(rows[id], now, staleAfter)
             && rows[id].attempts >= rows[id].maxAttempts
  }

  /** Stale rows the second recovery statement hands back. */
  function StaleRetryable(rows: Rows, now: Instant, staleAfter: int, locked: set<Uuid>): set<Uuid> {
    set id | id in rows && id !in locked && Stale(rows[id], now, staleAfter)
             && rows[id].attempts < rows[id].maxAttempts
  }

  function Recover(rows: Rows, buried: set<Uuid>, retried: set<Uuid>, now: Instant): Rows {
    map id | id in rows ::
      if id in buried then BuryStaleRow(rows[id], now)
      else if id in retried then RetryStaleRow(rows[id], now)
      else rows[id]
  }

  /** The waiting row of a repository, the one ON CONFLICT finds. */
  function WaitingSlot(rows: Rows, repository: Uuid): (slot: Option<Uuid>)
    requires UniqueWaiting(rows)
    ensures slot.Some? ==> slot.value in rows && IsSlot(rows[slot.value], repository)
    ensures slot.None? ==> forall id | id in rows :: !IsSlot(rows[id], repository)
  {
    var slots := set id | id in rows && IsSlot(rows[id], repository);
    assert forall id | id in rows :: IsSlot(rows[id], repository) ==> id in slots;
    if slots == {} then None
    else
      assert forall a, b | a in slots && b in slots :: SameSlot(rows[a], rows[b]);
      var id :| id in slots;
      Some(id)
  }

  predicate IsSlot(row: Row, repository: Uuid) {
    Waiting(row) && row.jobType.RecalculateMetrics? && row.repositoryId == Some(repository)
  }

  function MetricsPayload(workspace: Uuid, repository: Uuid, affected: Option<Range>): Payload {
    Payload(Absent, WellFormed(repository), Absent, WellFormed(workspace), Absent, Absent, Absent, affected, "")
  }

  function MetricsRow(now: Instant, workspace: Uuid, repository: Uuid, affected: Option<Range>, maxAttempts: nat): Row {
    Row(RecalculateMetrics, Pending, 100, now, now, 0, maxAttempts, None, None, None, None,
        MetricsPayload(workspace, repository, affected), Some(workspace), Some(repository), None, 0)
  }

  /** INSERT ... ON CONFLICT DO UPDATE: the id of the row written, and the table after. */
  function EnqueueMetricsTx(rows: Rows, newId: Uuid, now: Instant, workspace: Uuid, repository: Uuid,
                            affected: Option<Range>, maxAttempts: nat): (Uuid, Rows)
    requires UniqueWaiting(rows)
  {
    match WaitingSlot(rows, repository)
    case Some(id) => (id, rows[id := MergeRow(rows[id], now, MetricsPayload(workspace, repository, affected))])
    case None => (newId, rows[newId := MetricsRow(now, workspace, repository, affected, maxAttempts)])
  }

  // ----- dispatch ------------------------------------------------------------------------------

  datatype HandlerResult =
    | Returned
    | Requeued(payload: Payload, delay: int, reset: bool)
    | RaisedPermanent(error: string)
    | RaisedProvider(error: string, retryAfter: Option<int>)
    | RaisedOther(error: string)

  datatype Outcome = SucceededJob | RetryScheduled | DeadLettered | ContinuationRequeued

  function StatusOf(outcome: Outcome): Status {
    match outcome
    case SucceededJob => Succeeded
    case RetryScheduled => Failed
    case DeadLettered => Dead
    case ContinuationRequeued => Pending
  }

  function FailureOutcome(row: Row, failure: Failure): Outcome {
    if failure.permanent || row.attempts >= row.maxAttempts then DeadLettered else RetryScheduled
  }

  const REQUEUE_ERROR := "the requeue transaction failed"

  /** The failure `mark_failed` is called with straight away, if the handler did not end well. */
  function FailureOf(jobType: JobType, handled: HandlerResult, jitter: int): Option<Failure> {
    if jobType.Unsupported? then Some(Failure("UNSUPPORTED_JOB_TYPE: " + jobType.name, true, jitter, None))
    else
      match handled
      case Returned => None
      case Requeued(_, _, _) => None
      case RaisedPermanent(error) => Some(Failure(error, true, jitter, None))
      case RaisedProvider(error, retryAfter) => Some(Failure(error, false, jitter, retryAfter))
      case RaisedOther(error) => Some(Failure(error, false, jitter, None))
  }

  function DispatchFailure(rows: Rows, id: Uuid, worker: WorkerId, now: Instant, failure: Failure)
    : (Rows, Result<Outcome, TxError>)
  {
    if !OwnedIn(rows, id, worker) then (rows, Err(NotOwned))
    else
      match FailTx(rows, id, worker, now, failure)
      case Err(e) => (rows, Err(e))
      case Ok(after) => (after, Ok(FailureOutcome(rows[id], failure)))
  }

  /** What one execution of `dispatch_job` writes, and the outcome it reports. */
  function DispatchTx(rows: Rows, id: Uuid, jobType: JobType, worker: WorkerId, now: Instant, jitter: int,
                      handled: HandlerResult): (Rows, Result<Outcome, TxError>)
  {
    match FailureOf(jobType, handled, jitter)
    case Some(failure) => DispatchFailure(rows, id, worker, now, failure)
    case None =>
      if handled.Requeued? then
        match RequeueTx(rows, id, worker, now, handled.payload, handled.delay, handled.reset)
        case Ok(after) => (after, Ok(ContinuationRequeued))
        // To the dispatcher a failed requeue is an ordinary exception of the handler.
        case Err(_) => DispatchFailure(rows, id, worker, now, Failure(REQUEUE_ERROR, false, jitter, None))
      else
        match SucceedTx(rows, id, worker, now)
        case Ok(after) => (after, Ok(SucceededJob))
        case Err(e) => (rows, Err(e))
  }

  // ----- what the transactions keep ------------------------------------------------------------

  /** Another row already holds the index entry that `row` would need. */
  ghost predicate SlotTaken(rows: Rows, id: Uuid, row: Row) {
    exists other | other in rows :: other != id && SameSlot(rows[other], row)
  }

  /** A single-row write is rolled back exactly when the row's index entry is taken. */
  lemma CommitFailsIffSlotTaken(rows: Rows, id: Uuid, row: Row)
    requires UniqueWaiting(rows)
    ensures UniqueWaiting(rows[id := row]) <==> !SlotTaken(rows, id, row)
  {
    var after := rows[id := row];
    if !UniqueWaiting(after) {
      var a, b :| a in after && b in after && SameSlot(after[a], after[b]) && a != b;
      var other := if a == id then b else a;
      assert SameSlot(rows[other], row);
    }
    if SlotTaken(rows, id, row) {
      var other :| other in rows && other != id && SameSlot(rows[other], row);
      assert SameSlot(after[other], after[id]);
    }
  }

  /** One committed write ends the claim of row `id`, and no other row changes. */
  ghost predicate EndsClaim(rows: Rows, after: Rows, id: Uuid, outcome: Outcome) {
    && id in rows && id in after && after == rows[id := after[id]]
    && rows[id].status.Running?
    && after[id].status == StatusOf(outcome)
    && after[id].version == rows[id].version + 1
    && RowOk(after[id])
  }

  /** A waiting recalculation of the same repository stands in the way of the row's return to waiting. */
  ghost predicate RivalWaits(rows: Rows, id: Uuid)
    requires id in rows
  {
    exists other | other in rows :: other != id && Waiting(rows[other]) && Rivals(rows[other], rows[id])
  }

  /** A rewritten row collides exactly when it waits and a rival waits too. */
  lemma CollidesIff(rows: Rows, id: Uuid, row: Row)
    requires UniqueWaiting(rows) && id in rows
    requires row.jobType == rows[id].jobType && row.repositoryId == rows[id].repositoryId
    ensures !UniqueWaiting(rows[id := row]) <==> Waiting(row) && RivalWaits(rows, id)
  {
    CommitFailsIffSlotTaken(rows, id, row);
    if Waiting(row) && RivalWaits(rows, id) {
      var other :| other in rows && other != id && Waiting(rows[other]) && Rivals(rows[other], rows[id]);
      assert SameSlot(rows[other], row);
    }
  }

  /**
    A failure ends the claim by its owner: DEAD if the error is permanent or the attempts are spent,
    else FAILED. It changes nothing exactly when the worker does not own the row, or the row would
    go back to waiting beside a waiting rival.
  */
  lemma FailureEndsClaim(rows: Rows, id: Uuid, worker: WorkerId, now: Instant, failure: Failure)
    requires TableOk(rows)
    ensures var (after, r) := DispatchFailure(rows, id, worker, now, failure);
            && (r.Ok? ==> TableOk(after) && EndsClaim(rows, after, id, r.value))
            && (r.Ok? ==> r.value == if failure.permanent || rows[id].attempts == rows[id].maxAttempts
                                     then DeadLettered else RetryScheduled)
            && (r.Err? ==> after == rows && r.error != BadArgument)
            && (r == Err(NotOwned) <==> !OwnedIn(rows, id, worker))
            && (r == Err(IndexConflict) <==>
                  OwnedIn(rows, id, worker) && !failure.permanent && rows[id].attempts < rows[id].maxAttempts
                  && RivalWaits(rows, id))
  {
    if OwnedIn(rows, id, worker) {
      CollidesIff(rows, id, FailRow(rows[id], now, failure));
    }
  }

  /** Results after which the row goes back to waiting, if it has attempts left. */
  predicate WantsRetry(jobType: JobType, handled: HandlerResult) {
    !jobType.Unsupported? && (handled.Requeued? || handled.RaisedProvider? || handled.RaisedOther?)
  }

  lemma RequeueFailsIff(rows: Rows, id: Uuid, worker: WorkerId, now: Instant, payload: Payload, delay: int, reset: bool)
    requires TableOk(rows)
    ensures var r := RequeueTx(rows, id, worker, now, payload, delay, reset);
            && (r.Ok? ==> TableOk(r.value) && EndsClaim(rows, r.value, id, ContinuationRequeued))
            && (r.Err? <==> !OwnedIn(rows, id, worker) || RivalWaits(rows, id))
  {
    if OwnedIn(rows, id, worker) {
      CollidesIff(rows, id, RequeueRow(rows[id], now, payload, delay, reset));
    }
  }

  /**
    A dispatch by the owner ends the claim exactly once and reports the row state it committed.
    It changes nothing exactly when the worker does not own the row, or when the handler's result
    asks for a retry, attempts are left, and a rival waits. There is no third way to fail.
  */
  lemma DispatchReportsRow(rows: Rows, id: Uuid, jobType: JobType, worker: WorkerId, now: Instant, jitter: int,
                           handled: HandlerResult)
    requires TableOk(rows)
    ensures var (after, r) := DispatchTx(rows, id, jobType, worker, now, jitter, handled);
            && TableOk(after)
            && (r.Ok? ==> OwnedIn(rows, id, worker) && EndsClaim(rows, after, id, r.value))
            && (r.Err? ==> after == rows && r.error != BadArgument)
            && (r == Err(NotOwned) <==> !OwnedIn(rows, id, worker))
            && (r == Err(IndexConflict) <==>
                  OwnedIn(rows, id, worker) && WantsRetry(jobType, handled)
                  && rows[id].attempts < rows[id].maxAttempts && RivalWaits(rows, id))
  {
    match FailureOf(jobType, handled, jitter)
    case Some(failure) => FailureEndsClaim(rows, id, worker, now, failure);
    case None =>
      if handled.Requeued? {
        RequeueFailsIff(rows, id, worker, now, handled.payload, handled.delay, handled.reset);
        FailureEndsClaim(rows, id, worker, now, Failure(REQUEUE_ERROR, false, jitter, None));
      } else if OwnedIn(rows, id, worker) {
        CollidesIff(rows, id, SucceedRow(rows[id], now));
      }
  }

  /**
    A heartbeat moves `locked_at` of the very claim it is for, running, of this worker and of this
    attempt, and of no other; from then on that row is stale exactly one interval later.
  */
  lemma HeartbeatWrites(rows: Rows, id: Uuid, worker: WorkerId, attempts: nat, now: Instant, staleAfter: int)
    ensures var after := HeartbeatTx(rows, id, worker, attempts, now);
            if id in rows && rows[id].status == Running && rows[id].lockedBy == Some(worker)
               && rows[id].attempts == attempts
            then && id in after && after == rows[id := after[id]]
                 && after[id] == rows[id].(lockedAt := after[id].lockedAt)
                 && forall t :: Stale(after[id], t, staleAfter) <==> now + staleAfter <= t
            else after == rows
  {
  }

  /** Recovery keeps the table exactly when no repository ends up with two waiting recalculations. */
  lemma RecoveryKeepsTable(rows: Rows, buried: set<Uuid>, retried: set<Uuid>, now: Instant)
    requires TableOk(rows)
    requires forall id | id in retried ::
               id in rows && rows[id].status.Running? && rows[id].attempts < rows[id].maxAttempts
    requires UniqueWaiting(Recover(rows, buried, retried, now))
    ensures TableOk(Recover(rows, buried, retried, now))
  {
  }

  /** A stale row to retry competes for an index entry with a waiting row, or with another one to retry. */
  ghost predicate RecoveryCollides(rows: Rows, now: Instant, staleAfter: int, locked: set<Uuid>) {
    var retried := StaleRetryable(rows, now, staleAfter, locked);
    exists a, b | a in retried && b in rows && a != b :: (b in retried || Waiting(rows[b])) && Rivals(rows[a], rows[b])
  }

  /**
    The two recovery statements and the claim form one transaction, so one collision rolls all of
    it back. Recovery commits if and only if no stale row to retry competes for an index entry with
    a waiting row or with another stale row to retry.
  */
  lemma RecoveryCommitsIff(rows: Rows, now: Instant, staleAfter: int, locked: set<Uuid>)
    requires UniqueWaiting(rows)
    ensures UniqueWaiting(Recover(rows, StaleExhausted(rows, now, staleAfter, locked),
                                  StaleRetryable(rows, now, staleAfter, locked), now))
            <==> !RecoveryCollides(rows, now, staleAfter, locked)
  {
    var buried := StaleExhausted(rows, now, staleAfter, locked);
    var retried := StaleRetryable(rows, now, staleAfter, locked);
    var after := Recover(rows, buried, retried, now);
    if !RecoveryCollides(rows, now, staleAfter, locked) {
      forall a, b | a in after && b in after && SameSlot(after[a], after[b]) ensures a == b {
        assert Rivals(rows[a], rows[b]) && Rivals(rows[b], rows[a]);
        if a !in retried && b !in retried {
          assert SameSlot(rows[a], rows[b]);
        }
      }
    } else {
      var a, b :| a in retried && b in rows && a != b && (b in retried || Waiting(rows[b])) && Rivals(rows[a], rows[b]);
      assert SameSlot(after[a], after[b]);
    }
  }

  /** A coalescing enqueue never collides: it merges into the waiting row whenever there is one. */
  lemma EnqueueKeepsTable(rows: Rows, newId: Uuid, now: Instant, workspace: Uuid, repository: Uuid,
                          affected: Option<Range>, maxAttempts: nat)
    requires TableOk(rows) && newId !in rows && 0 < maxAttempts
    ensures var (id, after) := EnqueueMetricsTx(rows, newId, now, workspace, repository, affected, maxAttempts);
            && TableOk(after) && id in after && IsSlot(after[id], repository)
            && after[id].attempts == 0 && after[id].availableAt == now
            && (forall other | other in rows && other != id :: other in after && after[other] == rows[other])
            && (affected.Some? ==> Covers(after[id].payload.affected, affected.value))
            && (id in rows && rows[id].payload.affected.Some? ==>
                  Covers(after[id].payload.affected, rows[id].payload.affected.value))
  {
    var (id, after) := EnqueueMetricsTx(rows, newId, now, workspace, repository, affected, maxAttempts);
    CommitFailsIffSlotTaken(rows, id, after[id]);
    forall other | other in rows && SameSlot(rows[other], after[id]) ensures IsSlot(rows[other], repository) {
    }
    if id in rows {
      assert forall other | other in rows && IsSlot(rows[other], repository) :: SameSlot(rows[other], rows[id]);
    }
  }

  /** The columns that tell jobs apart and order them, which no update touches. */
  predicate SameColumns(row: Row, before: Row) {
    && row.jobType == before.jobType && row.priority == before.priority && row.createdAt == before.createdAt
    && row.maxAttempts == before.maxAttempts && row.workspaceId == before.workspaceId
    && row.repositoryId == before.repositoryId && row.rawEventId == before.rawEventId
  }

  /**
    What an enqueue writes: a due, unlocked row without an error, whose payload names the repository
    and the workspace and no event; a new row with the two ids in its columns and priority 100, or the
    waiting row of the repository with its columns as they were.
  */
  lemma EnqueueWrites(rows: Rows, newId: Uuid, now: Instant, workspace: Uuid, repository: Uuid,
                      affected: Option<Range>, maxAttempts: nat)
    requires UniqueWaiting(rows) && newId !in rows
    ensures var (id, after) := EnqueueMetricsTx(rows, newId, now, workspace, repository, affected, maxAttempts);
            && id in after && after == rows[id := after[id]]
            && var row := after[id];
               && row.payload.repositorySnake == WellFormed(repository) && row.payload.repositoryId.Absent?
               && row.payload.workspaceSnake == WellFormed(workspace) && row.payload.workspaceId.Absent?
               && row.payload.rawEventId.Absent? && row.payload.rawEventSnake.Absent?
               && row.status.Pending? && row.attempts == 0 && row.availableAt == now && row.lastError == None
               && row.jobType.RecalculateMetrics? && row.repositoryId == Some(repository)
               && (if id in rows then SameColumns(row, rows[id]) && IsSlot(rows[id], repository)
                   else && id == newId && row.workspaceId == Some(workspace) && row.rawEventId.None?
                        && row.priority == 100 && row.createdAt == now && row.maxAttempts == maxAttempts
                        && row.payload.affected == affected && row.lockedAt.None? && row.lockedBy.None?
                        && row.finishedAt.None?)
  {
  }

  /**
    A request without a range asks for the default period. After an enqueue the written row asks for
    it exactly when the request does and the waiting row it found, if any, did too.
  */
  lemma UnrangedEnqueueIff(rows: Rows, newId: Uuid, now: Instant, workspace: Uuid, repository: Uuid,
                           affected: Option<Range>, maxAttempts: nat)
    requires UniqueWaiting(rows) && newId !in rows
    ensures var (id, after) := EnqueueMetricsTx(rows, newId, now, workspace, repository, affected, maxAttempts);
            after[id].payload.affected.None? <==>
              affected.None?
              && forall slot | slot in rows && IsSlot(rows[slot], repository) :: rows[slot].payload.affected.None?
  {
    var (id, after) := EnqueueMetricsTx(rows, newId, now, workspace, repository, affected, maxAttempts);
    if id in rows {
      SlotIsUnique(rows, id, repository);
    }
  }

  lemma SlotIsUnique(rows: Rows, id: Uuid, repository: Uuid)
    requires UniqueWaiting(rows) && id in rows && IsSlot(rows[id], repository)
    ensures WaitingSlot(rows, repository) == Some(id)
    ensures forall slot | slot in rows && IsSlot(rows[slot], repository) :: slot == id
  {
    assert forall slot | slot in rows && IsSlot(rows[slot], repository) :: SameSlot(rows[slot], rows[id]);
  }
}
