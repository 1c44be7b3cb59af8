/**
  The durable job table as an object whose methods are the queue's transactions. Each method is
  proved against the transaction function of `Queue` and keeps the table invariant.
*/
module JobTables {
  import opened Prelude
  import opened Jobs
  import opened ClaimOrder
  import opened Queue

  datatype StaleJobRecovery = StaleJobRecovery(retryable: nat, dead: nat)

  class JobTable {
    var rows: Rows

    ghost predicate Valid()
      reads this
    {
      TableOk(rows)
    }

    constructor ()
      ensures Valid() && rows == map[]
    {
      rows := map[];
    }

    method MarkSucceeded(id: Uuid, worker: WorkerId, now: Instant) returns (r: Result<(), TxError>)
      requires Valid()
      modifies this
      ensures Valid()
      ensures rows == After(old(rows), SucceedTx(old(rows), id, worker, now))
      ensures r == if OwnedIn(old(rows), id, worker) then Ok(()) else Err(NotOwned)
    {
      if id in rows && rows[id].status == Running && rows[id].lockedBy == Some(worker) {
        CommitFailsIffSlotTaken(rows, id, SucceedRow(rows[id], now));
        rows := rows[id := SucceedRow(rows[id], now)];
        r := Ok(());
      } else {
        r := Err(NotOwned);
      }
    }

    method MarkFailed(id: Uuid, worker: WorkerId, now: Instant, failure: Failure)
      returns (r: Result<Outcome, TxError>)
      requires Valid()
      modifies this
      ensures Valid()
      ensures (rows, r) == DispatchFailure(old(rows), id, worker, now, failure)
    {
      FailureEndsClaim(rows, id, worker, now, failure);
      if !OwnedIn(rows, id, worker) {
        return Err(NotOwned);
      }
      var row := rows[id];
      if failure.permanent || row.attempts >= row.maxAttempts {
        CommitFailsIffSlotTaken(rows, id, BuryRow(row, now, failure.error));
        rows := rows[id := BuryRow(row, now, failure.error)];
        return Ok(DeadLettered);
      }
      var delay := RetryDelay(row.attempts, failure.jitter);
      if failure.retryAfter.Some? {
        delay := Min(MAX_DELAY, Max(delay, Max(0, failure.retryAfter.value)));
      }
      var after := rows[id := RetryRow(row, now, failure.error, delay)];
      if UniqueWaiting(after) {
        rows := after;
        r := Ok(RetryScheduled);
      } else {
        r := Err(IndexConflict);
      }
    }

    method RequeueWithPayload(id: Uuid, worker: WorkerId, now: Instant, payload: Payload, delay: int, reset: bool)
      returns (r: Result<(), TxError>)
      requires Valid()
      modifies this
      ensures Valid()
      ensures rows == After(old(rows), RequeueTx(old(rows), id, worker, now, payload, delay, reset))
      ensures r.Ok? <==> RequeueTx(old(rows), id, worker, now, payload, delay, reset).Ok?
    {
      if id !in rows || !Owned(rows[id], worker) {
        return Err(NotOwned);
      }
      var after := rows[id := RequeueRow(rows[id], now, payload, delay, reset)];
      if UniqueWaiting(after) {
        rows := after;
        r := Ok(());
      } else {
        r := Err(IndexConflict);
      }
    }

    method Heartbeat(id: Uuid, worker: WorkerId, attempts: nat, now: Instant)
      requires Valid()
      modifies this
      ensures Valid()
      ensures rows == HeartbeatTx(old(rows), id, worker, attempts, now)
    {
      if id in rows && Owned(rows[id], worker) && rows[id].attempts == attempts {
        CommitFailsIffSlotTaken(rows, id, HeartbeatRow(rows[id], now));
        rows := rows[id := HeartbeatRow(rows[id], now)];
      }
    }

    /** The dispatcher: one handler result, one finalization, one reported outcome. */
    method DispatchJob(id: Uuid, jobType: JobType, worker: WorkerId, now: Instant, jitter: int, handled: HandlerResult)
      returns (r: Result<Outcome, TxError>)
      requires Valid()
      modifies this
      ensures Valid()
      ensures (rows, r) == DispatchTx(old(rows), id, jobType, worker, now, jitter, handled)
    {
      if jobType.Unsupported? {
        r := MarkFailed(id, worker, now, Failure("UNSUPPORTED_JOB_TYPE: " + jobType.name, true, jitter, None));
        return;
      }
      match handled {
        case Returned =>
          var done := MarkSucceeded(id, worker, now);
          r := if done.Ok? then Ok(SucceededJob) else Err(done.error);
        case Requeued(payload, delay, reset) =>
          var done := RequeueWithPayload(id, worker, now, payload, delay, reset);
          if done.Ok? {
            r := Ok(ContinuationRequeued);
          } else {
            r := MarkFailed(id, worker, now, Failure(REQUEUE_ERROR, false, jitter, None));
          }
        case RaisedPermanent(error) =>
          r := MarkFailed(id, worker, now, Failure(error, true, jitter, None));
        case RaisedProvider(error, retryAfter) =>
          r := MarkFailed(id, worker, now, Failure(error, false, jitter, retryAfter));
        case RaisedOther(error) =>
          r := MarkFailed(id, worker, now, Failure(error, false, jitter, None));
      }
    }

    /** The first recovery statement, then the second on what the first left. */
    method RecoverStaleJobs(now: Instant, staleAfter: int, locked: set<Uuid>) returns (recovery: StaleJobRecovery)
      modifies this
      ensures rows == Recover(old(rows), StaleExhausted(old(rows), now, staleAfter, locked),
                              StaleRetryable(old(rows), now, staleAfter, locked), now)
      ensures recovery.dead == |StaleExhausted(old(rows), now, staleAfter, locked)|
      ensures recovery.retryable == |StaleRetryable(old(rows), now, staleAfter, locked)|
    {
      var buried := StaleExhausted(rows, now, staleAfter, locked);
      rows := map id | id in rows :: if id in buried then BuryStaleRow(rows[id], now) else rows[id];
      var retried := StaleRetryable(rows, now, staleAfter, locked);
      assert retried == StaleRetryable(old(rows), now, staleAfter, locked);
      rows := map id | id in rows :: if id in retried then RetryStaleRow(rows[id], now) else rows[id];
      recovery := StaleJobRecovery(|retried|, |buried|);
    }

    /**
      Recover and claim in one transaction. `locked` are jobs whose advisory lock another session
      holds, `skipped` rows that another transaction has row-locked. The jobs come back sorted,
      although the UPDATE returns them in no particular order.
    */
    method ClaimJobs(worker: WorkerId, limit: int, now: Instant, staleAfterSeconds: int,
                     locked: set<Uuid>, skipped: set<Uuid>)
      returns (r: Result<(seq<Uuid>, StaleJobRecovery), TxError>)
      requires Valid()
      modifies this
      ensures Valid()
      ensures r == Err(BadArgument) <==>
                !(1 <= |worker| <= 128 && 1 <= limit <= 100 && 30 <= staleAfterSeconds <= 86_400)
      ensures r.Err? ==> rows == old(rows)
      ensures var buried := StaleExhausted(old(rows), now, staleAfterSeconds * SECOND, locked);
              var retried := StaleRetryable(old(rows), now, staleAfterSeconds * SECOND, locked);
              var recovered := Recover(old(rows), buried, retried, now);
              && (r.Ok? ==>
                    && r.value.0 == ChosenBy(recovered, now, skipped, limit)
                    && rows == MarkClaimed(recovered, Members(r.value.0), now, worker)
                    && r.value.1 == StaleJobRecovery(|retried|, |buried|))
              && (r == Err(IndexConflict) <==> r != Err(BadArgument) && !UniqueWaiting(recovered))
      ensures r != Err(NotOwned)
    {
      if |worker| == 0 || |worker| > 128 { return Err(BadArgument); }
      if limit < 1 || limit > 100 { return Err(BadArgument); }
      if staleAfterSeconds < 30 || staleAfterSeconds > 86_400 { return Err(BadArgument); }
      var before := rows;
      var recovery := RecoverStaleJobs(now, staleAfterSeconds * SECOND, locked);
      if !UniqueWaiting(rows) {
        rows := before;
        return Err(IndexConflict);
      }
      RecoveryKeepsTable(before, StaleExhausted(before, now, staleAfterSeconds * SECOND, locked),
                         StaleRetryable(before, now, staleAfterSeconds * SECOND, locked), now);
      ghost var recovered := rows;
      var eligible := Eligible(rows, now, skipped);
      var claimed := Members(SortedIds(rows, eligible)[..Min(limit, |eligible|)]);
      PrefixIsSorted(rows, eligible, Min(limit, |eligible|));
      ClaimKeepsTable(rows, claimed, now, worker);
      rows := map id | id in rows :: if id in claimed then ClaimRow(rows[id], now, worker) else rows[id];
      OrderSurvivesUpdates(recovered, rows, claimed);
      var jobs := SortedIds(rows, claimed);
      r := Ok((jobs, recovery));
    }

    /** Any other insertion. */
    method Insert(id: Uuid, row: Row) returns (r: Result<(), TxError>)
      requires Valid() && id !in rows && FreshRow(row)
      modifies this
      ensures Valid()
      ensures rows == After(old(rows), Commit(old(rows)[id := row]))
    {
      if UniqueWaiting(rows[id := row]) {
        rows := rows[id := row];
        r := Ok(());
      } else {
        r := Err(IndexConflict);
      }
    }

    method EnqueueRecalculateMetrics(newId: Uuid, now: Instant, workspace: Uuid, repository: Uuid,
                                     affected: Option<Range>, maxAttempts: nat) returns (id: Uuid)
      requires Valid() && newId !in rows && 0 < maxAttempts
      modifies this
      ensures Valid()
      ensures (id, rows) == EnqueueMetricsTx(old(rows), newId, now, workspace, repository, affected, maxAttempts)
      ensures id in rows && IsSlot(rows[id], repository)
      ensures affected.Some? ==> Covers(rows[id].payload.affected, affected.value)
    {
      EnqueueKeepsTable(rows, newId, now, workspace, repository, affected, maxAttempts);
      var payload := MetricsPayload(workspace, repository, affected);
      var slot := WaitingSlot(rows, repository);
      match slot {
        case Some(waiting) =>
          id := waiting;
          rows := rows[id := MergeRow(rows[id], now, payload)];
        case None =>
          id := newId;
          rows := rows[id := MetricsRow(now, workspace, repository, affected, maxAttempts)];
      }
    }
  }

  lemma ClaimKeepsTable(rows: Rows, ids: set<Uuid>, now: Instant, worker: WorkerId)
    requires TableOk(rows) && forall id | id in ids :: id in rows && Claimable(rows[id], now)
    ensures TableOk(MarkClaimed(rows, ids, now, worker))
  {
    var after := MarkClaimed(rows, ids, now, worker);
    forall a, b | a in after && b in after && SameSlot(after[a], after[b]) ensures a == b {
      assert SameSlot(rows[a], rows[b]);
    }
  }
}
