/** Attempts are accounted for, and recalculation requests are kept. */
module RequestInvariants {
  import opened Prelude
  import opened Jobs
  import opened Queue
  import opened Leases
  import opened Protocol
  import opened ClaimInvariants

  // ----- attempts ------------------------------------------------------------------------------

  /** Attempts are the claims minus the hand-backs since the last reset. */
  ghost predicate TallyOk(s: System) {
    forall id | id in s.rows :: id in s.tally && s.rows[id].attempts == s.tally[id].claims - s.tally[id].handBacks
  }

  /** A dispatch seen through the attempts of the one row it may write. */
  lemma TallyAfterDispatch(s: System, t: System, id: Uuid, continued: bool, reset: bool)
    requires TallyOk(s) && id in s.rows && id in t.rows && t.rows == s.rows[id := t.rows[id]]
    requires t.rows[id].attempts == if !continued then s.rows[id].attempts
                                    else if reset then 0 else s.rows[id].attempts - 1
    requires t.tally == if continued then HandedBack(s, id, reset) else s.tally
    ensures TallyOk(t)
  {
  }

  lemma TallyDispatch(env: Environment, s: System, w: WorkerId, handled: HandlerResult, jitter: int)
    requires TableOk(s.rows) && TallyOk(s) && Enabled(env, s, Dispatch(w, handled, jitter))
    ensures TallyOk(Apply(env, s, Dispatch(w, handled, jitter)))
  {
    var c := s.phases[w].claim;
    DispatchReportsRow(s.rows, c.job, c.row.jobType, w, s.now, jitter, handled);
    var (after, r) := ApplyDispatch(s, w, c, handled, jitter);
    if r.Ok? {
      AttemptsAfterDispatch(s.rows, c.job, c.row.jobType, w, s.now, jitter, handled);
      var continued := r.value.ContinuationRequeued?;
      TallyAfterDispatch(s, after, c.job, continued, continued && handled.reset);
    }
    TallySame(after, Apply(env, s, Dispatch(w, handled, jitter)));
  }

  lemma TallySame(s: System, t: System)
    requires TallyOk(s) && t.rows == s.rows && t.tally == s.tally
    ensures TallyOk(t)
  {
  }

  /** Only a continuation changes the attempts, by one or to zero; it never meets the floor at zero. */
  lemma AttemptsAfterDispatch(rows: Rows, id: Uuid, jobType: JobType, w: WorkerId, now: Instant, jitter: int,
                              handled: HandlerResult)
    requires TableOk(rows) && DispatchTx(rows, id, jobType, w, now, jitter, handled).1.Ok?
    ensures var (after, r) := DispatchTx(rows, id, jobType, w, now, jitter, handled);
            && id in rows && id in after
            && (if r.value.ContinuationRequeued? then
                  && handled.Requeued? && 1 <= rows[id].attempts
                  && after[id].attempts == (if handled.reset then 0 else rows[id].attempts - 1)
                else after[id].attempts == rows[id].attempts)
  {
  }

  lemma TallyPoll(env: Environment, s: System, w: WorkerId, staleAfter: int, buried: set<Uuid>, retried: set<Uuid>,
                  picked: Option<Uuid>)
    requires TallyOk(s) && Enabled(env, s, Poll(w, staleAfter, buried, retried, picked))
    ensures TallyOk(Apply(env, s, Poll(w, staleAfter, buried, retried, picked)))
  {
    assert TallyOk(ApplyRecovery(s, buried, retried));
  }

  lemma TallyEnqueue(env: Environment, s: System, step: Step)
    requires TableOk(s.rows) && TallyOk(s) && Enabled(env, s, step) && step.EnqueueMetrics?
    ensures TallyOk(Apply(env, s, step))
  {
    EnqueueKeepsTable(s.rows, step.newId, s.now, step.workspace, step.repository, step.affected, step.maxAttempts);
    var t := ApplyEnqueue(s, step.newId, step.workspace, step.repository, step.affected, step.maxAttempts);
    forall id | id in t.rows
      ensures id in t.tally && t.rows[id].attempts == t.tally[id].claims - t.tally[id].handBacks
    {
    }
  }

  lemma TallyDefer(env: Environment, s: System, w: WorkerId)
    requires TableOk(s.rows) && TallyOk(s) && Enabled(env, s, Defer(w))
    ensures TallyOk(Apply(env, s, Defer(w)))
  {
  }

  lemma TallyStep(env: Environment, s: System, step: Step)
    requires TableOk(s.rows) && TallyOk(s) && Enabled(env, s, step)
    ensures TallyOk(Apply(env, s, step))
  {
    if MovesOnly(step) {
      MovesOnlyEffect(env, s, step);
    } else {
      match step
      case Poll(w, staleAfter, buried, retried, picked) => TallyPoll(env, s, w, staleAfter, buried, retried, picked);
      case Dispatch(w, handled, jitter) => TallyDispatch(env, s, w, handled, jitter);
      case Defer(w) => TallyDefer(env, s, w);
      case EnqueueMetrics(_, _, _, _, _) => TallyEnqueue(env, s, step);
      case Beat(w) => assert TallyOk(s);
      case _ =>
    }
  }

  // ----- recalculation requests ----------------------------------------------------------------

  /**
    The row a request went to still covers it, and either waits or was claimed after the request.
    Once that row succeeded, the execution that did so had claimed a range covering the request.
  */
  ghost predicate RequestOk(s: System, q: Request) {
    && q.serial <= |s.claims|
    && q.job in s.rows && s.rows[q.job].jobType.RecalculateMetrics?
    && s.rows[q.job].repositoryId == Some(q.repository)
    && AsksFor(s.rows[q.job].payload, q.repository, q.range)
    && (Waiting(s.rows[q.job]) || (q.job in s.latest && q.serial <= s.latest[q.job]))
  }

  /** What the last execution of a succeeded row was given. */
  ghost predicate ServedOk(s: System) {
    forall id | id in s.rows && s.rows[id].status.Succeeded? ::
      id in s.latest && id in s.served && s.served[id] == (s.latest[id], s.rows[id].payload)
  }

  ghost predicate RequestsOk(s: System) {
    ServedOk(s) && forall q | q in s.requests :: RequestOk(s, q)
  }

  /** The payload names the repository it named, or the row's own. */
  predicate KeepsRepository(before: Row, row: Row) {
    row.payload.repositorySnake == before.payload.repositorySnake
    || (row.repositoryId.Some? && row.payload.repositorySnake == WellFormed(row.repositoryId.value))
  }

  /** `t` keeps every request when each requested row keeps its range and waits or keeps its claim. */
  ghost predicate RowKeepsRequests(s: System, t: System, id: Uuid) {
    && id in s.rows && id in t.rows
    && (s.rows[id].jobType.RecalculateMetrics? ==> KeepsRepository(s.rows[id], t.rows[id]))
    && t.rows[id].jobType == s.rows[id].jobType && t.rows[id].repositoryId == s.rows[id].repositoryId
    && (s.rows[id].jobType.RecalculateMetrics? && s.rows[id].payload.affected.Some? ==>
          Covers(t.rows[id].payload.affected, s.rows[id].payload.affected.value))
    && (!Waiting(t.rows[id]) ==>
          id in t.latest
          && (t.latest[id] == |s.claims|
              || (!Waiting(s.rows[id]) && id in s.latest && t.latest[id] == s.latest[id])))
  }

  lemma RequestsKept(s: System, t: System)
    requires RequestsOk(s) && ServedOk(t) && |s.claims| <= |t.claims| && t.requests == s.requests
    requires forall q | q in s.requests :: RowKeepsRequests(s, t, q.job)
    ensures RequestsOk(t)
  {
    forall q | q in t.requests ensures RequestOk(t, q) {
      assert RequestOk(s, q) && RowKeepsRequests(s, t, q.job);
    }
  }

  lemma RequestsRecovery(s: System, buried: set<Uuid>, retried: set<Uuid>)
    requires RequestsOk(s)
    requires forall id | id in buried + retried :: id in s.rows && s.rows[id].status.Running?
    ensures RequestsOk(ApplyRecovery(s, buried, retried))
  {
    var t := ApplyRecovery(s, buried, retried);
    forall q | q in s.requests ensures RowKeepsRequests(s, t, q.job) {
      assert RequestOk(s, q);
    }
    RequestsKept(s, t);
  }

  lemma RequestsClaim(s: System, w: WorkerId, id: Uuid)
    requires RequestsOk(s) && id in s.rows && Waiting(s.rows[id])
    ensures RequestsOk(ApplyClaim(s, w, id))
  {
    var t := ApplyClaim(s, w, id);
    forall q | q in s.requests ensures RowKeepsRequests(s, t, q.job) {
      assert RequestOk(s, q);
    }
    RequestsKept(s, t);
  }

  lemma RequestsPoll(env: Environment, s: System, w: WorkerId, staleAfter: int, buried: set<Uuid>, retried: set<Uuid>,
                     picked: Option<Uuid>)
    requires RequestsOk(s) && Enabled(env, s, Poll(w, staleAfter, buried, retried, picked))
    ensures RequestsOk(Apply(env, s, Poll(w, staleAfter, buried, retried, picked)))
  {
    RequestsRecovery(s, buried, retried);
    if picked.Some? {
      RequestsClaim(ApplyRecovery(s, buried, retried), w, picked.value);
    }
  }

  /** The end of a claim, seen through its row alone. */
  lemma RequestsAfterEnding(s: System, t: System, w: WorkerId, claim: Claim)
    requires ClaimsOk(s) && RequestsOk(s) && ClaimOk(s, w, claim) && OwnedIn(s.rows, claim.job, w)
    requires claim.job in t.rows && t.rows == s.rows[claim.job := t.rows[claim.job]]
    requires t.claims == s.claims && t.latest == s.latest && t.requests == s.requests
    requires var row := t.rows[claim.job];
             && row.jobType == claim.row.jobType && row.repositoryId == claim.row.repositoryId
             && (row.jobType.RecalculateMetrics? ==> row.payload == claim.row.payload)
             && (row.status.Succeeded? ==> row.payload == claim.row.payload)
    requires t.served == if t.rows[claim.job].status.Succeeded?
                         then s.served[claim.job := (claim.serial, claim.row.payload)] else s.served
    ensures RequestsOk(t)
  {
    forall q | q in s.requests ensures RowKeepsRequests(s, t, q.job) {
      assert RequestOk(s, q);
    }
    RequestsKept(s, t);
  }

  lemma PayloadAfterDispatch(rows: Rows, id: Uuid, jobType: JobType, w: WorkerId, now: Instant, jitter: int,
                             handled: HandlerResult)
    requires DispatchTx(rows, id, jobType, w, now, jitter, handled).1.Ok?
    ensures var (after, r) := DispatchTx(rows, id, jobType, w, now, jitter, handled);
            && id in rows && id in after
            && after[id].jobType == rows[id].jobType && after[id].repositoryId == rows[id].repositoryId
            && (!handled.Requeued? || !r.value.ContinuationRequeued? ==> after[id].payload == rows[id].payload)
            && (after[id].status.Succeeded? <==> r.value.SucceededJob?)
  {
  }

  lemma RequestsDispatch(env: Environment, s: System, w: WorkerId, handled: HandlerResult, jitter: int)
    requires TableOk(s.rows) && ClaimsOk(s) && RequestsOk(s) && Enabled(env, s, Dispatch(w, handled, jitter))
    ensures RequestsOk(Apply(env, s, Dispatch(w, handled, jitter)))
  {
    var c := s.phases[w].claim;
    DispatchReportsRow(s.rows, c.job, c.row.jobType, w, s.now, jitter, handled);
    var (after, r) := ApplyDispatch(s, w, c, handled, jitter);
    assert ClaimOk(s, w, c);
    if r.Ok? {
      PayloadAfterDispatch(s.rows, c.job, c.row.jobType, w, s.now, jitter, handled);
      RequestsAfterEnding(s, after, w, c);
    }
    RequestsSameRows(after, Apply(env, s, Dispatch(w, handled, jitter)));
  }

  lemma RequestsSameRows(s: System, t: System)
    requires RequestsOk(s)
    requires t.rows == s.rows && t.claims == s.claims && t.latest == s.latest && t.served == s.served
    requires t.requests == s.requests
    ensures RequestsOk(t)
  {
    forall q | q in t.requests ensures RequestOk(t, q) {
      assert RequestOk(s, q);
    }
  }

  /** A deferral writes back the payload the row still has: no row's payload changes. */
  lemma DeferKeepsPayloads(env: Environment, s: System, w: WorkerId, id: Uuid)
    requires ClaimsOk(s) && Enabled(env, s, Defer(w)) && id in s.rows
    ensures id in Apply(env, s, Defer(w)).rows && Apply(env, s, Defer(w)).rows[id].payload == s.rows[id].payload
  {
    assert ClaimOk(s, w, s.phases[w].claim);
  }

  lemma RequestsDefer(env: Environment, s: System, w: WorkerId)
    requires ClaimsOk(s) && RequestsOk(s) && Enabled(env, s, Defer(w))
    ensures RequestsOk(Apply(env, s, Defer(w)))
  {
    var c := s.phases[w].claim;
    assert ClaimOk(s, w, c);
    var after := ApplyDefer(s, w, c);
    if RequeueTx(s.rows, c.job, w, s.now, c.row.payload, DEFER_DELAY, false).Ok? {
      RequestsAfterEnding(s, after, w, c);
    }
    RequestsSameRows(after, Apply(env, s, Defer(w)));
  }

  /** An enqueue seen through the one waiting row it writes. */
  lemma RequestsMerge(s: System, t: System, id: Uuid)
    requires RequestsOk(s)
    requires t.claims == s.claims && t.latest == s.latest && t.served == s.served && t.requests == s.requests
    requires id in t.rows && t.rows == s.rows[id := t.rows[id]] && Waiting(t.rows[id])
    requires id in s.rows ==>
               && t.rows[id].jobType == s.rows[id].jobType && t.rows[id].repositoryId == s.rows[id].repositoryId
               && KeepsRepository(s.rows[id], t.rows[id])
               && (s.rows[id].payload.affected.Some? ==>
                     Covers(t.rows[id].payload.affected, s.rows[id].payload.affected.value))
    ensures RequestsOk(t)
  {
    forall q | q in s.requests ensures RowKeepsRequests(s, t, q.job) {
      assert RequestOk(s, q);
    }
    RequestsKept(s, t);
  }

  lemma RequestsAdd(s: System, q: Request)
    requires RequestsOk(s) && RequestOk(s, q)
    ensures RequestsOk(s.(requests := s.requests + {q}))
  {
    var t := s.(requests := s.requests + {q});
    forall other | other in t.requests ensures RequestOk(t, other) {
      assert RequestOk(s, other);
    }
  }

  lemma RequestsEnqueue(env: Environment, s: System, step: Step)
    requires TableOk(s.rows) && RequestsOk(s) && Enabled(env, s, step) && step.EnqueueMetrics?
    ensures RequestsOk(Apply(env, s, step))
  {
    EnqueueKeepsTable(s.rows, step.newId, s.now, step.workspace, step.repository, step.affected, step.maxAttempts);
    var (id, rows) := EnqueueMetricsTx(
      s.rows, step.newId, s.now, step.workspace, step.repository, step.affected, step.maxAttempts);
    EnqueueWrites(s.rows, step.newId, s.now, step.workspace, step.repository, step.affected, step.maxAttempts);
    var merged := s.(rows := rows, tally := s.tally[id := Tally(0, 0)]);
    RequestsMerge(s, merged, id);
    if step.affected.Some? {
      RequestsAdd(merged, Request(id, step.repository, step.affected.value, |s.claims|));
    }
  }

  lemma RequestsBeat(s: System, id: Uuid, worker: WorkerId, attempts: nat)
    requires RequestsOk(s)
    ensures RequestsOk(s.(rows := HeartbeatTx(s.rows, id, worker, attempts, s.now)))
  {
    var t := s.(rows := HeartbeatTx(s.rows, id, worker, attempts, s.now));
    forall q | q in s.requests ensures RowKeepsRequests(s, t, q.job) {
      assert RequestOk(s, q);
    }
    RequestsKept(s, t);
  }

  lemma RequestsInsert(s: System, id: Uuid, row: Row)
    requires RequestsOk(s) && id !in s.rows && FreshRow(row)
    ensures RequestsOk(s.(rows := s.rows[id := row], tally := s.tally[id := Tally(0, 0)]))
  {
    var t := s.(rows := s.rows[id := row], tally := s.tally[id := Tally(0, 0)]);
    forall q | q in s.requests ensures RowKeepsRequests(s, t, q.job) {
      assert RequestOk(s, q);
    }
    RequestsKept(s, t);
  }

  lemma RequestsStep(env: Environment, s: System, step: Step)
    requires TableOk(s.rows) && ClaimsOk(s) && RequestsOk(s) && Enabled(env, s, step)
    ensures RequestsOk(Apply(env, s, step))
  {
    if MovesOnly(step) {
      MovesOnlyEffect(env, s, step);
      RequestsSameRows(s, Apply(env, s, step));
    } else {
      match step
      case Poll(w, staleAfter, buried, retried, picked) => RequestsPoll(env, s, w, staleAfter, buried, retried, picked);
      case Dispatch(w, handled, jitter) => RequestsDispatch(env, s, w, handled, jitter);
      case Defer(w) => RequestsDefer(env, s, w);
      case EnqueueMetrics(_, _, _, _, _) => RequestsEnqueue(env, s, step);
      case Beat(w) => RequestsBeat(s, s.phases[w].claim.job, w, s.phases[w].claim.row.attempts);
      case Insert(id, row) => RequestsInsert(s, id, row);
      case Crash(_) => RequestsSameRows(s, Apply(env, s, step));
      case Tick(_) => RequestsSameRows(s, Apply(env, s, step));
      case _ =>
    }
  }
}
