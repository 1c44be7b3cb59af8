/** Claims and their history agree with the rows. */
module ClaimInvariants {
  import opened Prelude
  import opened Jobs
  import opened Queue
  import opened Leases
  import opened Protocol

  /** While a claim lasts its row changes only in `locked_at`. */
  predicate Unchanged(row: Row, claimed: Row) {
    row == claimed.(lockedAt := row.lockedAt)
  }

  /** History agrees with the rows: a running row's latest claim is its owner's and has not ended. */
  ghost predicate HistoryOk(s: System) {
    && (forall id | id in s.latest :: id in s.rows && s.latest[id] < |s.claims| && s.claims[s.latest[id]].job == id)
    && (forall id | id in s.rows && s.rows[id].status.Running? ::
          id in s.latest && s.rows[id].lockedBy == Some(s.claims[s.latest[id]].worker) && s.latest[id] !in s.ended)
    && (forall n: nat | n in s.ended :: n < |s.claims| && s.ended[n] == 1)
  }

  /** A worker's current claim is on record; if the row is still its own, this claim is the latest. */
  ghost predicate ClaimOk(s: System, worker: WorkerId, claim: Claim) {
    && claim.serial < |s.claims| && s.claims[claim.serial] == ClaimRecord(claim.job, worker)
    && claim.job in s.rows && claim.job in s.latest
    && (Owned(s.rows[claim.job], worker) ==>
          s.latest[claim.job] == claim.serial && Unchanged(s.rows[claim.job], claim.row))
  }

  ghost predicate ClaimsOk(s: System) {
    && HistoryOk(s)
    && forall w | w in s.phases && HasClaim(s.phases[w]) :: ClaimOk(s, w, s.phases[w].claim)
  }

  /** Ending a claim: its row leaves RUNNING and its serial is recorded, once. */
  lemma ClaimEnds(s: System, t: System, worker: WorkerId, claim: Claim)
    requires ClaimsOk(s) && ClaimOk(s, worker, claim) && OwnedIn(s.rows, claim.job, worker)
    requires claim.job in t.rows && t.rows == s.rows[claim.job := t.rows[claim.job]]
    requires !t.rows[claim.job].status.Running?
    requires t.claims == s.claims && t.latest == s.latest && t.ended == s.ended + multiset{claim.serial}
    requires t.phases == s.phases
    ensures ClaimsOk(t)
  {
    forall id | id in t.rows && t.rows[id].status.Running? ensures t.latest[id] !in t.ended {
      assert s.claims[s.latest[id]].job != s.claims[claim.serial].job;
    }
    forall w | w in t.phases && HasClaim(t.phases[w]) ensures ClaimOk(t, w, t.phases[w].claim) {
      assert ClaimOk(s, w, s.phases[w].claim);
    }
  }

  lemma ClaimsRecovery(env: Environment, s: System, worker: WorkerId, staleAfter: int, buried: set<Uuid>,
                       retried: set<Uuid>)
    requires ClaimsOk(s)
    requires buried <= StaleExhausted(s.rows, s.now, staleAfter, LockedJobs(env, s, worker))
    requires retried <= StaleRetryable(s.rows, s.now, staleAfter, LockedJobs(env, s, worker))
    ensures ClaimsOk(ApplyRecovery(s, buried, retried))
  {
    var t := ApplyRecovery(s, buried, retried);
    var serials := RecoveredSerials(s, buried + retried);
    var bag: multiset<nat> := multiset(RecoveredSerials(s, buried + retried));
    forall n | n in serials ensures n !in s.ended && n < |s.claims| {
    }
    forall n: nat | n in t.ended ensures n < |t.claims| && t.ended[n] == 1 {
      assert t.ended[n] == s.ended[n] + bag[n];
    }
    forall id | id in t.rows && t.rows[id].status.Running? ensures t.latest[id] !in t.ended {
      assert forall other | other in s.latest && other != id ::
               s.claims[s.latest[other]].job != s.claims[s.latest[id]].job;
      assert id !in buried + retried;
    }
    forall w | w in t.phases && HasClaim(t.phases[w]) ensures ClaimOk(t, w, t.phases[w].claim) {
      assert ClaimOk(s, w, s.phases[w].claim);
    }
  }

  /** Recovery ends the claim of every row it recovers, once, and no other; the other rows stay as they were. */
  lemma RecoveryEndsClaims(env: Environment, s: System, worker: WorkerId, staleAfter: int, buried: set<Uuid>,
                           retried: set<Uuid>, id: Uuid)
    requires ClaimsOk(s) && id in s.latest
    requires buried <= StaleExhausted(s.rows, s.now, staleAfter, LockedJobs(env, s, worker))
    requires retried <= StaleRetryable(s.rows, s.now, staleAfter, LockedJobs(env, s, worker))
    ensures var t := ApplyRecovery(s, buried, retried);
            if id in buried + retried
            then s.ended[s.latest[id]] == 0 && t.ended[s.latest[id]] == 1 && !t.rows[id].status.Running?
            else t.ended[s.latest[id]] == s.ended[s.latest[id]] && t.rows[id] == s.rows[id]
  {
    var t := ApplyRecovery(s, buried, retried);
    var bag: multiset<nat> := multiset(RecoveredSerials(s, buried + retried));
    var n := s.latest[id];
    assert forall other | other in s.latest && other != id :: s.claims[s.latest[other]].job != s.claims[n].job;
    assert t.ended[n] == s.ended[n] + bag[n];
    assert n in RecoveredSerials(s, buried + retried) <==> id in buried + retried;
  }

  lemma ClaimsClaim(s: System, worker: WorkerId, id: Uuid)
    requires ClaimsOk(s) && id in s.rows && Waiting(s.rows[id])
    requires worker in s.phases && s.phases[worker].Idle?
    ensures ClaimsOk(ApplyClaim(s, worker, id))
  {
    var t := ApplyClaim(s, worker, id);
    forall other | other in t.latest ensures
      other in t.rows && t.latest[other] < |t.claims| && t.claims[t.latest[other]].job == other {
    }
    forall w | w in t.phases && HasClaim(t.phases[w]) ensures ClaimOk(t, w, t.phases[w].claim) {
      if w != worker {
        assert ClaimOk(s, w, s.phases[w].claim);
      }
    }
  }

  /** Steps that touch no claimed row: `t` differs only in waiting or new rows and in phases. */
  lemma ClaimsElsewhere(s: System, t: System)
    requires ClaimsOk(s)
    requires t.claims == s.claims && t.latest == s.latest && t.ended == s.ended
    requires forall id | id in s.rows :: id in t.rows
    requires forall id | id in t.rows && t.rows[id].status.Running? ::
               id in s.rows && Unchanged(t.rows[id], s.rows[id])
    requires forall w | w in t.phases && HasClaim(t.phases[w]) ::
               w in s.phases && HasClaim(s.phases[w]) && t.phases[w].claim == s.phases[w].claim
    ensures ClaimsOk(t)
  {
    forall w | w in t.phases && HasClaim(t.phases[w]) ensures ClaimOk(t, w, t.phases[w].claim) {
      assert ClaimOk(s, w, s.phases[w].claim);
    }
  }

  lemma ClaimsMove(s: System, worker: WorkerId, phase: Phase)
    requires ClaimsOk(s)
    requires HasClaim(phase) ==>
               worker in s.phases && HasClaim(s.phases[worker]) && phase.claim == s.phases[worker].claim
    ensures ClaimsOk(Moved(s, worker, phase))
  {
    ClaimsElsewhere(s, Moved(s, worker, phase));
  }

  /** A dispatch seen through its report: it ended the worker's claim, or it changed no row. */
  lemma ClaimsAfterDispatch(s: System, after: System, r: Result<Outcome, TxError>, w: WorkerId, claim: Claim,
                            phase: Phase)
    requires ClaimsOk(s) && w in s.phases && HasClaim(s.phases[w]) && s.phases[w].claim == claim
    requires after.claims == s.claims && after.latest == s.latest && after.phases == s.phases
    requires after.ended == if r.Ok? then s.ended + multiset{claim.serial} else s.ended
    requires r.Ok? ==> OwnedIn(s.rows, claim.job, w) && EndsClaim(s.rows, after.rows, claim.job, r.value)
    requires r.Err? ==> after.rows == s.rows
    requires HasClaim(phase) ==> phase.claim == claim
    ensures ClaimsOk(Moved(after, w, phase))
  {
    assert ClaimOk(s, w, claim);
    if r.Ok? {
      ClaimEnds(s, after, w, claim);
    } else {
      ClaimsElsewhere(s, after);
    }
    ClaimsMove(after, w, phase);
  }

  lemma ClaimsDispatch(env: Environment, s: System, w: WorkerId, handled: HandlerResult, jitter: int)
    requires TableOk(s.rows) && ClaimsOk(s) && Enabled(env, s, Dispatch(w, handled, jitter))
    ensures ClaimsOk(Apply(env, s, Dispatch(w, handled, jitter)))
  {
    var phase := s.phases[w];
    var c := phase.claim;
    DispatchReportsRow(s.rows, c.job, c.row.jobType, w, s.now, jitter, handled);
    var (after, r) := ApplyDispatch(s, w, c, handled, jitter);
    ClaimsAfterDispatch(s, after, r, w, c, if phase.Executing? then Finished(c, phase.scope, r) else Idle);
  }

  lemma ClaimsDefer(env: Environment, s: System, w: WorkerId)
    requires ClaimsOk(s) && Enabled(env, s, Defer(w))
    ensures ClaimsOk(Apply(env, s, Defer(w)))
  {
    var c := s.phases[w].claim;
    assert ClaimOk(s, w, c);
    var after := ApplyDefer(s, w, c);
    if RequeueTx(s.rows, c.job, w, s.now, c.row.payload, DEFER_DELAY, false).Ok? {
      ClaimEnds(s, after, w, c);
    }
    ClaimsMove(after, w, Idle);
  }

  /** Steps that write no row: one worker changes phase, keeping or dropping its claim. */
  predicate MovesOnly(step: Step) {
    step.Start? || step.LockJob? || step.CheckOwner? || step.LockWorkspace? || step.LockRepository?
    || step.ScopeIsBusy? || step.AcquireFails? || step.DispatchFails? || step.Release? || step.DeferFails?
    || step.LoseSession?
  }

  /** `t` is `s` with worker `w` in another phase; only locks may differ besides. */
  ghost predicate SameButPhase(s: System, t: System, w: WorkerId) {
    && w in t.phases
    && t == s.(phases := s.phases[w := t.phases[w]], grants := t.grants)
    && (HasClaim(t.phases[w]) ==> w in s.phases && HasClaim(s.phases[w]) && t.phases[w].claim == s.phases[w].claim)
  }

  lemma MovesOnlyEffect(env: Environment, s: System, step: Step)
    requires Enabled(env, s, step) && MovesOnly(step)
    ensures SameButPhase(s, Apply(env, s, step), step.worker)
  {
  }

  lemma ClaimsSameButPhase(s: System, t: System, w: WorkerId)
    requires ClaimsOk(s) && SameButPhase(s, t, w)
    ensures ClaimsOk(t)
  {
    ClaimsElsewhere(s, t);
  }

  lemma ClaimsBeat(s: System, id: Uuid, worker: WorkerId, attempts: nat)
    requires ClaimsOk(s)
    ensures ClaimsOk(s.(rows := HeartbeatTx(s.rows, id, worker, attempts, s.now)))
  {
    ClaimsElsewhere(s, s.(rows := HeartbeatTx(s.rows, id, worker, attempts, s.now)));
  }

  lemma ClaimsEnqueue(env: Environment, s: System, step: Step)
    requires TableOk(s.rows) && ClaimsOk(s) && Enabled(env, s, step) && step.EnqueueMetrics?
    ensures ClaimsOk(Apply(env, s, step))
  {
    EnqueueKeepsTable(s.rows, step.newId, s.now, step.workspace, step.repository, step.affected, step.maxAttempts);
    var t := ApplyEnqueue(s, step.newId, step.workspace, step.repository, step.affected, step.maxAttempts);
    assert forall id | id in t.rows && t.rows[id].status.Running? :: id in s.rows && t.rows[id] == s.rows[id];
    ClaimsElsewhere(s, t);
  }

  lemma ClaimsPoll(env: Environment, s: System, w: WorkerId, staleAfter: int, buried: set<Uuid>, retried: set<Uuid>,
                   picked: Option<Uuid>)
    requires ClaimsOk(s) && Enabled(env, s, Poll(w, staleAfter, buried, retried, picked))
    ensures ClaimsOk(Apply(env, s, Poll(w, staleAfter, buried, retried, picked)))
  {
    ClaimsRecovery(env, s, w, staleAfter, buried, retried);
    if picked.Some? {
      ClaimsClaim(ApplyRecovery(s, buried, retried), w, picked.value);
    }
  }

  lemma ClaimsCrash(env: Environment, s: System, ws: set<WorkerId>)
    requires ClaimsOk(s) && ws <= s.phases.Keys
    ensures ClaimsOk(Apply(env, s, Crash(ws)))
  {
    ClaimsElsewhere(s, Apply(env, s, Crash(ws)));
  }

  lemma ClaimsStep(env: Environment, s: System, step: Step)
    requires TableOk(s.rows) && ClaimsOk(s) && Enabled(env, s, step)
    ensures ClaimsOk(Apply(env, s, step))
  {
    if MovesOnly(step) {
      MovesOnlyEffect(env, s, step);
      ClaimsSameButPhase(s, Apply(env, s, step), step.worker);
    } else {
      match step
      case Poll(w, staleAfter, buried, retried, picked) => ClaimsPoll(env, s, w, staleAfter, buried, retried, picked);
      case Dispatch(w, handled, jitter) => ClaimsDispatch(env, s, w, handled, jitter);
      case Defer(w) => ClaimsDefer(env, s, w);
      case EnqueueMetrics(_, _, _, _, _) => ClaimsEnqueue(env, s, step);
      case Beat(w) => ClaimsBeat(s, s.phases[w].claim.job, w, s.phases[w].claim.row.attempts);
      case Crash(ws) => ClaimsCrash(env, s, ws);
      case Insert(id, row) => ClaimsElsewhere(s, Apply(env, s, step));
      case Tick(_) => ClaimsElsewhere(s, Apply(env, s, step));
      case _ =>
    }
  }
}
