/** What a worker past its ownership re-check can rely on: its row and its scope. */
module OwnershipInvariants {
  import opened Prelude
  import opened Jobs
  import opened Queue
  import opened Leases
  import opened Protocol
  import opened LockInvariants
  import opened ClaimInvariants

  // ----- ownership under the lease -------------------------------------------------------------

  /** From the ownership re-check on, the row stays RUNNING and owned by the guarded worker. */
  ghost predicate GuardOk(s: System) {
    forall w | w in s.phases && Guarded(s.phases[w]) :: OwnedIn(s.rows, s.phases[w].claim.job, w)
  }

  /** A held job lock keeps recovery away, however stale the heartbeat. */
  lemma JobLockKeepsRecoveryAway(env: Environment, s: System, holder: WorkerId, other: WorkerId)
    requires LocksOk(env, s.phases, s.grants)
    requires holder in s.phases && Guarded(s.phases[holder]) && holder != other
    requires s.phases[holder].claim.job in s.rows
    ensures s.phases[holder].claim.job in LockedJobs(env, s, other)
  {
    var job := s.phases[holder].claim.job;
    assert JobGrant(job, holder) in HeldBy(s.grants, holder);
    assert Clash(env, JobGrant(job, holder), JobGrant(job, other));
  }

  lemma GuardPoll(env: Environment, s: System, w: WorkerId, staleAfter: int, buried: set<Uuid>, retried: set<Uuid>,
                  picked: Option<Uuid>)
    requires LocksOk(env, s.phases, s.grants) && GuardOk(s)
    requires Enabled(env, s, Poll(w, staleAfter, buried, retried, picked))
    ensures GuardOk(Apply(env, s, Poll(w, staleAfter, buried, retried, picked)))
  {
    var t := Apply(env, s, Poll(w, staleAfter, buried, retried, picked));
    forall v | v in t.phases && Guarded(t.phases[v]) ensures OwnedIn(t.rows, t.phases[v].claim.job, v) {
      JobLockKeepsRecoveryAway(env, s, v, w);
    }
  }

  /** Only a row's owner can take it out of RUNNING, so another guarded worker keeps its own. */
  lemma GuardAfterEnding(s: System, t: System, w: WorkerId, job: Uuid)
    requires GuardOk(s) && OwnedIn(s.rows, job, w)
    requires job in t.rows && t.rows == s.rows[job := t.rows[job]]
    requires w in t.phases && t.phases == s.phases[w := t.phases[w]] && !Guarded(t.phases[w])
    ensures GuardOk(t)
  {
  }

  lemma GuardSameRows(s: System, t: System, w: WorkerId)
    requires GuardOk(s) && t.rows == s.rows && w in t.phases && t.phases == s.phases[w := t.phases[w]]
    requires Guarded(t.phases[w]) ==> OwnedIn(s.rows, t.phases[w].claim.job, w)
    ensures GuardOk(t)
  {
  }

  lemma GuardDispatch(env: Environment, s: System, w: WorkerId, handled: HandlerResult, jitter: int)
    requires TableOk(s.rows) && GuardOk(s) && Enabled(env, s, Dispatch(w, handled, jitter))
    ensures GuardOk(Apply(env, s, Dispatch(w, handled, jitter)))
  {
    var c := s.phases[w].claim;
    DispatchReportsRow(s.rows, c.job, c.row.jobType, w, s.now, jitter, handled);
    var (after, r) := ApplyDispatch(s, w, c, handled, jitter);
    var t := Apply(env, s, Dispatch(w, handled, jitter));
    if r.Ok? {
      GuardAfterEnding(s, t, w, c.job);
    } else {
      GuardSameRows(s, t, w);
    }
  }

  lemma GuardDefer(env: Environment, s: System, w: WorkerId)
    requires GuardOk(s) && Enabled(env, s, Defer(w))
    ensures GuardOk(Apply(env, s, Defer(w)))
  {
    var c := s.phases[w].claim;
    var t := Apply(env, s, Defer(w));
    if RequeueTx(s.rows, c.job, w, s.now, c.row.payload, DEFER_DELAY, false).Ok? {
      GuardAfterEnding(s, t, w, c.job);
    } else {
      GuardSameRows(s, t, w);
    }
  }

  lemma GuardMoves(env: Environment, s: System, step: Step)
    requires GuardOk(s) && Enabled(env, s, step) && MovesOnly(step)
    ensures GuardOk(Apply(env, s, step))
  {
    MovesOnlyEffect(env, s, step);
    var t := Apply(env, s, step);
    assert Guarded(t.phases[step.worker]) ==> OwnedIn(s.rows, t.phases[step.worker].claim.job, step.worker);
    GuardSameRows(s, t, step.worker);
  }

  lemma GuardBeat(s: System, id: Uuid, worker: WorkerId, attempts: nat)
    requires GuardOk(s)
    ensures GuardOk(s.(rows := HeartbeatTx(s.rows, id, worker, attempts, s.now)))
  {
  }

  lemma GuardEnqueue(env: Environment, s: System, step: Step)
    requires TableOk(s.rows) && GuardOk(s) && Enabled(env, s, step) && step.EnqueueMetrics?
    ensures GuardOk(Apply(env, s, step))
  {
    EnqueueKeepsTable(s.rows, step.newId, s.now, step.workspace, step.repository, step.affected, step.maxAttempts);
    var t := ApplyEnqueue(s, step.newId, step.workspace, step.repository, step.affected, step.maxAttempts);
    forall w | w in t.phases && Guarded(t.phases[w]) ensures OwnedIn(t.rows, t.phases[w].claim.job, w) {
      assert OwnedIn(s.rows, s.phases[w].claim.job, w);
    }
  }

  lemma GuardStep(env: Environment, s: System, step: Step)
    requires TableOk(s.rows) && LocksOk(env, s.phases, s.grants) && GuardOk(s) && Enabled(env, s, step)
    ensures GuardOk(Apply(env, s, step))
  {
    if MovesOnly(step) {
      GuardMoves(env, s, step);
    } else {
      match step
      case Poll(w, staleAfter, buried, retried, picked) => GuardPoll(env, s, w, staleAfter, buried, retried, picked);
      case Dispatch(w, handled, jitter) => GuardDispatch(env, s, w, handled, jitter);
      case Defer(w) => GuardDefer(env, s, w);
      case EnqueueMetrics(_, _, _, _, _) => GuardEnqueue(env, s, step);
      case Beat(w) => GuardBeat(s, s.phases[w].claim.job, w, s.phases[w].claim.row.attempts);
      case _ =>
    }
  }

  // ----- scopes --------------------------------------------------------------------------------

  predicate HasScope(phase: Phase) {
    phase.Scoped? || phase.WorkspaceLocked? || phase.Executing? || phase.Finished?
  }

  /** A lease's scope is the one its claimed row resolves to. */
  ghost predicate ScopesOk(env: Environment, s: System) {
    forall w | w in s.phases && HasScope(s.phases[w]) ::
      s.phases[w].scope == ResolveScope(env, s.phases[w].claim.row, s.phases[w].claim.row)
  }

  lemma ScopesSameButPhase(env: Environment, s: System, t: System, w: WorkerId)
    requires ScopesOk(env, s) && SameButPhase(s, t, w)
    requires HasScope(t.phases[w]) ==>
               t.phases[w].scope == ResolveScope(env, t.phases[w].claim.row, t.phases[w].claim.row)
    ensures ScopesOk(env, t)
  {
  }

  /** The re-check finds the row as it was claimed, so it resolves to the scope of the claimed row. */
  lemma ScopesCheckOwner(env: Environment, s: System, w: WorkerId)
    requires ClaimsOk(s) && ScopesOk(env, s) && Enabled(env, s, CheckOwner(w))
    ensures ScopesOk(env, Apply(env, s, CheckOwner(w)))
  {
    assert ClaimOk(s, w, s.phases[w].claim);
    ScopesSameButPhase(env, s, Apply(env, s, CheckOwner(w)), w);
  }

  lemma ScopesMoves(env: Environment, s: System, step: Step)
    requires ScopesOk(env, s) && Enabled(env, s, step) && MovesOnly(step) && !step.CheckOwner?
    ensures ScopesOk(env, Apply(env, s, step))
  {
    MovesOnlyEffect(env, s, step);
    ScopesSameButPhase(env, s, Apply(env, s, step), step.worker);
  }

  lemma ScopesStep(env: Environment, s: System, step: Step)
    requires ClaimsOk(s) && ScopesOk(env, s) && Enabled(env, s, step)
    ensures ScopesOk(env, Apply(env, s, step))
  {
    if step.CheckOwner? {
      ScopesCheckOwner(env, s, step.worker);
    } else if MovesOnly(step) {
      ScopesMoves(env, s, step);
    } else {
      PhasesOfOtherSteps(env, s, step);
    }
  }

  /** Outside MovesOnly, a phase with a scope was there before, with the same claim and scope. */
  lemma PhasesOfOtherSteps(env: Environment, s: System, step: Step)
    requires Enabled(env, s, step) && !MovesOnly(step)
    ensures var t := Apply(env, s, step);
            forall w | w in t.phases && HasScope(t.phases[w]) ::
              && w in s.phases && HasScope(s.phases[w])
              && t.phases[w].scope == s.phases[w].scope && t.phases[w].claim == s.phases[w].claim
  {
  }
}
