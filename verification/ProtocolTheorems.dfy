/** What holds in every state of every run, and across runs. */
module ProtocolTheorems {
  import opened Prelude
  import opened Jobs
  import opened Queue
  import opened Leases
  import opened Protocol
  import opened LockInvariants
  import opened ClaimInvariants
  import opened OwnershipInvariants
  import opened RequestInvariants

  ghost predicate Inv(env: Environment, s: System) {
    && TableOk(s.rows) && LocksOk(env, s.phases, s.grants) && ClaimsOk(s) && GuardOk(s)
    && TallyOk(s) && RequestsOk(s) && ScopesOk(env, s)
  }

  lemma InvStep(env: Environment, s: System, step: Step)
    requires Inv(env, s) && Enabled(env, s, step)
    ensures Inv(env, Apply(env, s, step))
  {
    TableStep(env, s, step);
    LocksStep(env, s, step);
    ClaimsStep(env, s, step);
    GuardStep(env, s, step);
    TallyStep(env, s, step);
    RequestsStep(env, s, step);
    ScopesStep(env, s, step);
  }

  /** Every state of every run satisfies the invariant. */
  lemma {:induction false} RunsKeepInv(env: Environment, run: seq<System>, i: nat)
    requires IsRun(env, run) && i < |run|
    ensures Inv(env, run[i])
  {
    if 0 < i {
      RunsKeepInv(env, run, i - 1);
      assert Next(env, run[i - 1], run[i - 1 + 1]);
      var step :| Enabled(env, run[i - 1], step) && run[i] == Apply(env, run[i - 1], step);
      InvStep(env, run[i - 1], step);
    }
  }

  /** The states of a script are those of a run. */
  lemma ScriptIsRun(env: Environment, run: seq<System>, steps: seq<Step>)
    requires IsScript(env, run, steps)
    ensures IsRun(env, run)
  {
    forall i | 0 <= i < |run| - 1 ensures Next(env, run[i], run[i + 1]) {
      assert StepAt(env, run, steps, i);
    }
  }

  /**
    Ownership is stable under a lease: however old its heartbeat, the row of an executing job is
    RUNNING, owned by its executor, and as it was claimed. So whatever the handler does, dispatch
    never meets an ownership error, and the outcome it reports names the row state it committed. It
    fails exactly when the handler's result asks for a retry, the claim was not the last attempt, and
    a rival recalculation waits.
  */
  lemma OwnershipIsStable(env: Environment, run: seq<System>, i: nat, w: WorkerId, handled: HandlerResult, jitter: int)
    requires IsRun(env, run) && i < |run| && PhaseOf(run[i], w).Executing?
    ensures var s := run[i];
            var c := PhaseOf(s, w).claim;
            var (after, r) := DispatchTx(s.rows, c.job, c.row.jobType, w, s.now, jitter, handled);
            && OwnedIn(s.rows, c.job, w) && Unchanged(s.rows[c.job], c.row)
            && (r.Ok? ==> EndsClaim(s.rows, after, c.job, r.value))
            && (r.Err? ==> after == s.rows)
            && (r.Err? <==> WantsRetry(c.row.jobType, handled) && c.row.attempts < c.row.maxAttempts
                            && RivalWaits(s.rows, c.job))
  {
    RunsKeepInv(env, run, i);
    var c := PhaseOf(run[i], w).claim;
    assert ClaimOk(run[i], w, c);
    DispatchReportsRow(run[i].rows, c.job, c.row.jobType, w, run[i].now, jitter, handled);
  }

  lemma DeferEffect(env: Environment, s: System, w: WorkerId)
    requires TableOk(s.rows) && Enabled(env, s, Defer(w))
    ensures var c := PhaseOf(s, w).claim;
            Apply(env, s, Defer(w)).rows
            == if OwnedIn(s.rows, c.job, w) && !RivalWaits(s.rows, c.job)
               then s.rows[c.job := RequeueRow(s.rows[c.job], s.now, c.row.payload, DEFER_DELAY, false)] else s.rows
  {
    var c := PhaseOf(s, w).claim;
    RequeueFailsIff(s.rows, c.job, w, s.now, c.row.payload, DEFER_DELAY, false);
  }

  /** The row as it was claimed, but waiting, with the claim's attempt given back and the delay set. */
  predicate GaveBack(row: Row, claimed: Row, now: Instant) {
    && row.attempts + 1 == claimed.attempts
    && row == claimed.(status := Pending, attempts := row.attempts, availableAt := now + DEFER_DELAY,
                       lockedAt := None, lockedBy := None, version := claimed.version + 1)
  }

  /**
    A deferral hands the job back exactly when the worker still owns it and no rival recalculation
    waits: then the row is as it was claimed, except that the claim's attempt is given back and it
    waits until the delay is over. Otherwise no row changes, and an owned row stays RUNNING.
  */
  lemma DeferralReturnsIff(env: Environment, run: seq<System>, i: nat, w: WorkerId)
    requires IsRun(env, run) && i < |run| && PhaseOf(run[i], w).Deferring?
    ensures var (s, c) := (run[i], PhaseOf(run[i], w).claim);
            var t := Apply(env, s, Defer(w));
            if OwnedIn(s.rows, c.job, w) && !RivalWaits(s.rows, c.job)
            then c.job in t.rows && t.rows == s.rows[c.job := t.rows[c.job]] && GaveBack(t.rows[c.job], c.row, s.now)
            else t.rows == s.rows
  {
    RunsKeepInv(env, run, i);
    DeferEffect(env, run[i], w);
    assert ClaimOk(run[i], w, PhaseOf(run[i], w).claim);
  }

  /** A lease that fails to be acquired, is lost, or has ended leaves no lock behind. */
  lemma NoLockLeftBehind(env: Environment, run: seq<System>, i: nat, w: WorkerId)
    requires IsRun(env, run) && i < |run|
    requires var phase := PhaseOf(run[i], w);
             phase.Idle? || phase.Claimed? || phase.Deferring? || phase.Unguarded? || phase.Gone?
    ensures HeldBy(run[i].grants, w) == {}
  {
    RunsKeepInv(env, run, i);
  }

  /**
    Two executing leases never share a job or a repository. If they share a workspace, both work on
    repositories; and workspace-wide work excludes work on every repository known to belong to that
    workspace, even if the repository job's row or payload names another workspace.
  */
  lemma ExecutionIsExclusive(env: Environment, run: seq<System>, i: nat, v: WorkerId, w: WorkerId)
    requires IsRun(env, run) && i < |run| && v != w
    requires PhaseOf(run[i], v).Executing? && PhaseOf(run[i], w).Executing?
    ensures var (p, q) := (PhaseOf(run[i], v), PhaseOf(run[i], w));
            && p.claim.job != q.claim.job
            && (p.scope.repository.Some? ==> p.scope.repository != q.scope.repository)
            && (p.scope.workspace.Some? && p.scope.workspace == q.scope.workspace ==>
                  p.scope.repository.Some? && q.scope.repository.Some?)
            && (p.scope.repository.None? && q.scope.repository.Some?
                && q.scope.repository.value in env.repositoryWorkspace ==>
                  p.scope.workspace != Some(env.repositoryWorkspace[q.scope.repository.value]))
            && (WorkspaceWide(p.claim.row.jobType) ==> p.scope.repository.None?)
  {
    RunsKeepInv(env, run, i);
    var s := run[i];
    var (p, q) := (s.phases[v], s.phases[w]);
    assert HeldBy(s.grants, v) == LeaseGrants(p.claim.job, p.scope, v);
    assert HeldBy(s.grants, w) == LeaseGrants(q.claim.job, q.scope, w);
    LeasesClash(env, s.grants, p.claim.job, p.scope, v, q.claim.job, q.scope, w);
    KnownRepositoryFixesWorkspace(env, p.claim.row, p.claim.row);
    KnownRepositoryFixesWorkspace(env, q.claim.row, q.claim.row);
  }

  lemma ClaimedRowResolves(env: Environment, run: seq<System>, i: nat, w: WorkerId)
    requires IsRun(env, run) && i < |run| && PhaseOf(run[i], w).Executing?
    ensures var p := PhaseOf(run[i], w); p.scope == ResolveScope(env, p.claim.row, p.claim.row)
  {
    RunsKeepInv(env, run, i);
  }

  /**
    No two executing leases are for one repository, whichever way their claimed rows come by it: the
    row, the webhook event the job is about, or the payload.
  */
  lemma OneLeasePerRepository(env: Environment, run: seq<System>, i: nat, v: WorkerId, w: WorkerId, repository: Uuid)
    requires IsRun(env, run) && i < |run| && PhaseOf(run[i], v).Executing? && PhaseOf(run[i], w).Executing?
    requires ForRepository(env, PhaseOf(run[i], v).claim.row, repository)
    requires ForRepository(env, PhaseOf(run[i], w).claim.row, repository)
    ensures v == w
  {
    if v != w {
      ClaimedRowResolves(env, run, i, v);
      ClaimedRowResolves(env, run, i, w);
      ScopeRepositoryIff(env, PhaseOf(run[i], v).claim.row, repository);
      ScopeRepositoryIff(env, PhaseOf(run[i], w).claim.row, repository);
      ExecutionIsExclusive(env, run, i, v, w);
    }
  }

  /**
    A lease for a workspace and no repository of it, in particular of workspace-wide work, executes
    alone in the workspace, whichever way the claimed rows come by it.
  */
  lemma WorkspaceWorkIsAlone(env: Environment, run: seq<System>, i: nat, v: WorkerId, w: WorkerId, workspace: Uuid)
    requires IsRun(env, run) && i < |run| && PhaseOf(run[i], v).Executing? && PhaseOf(run[i], w).Executing?
    requires ForWorkspace(env, PhaseOf(run[i], v).claim.row, workspace)
    requires ForWorkspace(env, PhaseOf(run[i], w).claim.row, workspace)
    requires forall repository: Uuid :: !ForRepository(env, PhaseOf(run[i], v).claim.row, repository)
    ensures v == w
  {
    if v != w {
      ClaimedRowResolves(env, run, i, v);
      ClaimedRowResolves(env, run, i, w);
      var p := PhaseOf(run[i], v);
      ScopeWorkspaceIff(env, p.claim.row, workspace);
      ScopeWorkspaceIff(env, PhaseOf(run[i], w).claim.row, workspace);
      if p.scope.repository.Some? {
        ScopeRepositoryIff(env, p.claim.row, p.scope.repository.value);
      }
      ExecutionIsExclusive(env, run, i, v, w);
    }
  }

  lemma LeasesClash(env: Environment, grants: set<Grant>, job: Uuid, scope: Scope, v: WorkerId,
                    job2: Uuid, scope2: Scope, w: WorkerId)
    requires Compatible(env, grants) && v != w
    requires LeaseGrants(job, scope, v) <= grants && LeaseGrants(job2, scope2, w) <= grants
    ensures job != job2
    ensures scope.repository.Some? ==> scope.repository != scope2.repository
    ensures scope.workspace.Some? && scope.workspace == scope2.workspace ==>
              scope.repository.Some? && scope2.repository.Some?
  {
    assert JobGrant(job, v) in grants && JobGrant(job2, w) in grants;
    assert !Clash(env, JobGrant(job, v), JobGrant(job2, w));
    if scope.repository.Some? && scope2.repository.Some? {
      assert Grant(RepositoryKey(scope.repository.value), v, false) in RepositoryGrants(scope, v);
      assert Grant(RepositoryKey(scope2.repository.value), w, false) in RepositoryGrants(scope2, w);
      assert !Clash(env, Grant(RepositoryKey(scope.repository.value), v, false),
                    Grant(RepositoryKey(scope2.repository.value), w, false));
    }
    if scope.workspace.Some? && scope2.workspace.Some? {
      var g := Grant(WorkspaceKey(scope.workspace.value), v, scope.repository.Some?);
      var h := Grant(WorkspaceKey(scope2.workspace.value), w, scope2.repository.Some?);
      assert g in WorkspaceGrants(scope, v) && h in WorkspaceGrants(scope2, w);
      assert !Clash(env, g, h);
    }
  }

  /**
    Fencing: a finalizer of any worker that holds or once held a claim, with its lease or without,
    takes effect only if the row's latest claim is that worker's own current one, still unended.
    No claim ever ends twice, by its worker or by recovery.
  */
  lemma FinalizersAreFenced(env: Environment, run: seq<System>, i: nat, w: WorkerId, failure: Failure,
                            payload: Payload, delay: int, reset: bool)
    requires IsRun(env, run) && i < |run| && HasClaim(PhaseOf(run[i], w))
    ensures var s := run[i];
            var c := PhaseOf(s, w).claim;
            && (SucceedTx(s.rows, c.job, w, s.now).Ok? || FailTx(s.rows, c.job, w, s.now, failure).Ok?
                || RequeueTx(s.rows, c.job, w, s.now, payload, delay, reset).Ok? ==>
                  && c.job in s.latest && s.latest[c.job] == c.serial
                  && c.serial < |s.claims| && s.claims[c.serial] == ClaimRecord(c.job, w)
                  && c.serial !in s.ended && Unchanged(s.rows[c.job], c.row))
            && (forall n: nat :: s.ended[n] <= 1)
  {
    RunsKeepInv(env, run, i);
    assert ClaimOk(run[i], w, PhaseOf(run[i], w).claim);
    assert forall n: nat | n in run[i].ended :: run[i].ended[n] == 1;
  }

  /** Attempt accounting, lock fields and status, for every row in every state. */
  lemma AttemptsAreAccounted(env: Environment, run: seq<System>, i: nat, id: Uuid)
    requires IsRun(env, run) && i < |run| && id in run[i].rows
    ensures var row := run[i].rows[id];
            && id in run[i].tally && row.attempts == run[i].tally[id].claims - run[i].tally[id].handBacks
            && (row.status.Running? ==> 1 <= row.attempts <= row.maxAttempts)
            && (row.status.Running? <==> row.lockedBy.Some?) && (row.status.Running? <==> row.lockedAt.Some?)
            && (forall now :: Waiting(row) ==> (Claimable(row, now) <==> row.availableAt <= now))
  {
    RunsKeepInv(env, run, i);
  }

  lemma TerminalDispatch(env: Environment, s: System, w: WorkerId, handled: HandlerResult, jitter: int, id: Uuid)
    requires TableOk(s.rows) && Enabled(env, s, Dispatch(w, handled, jitter)) && id in s.rows && Terminal(s.rows[id])
    ensures id in Apply(env, s, Dispatch(w, handled, jitter)).rows
    ensures Apply(env, s, Dispatch(w, handled, jitter)).rows[id] == s.rows[id]
  {
    var c := PhaseOf(s, w).claim;
    DispatchReportsRow(s.rows, c.job, c.row.jobType, w, s.now, jitter, handled);
  }

  lemma TerminalStep(env: Environment, s: System, step: Step, id: Uuid)
    requires TableOk(s.rows) && Enabled(env, s, step) && id in s.rows && Terminal(s.rows[id])
    ensures id in Apply(env, s, step).rows && Apply(env, s, step).rows[id] == s.rows[id]
  {
    if step.Dispatch? {
      TerminalDispatch(env, s, step.worker, step.handled, step.jitter, id);
    } else if MovesOnly(step) {
      MovesOnlyEffect(env, s, step);
    }
  }

  lemma TerminalNext(env: Environment, s: System, t: System, id: Uuid)
    requires TableOk(s.rows) && Next(env, s, t) && id in s.rows && Terminal(s.rows[id])
    ensures id in t.rows && t.rows[id] == s.rows[id]
  {
    var step :| Enabled(env, s, step) && t == Apply(env, s, step);
    TerminalStep(env, s, step, id);
  }

  /** SUCCEEDED and DEAD are never left, and such a row is never written again. */
  lemma {:induction false} TerminalRowsStay(env: Environment, run: seq<System>, i: nat, k: nat, id: Uuid)
    requires IsRun(env, run) && i <= k < |run| && id in run[i].rows && Terminal(run[i].rows[id])
    ensures id in run[k].rows && run[k].rows[id] == run[i].rows[id]
    decreases k
  {
    if i < k {
      TerminalRowsStay(env, run, i, k - 1, id);
      RunsKeepInv(env, run, k - 1);
      assert Next(env, run[k - 1], run[k - 1 + 1]);
      TerminalNext(env, run[k - 1], run[k], id);
    }
  }

  lemma RequestsGrowStep(env: Environment, s: System, step: Step)
    requires Enabled(env, s, step) && !MovesOnly(step)
    ensures s.requests <= Apply(env, s, step).requests
  {
  }

  lemma RequestsGrow(env: Environment, s: System, t: System)
    requires Next(env, s, t)
    ensures s.requests <= t.requests
  {
    var step :| Enabled(env, s, step) && t == Apply(env, s, step);
    if MovesOnly(step) {
      MovesOnlyEffect(env, s, step);
    } else {
      RequestsGrowStep(env, s, step);
    }
  }

  lemma {:induction false} RequestsAreKept(env: Environment, run: seq<System>, i: nat, k: nat)
    requires IsRun(env, run) && i <= k < |run|
    ensures run[i].requests <= run[k].requests
    decreases k
  {
    if i < k {
      RequestsAreKept(env, run, i, k - 1);
      assert Next(env, run[k - 1], run[k - 1 + 1]);
      RequestsGrow(env, run[k - 1], run[k]);
    }
  }

  /**
    No affected instant is lost by coalescing: in every state after a ranged enqueue, some
    recalculation row of the repository asks for it and a range covering the request, and either
    waits or was claimed after the enqueue; once it succeeded, the execution that did so was given a
    payload that names this repository and a range covering the request.
  */
  lemma NoRequestIsLost(env: Environment, run: seq<System>, i: nat, k: nat, newId: Uuid, workspace: Uuid,
                        repository: Uuid, range: Range, maxAttempts: nat)
    requires IsRun(env, run) && i + 1 <= k < |run|
    requires var step := EnqueueMetrics(newId, workspace, repository, Some(range), maxAttempts);
             Enabled(env, run[i], step) && run[i + 1] == Apply(env, run[i], step)
    ensures exists id | id in run[k].rows ::
              var row := run[k].rows[id];
              && row.jobType.RecalculateMetrics? && row.repositoryId == Some(repository)
              && AsksFor(row.payload, repository, range)
              && (Waiting(row) || (id in run[k].latest && |run[i].claims| <= run[k].latest[id]))
              && (row.status.Succeeded? ==>
                    && id in run[k].served && |run[i].claims| <= run[k].served[id].0
                    && AsksFor(run[k].served[id].1, repository, range))
  {
    var id := EnqueueMetricsTx(run[i].rows, newId, run[i].now, workspace, repository, Some(range), maxAttempts).0;
    var q := Request(id, repository, range, |run[i].claims|);
    assert q in run[i + 1].requests;
    RequestsAreKept(env, run, i + 1, k);
    RunsKeepInv(env, run, k);
    assert RequestOk(run[k], q);
  }

  // ----- the lock steps of one worker, without interference -------------------------------------

  lemma CheckedPhase(env: Environment, s: System, w: WorkerId)
    requires Enabled(env, s, LockJob(w))
    ensures var c := s.phases[w].claim;
            var t := Apply(env, Apply(env, s, LockJob(w)), CheckOwner(w));
            if StillClaimed(s.rows, c.job, c.row, w)
            then t == s.(phases := t.phases, grants := s.grants + {JobGrant(c.job, w)})
                 && PhaseOf(t, w) == Scoped(c, ResolveScope(env, s.rows[c.job], c.row))
            else PhaseOf(t, w) == Idle
  {
  }

  lemma OwnGrantIsNoObstacle(env: Environment, grants: set<Grant>, added: set<Grant>, w: WorkerId, wanted: set<Grant>)
    requires forall g | g in added + wanted :: g.session == w
    ensures (forall g | g in wanted :: Free(env, grants + added, g))
       <==> (forall g | g in wanted :: Free(env, grants, g))
  {
  }

  /** From the re-checked state on, both remaining locks can be taken exactly when both were free before. */
  lemma RemainingLocks(env: Environment, t: System, w: WorkerId, grants: set<Grant>)
    requires PhaseOf(t, w).Scoped? && t.grants == grants + {JobGrant(t.phases[w].claim.job, w)}
    ensures var scope := t.phases[w].scope;
            (Enabled(env, t, LockWorkspace(w))
             && Enabled(env, Apply(env, t, LockWorkspace(w)), LockRepository(w)))
            <==> forall g | g in WorkspaceGrants(scope, w) + RepositoryGrants(scope, w) :: Free(env, grants, g)
  {
    var scope := t.phases[w].scope;
    var own := {JobGrant(t.phases[w].claim.job, w)};
    var wanted := WorkspaceGrants(scope, w);
    OwnGrantIsNoObstacle(env, grants, own, w, wanted);
    if Enabled(env, t, LockWorkspace(w)) {
      OwnGrantIsNoObstacle(env, grants, own + wanted, w, RepositoryGrants(scope, w));
      assert grants + own + wanted == grants + (own + wanted);
      var u := Apply(env, t, LockWorkspace(w));
      assert u.grants == grants + (own + wanted) && u.phases[w].scope == scope;
    }
  }

  /**
    The lock steps taken without interference decide as `Leases.AcquireTx` does: an ownership error
    when the re-check fails, a lease in the resolved scope exactly when every lock is free, and a
    busy scope otherwise.
  */
  lemma UninterruptedAcquire(env: Environment, s: System, w: WorkerId)
    requires PhaseOf(s, w).Claimed?
    ensures var c := s.phases[w].claim;
            var r := AcquireTx(env, s.rows, s.grants, c.job, c.row, w);
            && (r.Ok? || r == Err(OwnershipChanged) ==> Enabled(env, s, LockJob(w)))
            && (Enabled(env, s, LockJob(w)) ==>
                  var t := Apply(env, Apply(env, s, LockJob(w)), CheckOwner(w));
                  && (r == Err(OwnershipChanged) <==> PhaseOf(t, w).Idle?)
                  && (PhaseOf(t, w).Scoped? ==>
                        (r == Ok(t.phases[w].scope) <==>
                          Enabled(env, t, LockWorkspace(w))
                          && Enabled(env, Apply(env, t, LockWorkspace(w)), LockRepository(w)))))
  {
    if Enabled(env, s, LockJob(w)) {
      CheckedPhase(env, s, w);
      var t := Apply(env, Apply(env, s, LockJob(w)), CheckOwner(w));
      if PhaseOf(t, w).Scoped? {
        RemainingLocks(env, t, w, s.grants);
      }
    }
  }
}
