/** The table stays sound, and locks never clash and match their workers' phases. */
module LockInvariants {
  import opened Prelude
  import opened Jobs
  import opened Queue
  import opened Leases
  import opened Protocol

  // ----- the table -----------------------------------------------------------------------------

  lemma TablePoll(env: Environment, s: System, w: WorkerId, staleAfter: int, buried: set<Uuid>, retried: set<Uuid>,
                  picked: Option<Uuid>)
    requires TableOk(s.rows) && Enabled(env, s, Poll(w, staleAfter, buried, retried, picked))
    ensures TableOk(Apply(env, s, Poll(w, staleAfter, buried, retried, picked)).rows)
  {
    RecoveryKeepsTable(s.rows, buried, retried, s.now);
    if picked.Some? {
      var recovered := Recover(s.rows, buried, retried, s.now);
      NotWaitingKeepsTable(recovered, picked.value, ClaimRow(recovered[picked.value], s.now, w));
    }
  }

  lemma NotWaitingKeepsTable(rows: Rows, id: Uuid, row: Row)
    requires TableOk(rows) && RowOk(row) && !Waiting(row)
    ensures TableOk(rows[id := row])
  {
    CommitFailsIffSlotTaken(rows, id, row);
  }

  lemma TableBeat(rows: Rows, id: Uuid, worker: WorkerId, attempts: nat, now: Instant)
    requires TableOk(rows)
    ensures TableOk(HeartbeatTx(rows, id, worker, attempts, now))
  {
    if OwnedIn(rows, id, worker) {
      NotWaitingKeepsTable(rows, id, HeartbeatRow(rows[id], now));
    }
  }

  lemma TableDispatch(env: Environment, s: System, w: WorkerId, handled: HandlerResult, jitter: int)
    requires TableOk(s.rows) && Enabled(env, s, Dispatch(w, handled, jitter))
    ensures TableOk(Apply(env, s, Dispatch(w, handled, jitter)).rows)
  {
    var c := PhaseOf(s, w).claim;
    DispatchReportsRow(s.rows, c.job, c.row.jobType, w, s.now, jitter, handled);
  }

  lemma TableStep(env: Environment, s: System, step: Step)
    requires TableOk(s.rows) && Enabled(env, s, step)
    ensures TableOk(Apply(env, s, step).rows)
  {
    match step
    case EnqueueMetrics(id, workspace, repository, affected, max) =>
      EnqueueKeepsTable(s.rows, id, s.now, workspace, repository, affected, max);
    case Poll(w, staleAfter, buried, retried, picked) => TablePoll(env, s, w, staleAfter, buried, retried, picked);
    case Beat(w) => TableBeat(s.rows, PhaseOf(s, w).claim.job, w, PhaseOf(s, w).claim.row.attempts, s.now);
    case Dispatch(w, handled, jitter) => TableDispatch(env, s, w, handled, jitter);
    case _ =>
  }

  // ----- locks ---------------------------------------------------------------------------------

  /** No two sessions' locks clash, and every session holds exactly what its worker's phase says. */
  ghost predicate LocksOk(env: Environment, phases: map<WorkerId, Phase>, grants: set<Grant>) {
    && Compatible(env, grants)
    && (forall g | g in grants :: g.session in phases)
    && (forall w | w in phases :: HeldBy(grants, w) == Held(w, phases[w]))
  }

  /** A change of one worker's phase and of its own grants only. */
  lemma LocksMove(env: Environment, phases: map<WorkerId, Phase>, before: set<Grant>, worker: WorkerId, phase: Phase,
                  after: set<Grant>)
    requires LocksOk(env, phases, before)
    requires Released(after, worker) == Released(before, worker)
    requires HeldBy(after, worker) == Held(worker, phase)
    requires forall g | g in Held(worker, phase) :: g in before || Free(env, before, g)
    ensures LocksOk(env, phases[worker := phase], after)
  {
    forall g | g in after ensures g in before || (g.session == worker && Free(env, before, g)) {
      if g.session == worker {
        assert g in HeldBy(after, worker);
      } else {
        assert g in Released(after, worker);
      }
    }
    forall w | w in phases && w != worker ensures HeldBy(after, w) == Held(w, phases[w]) {
      forall g ensures g in HeldBy(after, w) <==> g in HeldBy(before, w) {
        assert g.session == w ==> (g in Released(after, worker) <==> g in Released(before, worker));
      }
    }
  }

  lemma LocksKeep(env: Environment, phases: map<WorkerId, Phase>, grants: set<Grant>, worker: WorkerId, phase: Phase)
    requires LocksOk(env, phases, grants)
    requires Held(worker, phase) == if worker in phases then Held(worker, phases[worker]) else {}
    ensures LocksOk(env, phases[worker := phase], grants)
  {
    if worker !in phases {
      assert HeldBy(grants, worker) == {};
    }
    forall g | g in Held(worker, phase) ensures g in grants {
      assert g in HeldBy(grants, worker);
    }
    LocksMove(env, phases, grants, worker, phase, grants);
  }

  lemma LocksClose(env: Environment, phases: map<WorkerId, Phase>, grants: set<Grant>, worker: WorkerId, phase: Phase)
    requires LocksOk(env, phases, grants) && Held(worker, phase) == {}
    ensures LocksOk(env, phases[worker := phase], Released(grants, worker))
  {
    assert HeldBy(Released(grants, worker), worker) == {};
    LocksMove(env, phases, grants, worker, phase, Released(grants, worker));
  }

  lemma LocksGrow(env: Environment, phases: map<WorkerId, Phase>, grants: set<Grant>, worker: WorkerId, phase: Phase,
                  added: set<Grant>)
    requires LocksOk(env, phases, grants) && worker in phases
    requires Held(worker, phase) == Held(worker, phases[worker]) + added
    requires forall g | g in added :: g.session == worker && Free(env, grants, g)
    ensures LocksOk(env, phases[worker := phase], grants + added)
  {
    assert HeldBy(grants + added, worker) == HeldBy(grants, worker) + added;
    assert Released(grants + added, worker) == Released(grants, worker);
    forall g | g in Held(worker, phase) ensures g in grants || Free(env, grants, g) {
      assert g in HeldBy(grants, worker) || g in added;
    }
    LocksMove(env, phases, grants, worker, phase, grants + added);
  }

  lemma LocksCrash(env: Environment, phases: map<WorkerId, Phase>, grants: set<Grant>, ws: set<WorkerId>)
    requires LocksOk(env, phases, grants)
    ensures LocksOk(env, map w | w in phases :: if w in ws then Gone else phases[w],
                    set g | g in grants && g.session !in ws)
  {
    var left := set g | g in grants && g.session !in ws;
    forall w | w in phases ensures HeldBy(left, w) == if w in ws then {} else HeldBy(grants, w) {
    }
  }

  /** The steps by which a worker takes locks. */
  lemma LocksAcquireStep(env: Environment, s: System, step: Step)
    requires LocksOk(env, s.phases, s.grants) && Enabled(env, s, step)
    requires step.LockJob? || step.LockWorkspace? || step.LockRepository?
    ensures LocksOk(env, Apply(env, s, step).phases, Apply(env, s, step).grants)
  {
    var w := step.worker;
    var phase := s.phases[w];
    match step
    case LockJob(_) => LocksGrow(env, s.phases, s.grants, w, JobLocked(phase.claim), {JobGrant(phase.claim.job, w)});
    case LockWorkspace(_) =>
      LocksGrow(env, s.phases, s.grants, w, WorkspaceLocked(phase.claim, phase.scope), WorkspaceGrants(phase.scope, w));
    case LockRepository(_) =>
      LocksGrow(env, s.phases, s.grants, w, Executing(phase.claim, phase.scope), RepositoryGrants(phase.scope, w));
  }

  /** The steps that close a worker's lease session. */
  lemma LocksCloseStep(env: Environment, s: System, step: Step)
    requires LocksOk(env, s.phases, s.grants) && Enabled(env, s, step)
    requires step.ScopeIsBusy? || step.AcquireFails? || step.DispatchFails? || step.Release? || step.LoseSession?
    ensures LocksOk(env, Apply(env, s, step).phases, Apply(env, s, step).grants)
  {
    LocksClose(env, s.phases, s.grants, step.worker, Apply(env, s, step).phases[step.worker]);
  }

  lemma LocksCheckOwner(env: Environment, s: System, w: WorkerId)
    requires LocksOk(env, s.phases, s.grants) && Enabled(env, s, CheckOwner(w))
    ensures LocksOk(env, Apply(env, s, CheckOwner(w)).phases, Apply(env, s, CheckOwner(w)).grants)
  {
    var c := s.phases[w].claim;
    if StillClaimed(s.rows, c.job, c.row, w) {
      LocksKeep(env, s.phases, s.grants, w, Scoped(c, ResolveScope(env, s.rows[c.job], c.row)));
    } else {
      LocksClose(env, s.phases, s.grants, w, Idle);
    }
  }

  /** The steps that change a worker's phase, but none of its locks. */
  lemma LocksKeepStep(env: Environment, s: System, step: Step)
    requires LocksOk(env, s.phases, s.grants) && Enabled(env, s, step)
    requires step.Start? || step.Defer? || step.DeferFails? || (step.Poll? && step.picked.Some?)
    ensures LocksOk(env, Apply(env, s, step).phases, Apply(env, s, step).grants)
  {
    LocksKeep(env, s.phases, s.grants, step.worker, Apply(env, s, step).phases[step.worker]);
  }

  lemma LocksDispatch(env: Environment, s: System, w: WorkerId, handled: HandlerResult, jitter: int)
    requires LocksOk(env, s.phases, s.grants) && Enabled(env, s, Dispatch(w, handled, jitter))
    ensures var t := Apply(env, s, Dispatch(w, handled, jitter));
            LocksOk(env, t.phases, t.grants)
  {
    var phase := s.phases[w];
    var r := ApplyDispatch(s, w, phase.claim, handled, jitter).1;
    LocksKeep(env, s.phases, s.grants, w,
              if phase.Executing? then Finished(phase.claim, phase.scope, r) else Idle);
  }

  lemma LocksStep(env: Environment, s: System, step: Step)
    requires LocksOk(env, s.phases, s.grants) && Enabled(env, s, step)
    ensures LocksOk(env, Apply(env, s, step).phases, Apply(env, s, step).grants)
  {
    if step.LockJob? || step.LockWorkspace? || step.LockRepository? {
      LocksAcquireStep(env, s, step);
    } else if step.ScopeIsBusy? || step.AcquireFails? || step.DispatchFails? || step.Release? || step.LoseSession? {
      LocksCloseStep(env, s, step);
    } else if step.Start? || step.Defer? || step.DeferFails? || (step.Poll? && step.picked.Some?) {
      LocksKeepStep(env, s, step);
    } else {
      match step
      case Crash(ws) => LocksCrash(env, s.phases, s.grants, ws);
      case CheckOwner(w) => LocksCheckOwner(env, s, w);
      case Dispatch(w, handled, jitter) => LocksDispatch(env, s, w, handled, jitter);
      case _ =>
    }
  }
}
