/**
  The worker pool as a state machine: any number of workers over any number of jobs, one step per
  committed transaction or lock attempt. The fields after `now` are history, never read by a step.
*/
module Protocol {
  import opened Prelude
  import opened Jobs
  import opened Queue
  import opened Leases

  /** A claimed job: the row as the claim returned it, and the claim's place in history. */
  datatype Claim = Claim(job: Uuid, row: Row, serial: nat)

  datatype Phase =
    | Idle
    | Claimed(claim: Claim)                        // claim committed, nothing locked
    | JobLocked(claim: Claim)                      // job lock held, ownership not yet re-checked
    | Scoped(claim: Claim, scope: Scope)           // ownership re-checked, scope resolved
    | WorkspaceLocked(claim: Claim, scope: Scope)
    | Executing(claim: Claim, scope: Scope)        // handler running under the full lease
    | Unguarded(claim: Claim)                      // lease session lost, handler still running
    | Finished(claim: Claim, scope: Scope, result: Result<Outcome, TxError>)  // lease not yet released
    | Deferring(claim: Claim)                      // scope busy or shutting down
    | Gone

  datatype ClaimRecord = ClaimRecord(job: Uuid, worker: WorkerId)

  /** Claims and hand-backs of a row since its attempts were last reset. */
  datatype Tally = Tally(claims: nat, handBacks: nat)

  /** A ranged recalculation request: the row it went to, and how many claims preceded it. */
  datatype Request = Request(job: Uuid, repository: Uuid, range: Range, serial: nat)

  datatype System = System(
    rows: Rows,
    grants: set<Grant>,
    phases: map<WorkerId, Phase>,
    now: Instant,
    claims: seq<ClaimRecord>,
    latest: map<Uuid, nat>,
    ended: multiset<nat>,
    tally: map<Uuid, Tally>,
    served: map<Uuid, (nat, Payload)>,
    requests: set<Request>)

  datatype Step =
    | Tick(now: Instant)
    | Start(worker: WorkerId)
    | Insert(id: Uuid, row: Row)
    | EnqueueMetrics(newId: Uuid, workspace: Uuid, repository: Uuid, affected: Option<Range>, maxAttempts: nat)
    | Poll(worker: WorkerId, staleAfter: int, buried: set<Uuid>, retried: set<Uuid>, picked: Option<Uuid>)
    | LockJob(worker: WorkerId)
    | CheckOwner(worker: WorkerId)
    | LockWorkspace(worker: WorkerId)
    | LockRepository(worker: WorkerId)
    | ScopeIsBusy(worker: WorkerId)   // a lock attempt failed, or the pool is shutting down
    | AcquireFails(worker: WorkerId)  // any other error while acquiring: the row stays RUNNING
    | Beat(worker: WorkerId)
    | Dispatch(worker: WorkerId, handled: HandlerResult, jitter: int)
    | DispatchFails(worker: WorkerId) // the finalizing transaction itself failed
    | Release(worker: WorkerId)
    | Defer(worker: WorkerId)
    | DeferFails(worker: WorkerId)
    | LoseSession(worker: WorkerId)   // the handler runs on until its process exits
    | Crash(workers: set<WorkerId>)

  function PhaseOf(s: System, worker: WorkerId): Phase {
    if worker in s.phases then s.phases[worker] else Gone
  }

  predicate Acquiring(phase: Phase) {
    phase.Claimed? || phase.JobLocked? || phase.Scoped? || phase.WorkspaceLocked?
  }

  predicate HasClaim(phase: Phase) {
    !phase.Idle? && !phase.Gone?
  }

  /** Phases in which ownership has been re-checked under the job lock and not yet given up. */
  predicate Guarded(phase: Phase) {
    phase.Scoped? || phase.WorkspaceLocked? || phase.Executing?
  }

  /** The locks a worker's lease session holds in each phase: none unless the lease is being used. */
  function Held(worker: WorkerId, phase: Phase): set<Grant> {
    match phase
    case JobLocked(c) => {JobGrant(c.job, worker)}
    case Scoped(c, _) => {JobGrant(c.job, worker)}
    case WorkspaceLocked(c, scope) => {JobGrant(c.job, worker)} + WorkspaceGrants(scope, worker)
    case Executing(c, scope) => LeaseGrants(c.job, scope, worker)
    case Finished(c, scope, _) => LeaseGrants(c.job, scope, worker)
    case _ => {}
  }

  /** Jobs whose advisory lock another session holds, as the recovery statements see them. */
  function LockedJobs(env: Environment, s: System, worker: WorkerId): set<Uuid> {
    set id | id in s.rows && !Free(env, s.grants, JobGrant(id, worker))
  }

  predicate Enabled(env: Environment, s: System, step: Step) {
    match step
    case Tick(now) => s.now <= now
    case Start(w) => w !in s.phases
    case Insert(id, row) => id !in s.rows && FreshRow(row) && RowOk(row) && UniqueWaiting(s.rows[id := row])
    case EnqueueMetrics(id, _, _, _, max) => id !in s.rows && 0 < max && UniqueWaiting(s.rows)
    case Poll(w, staleAfter, buried, retried, picked) =>
      && PhaseOf(s, w).Idle?
      // SKIP LOCKED may leave stale rows out; a retry that breaks the unique index rolls back.
      && buried <= StaleExhausted(s.rows, s.now, staleAfter, LockedJobs(env, s, w))
      && retried <= StaleRetryable(s.rows, s.now, staleAfter, LockedJobs(env, s, w))
      && UniqueWaiting(Recover(s.rows, buried, retried, s.now))
      && (picked.Some? ==> picked.value in s.rows
                           && Claimable(Recover(s.rows, buried, retried, s.now)[picked.value], s.now))
    case LockJob(w) => PhaseOf(s, w).Claimed? && Free(env, s.grants, JobGrant(PhaseOf(s, w).claim.job, w))
    case CheckOwner(w) => PhaseOf(s, w).JobLocked?
    case LockWorkspace(w) =>
      PhaseOf(s, w).Scoped? && forall g | g in WorkspaceGrants(PhaseOf(s, w).scope, w) :: Free(env, s.grants, g)
    case LockRepository(w) =>
      && PhaseOf(s, w).WorkspaceLocked?
      && forall g | g in RepositoryGrants(PhaseOf(s, w).scope, w) :: Free(env, s.grants, g)
    case ScopeIsBusy(w) => Acquiring(PhaseOf(s, w))
    case AcquireFails(w) => Acquiring(PhaseOf(s, w))
    case Beat(w) => Guarded(PhaseOf(s, w)) || PhaseOf(s, w).Finished?
    case Dispatch(w, handled, _) =>
      && (PhaseOf(s, w).Executing? || PhaseOf(s, w).Unguarded?)
      // The recalculation handler never requeues itself.
      && (PhaseOf(s, w).claim.row.jobType.RecalculateMetrics? ==> !handled.Requeued?)
    case DispatchFails(w) => PhaseOf(s, w).Executing? || PhaseOf(s, w).Unguarded?
    case Release(w) => PhaseOf(s, w).Finished?
    case Defer(w) => PhaseOf(s, w).Deferring?
    case DeferFails(w) => PhaseOf(s, w).Deferring?
    case LoseSession(w) => PhaseOf(s, w).Executing?
    case Crash(ws) => ws <= s.phases.Keys
  }

  function Moved(s: System, worker: WorkerId, phase: Phase): System {
    s.(phases := s.phases[worker := phase])
  }

  /** The lease session closes: all its locks go. */
  function Closed(s: System, worker: WorkerId, phase: Phase): System {
    Moved(s, worker, phase).(grants := Released(s.grants, worker))
  }

  function TallyOf(s: System, id: Uuid): Tally {
    if id in s.tally then s.tally[id] else Tally(0, 0)
  }

  function ApplyEnqueue(s: System, newId: Uuid, workspace: Uuid, repository: Uuid, affected: Option<Range>,
                        maxAttempts: nat): System
    requires UniqueWaiting(s.rows)
  {
    var (id, rows) := EnqueueMetricsTx(s.rows, newId, s.now, workspace, repository, affected, maxAttempts);
    s.(rows := rows, tally := s.tally[id := Tally(0, 0)],
       requests := if affected.None? then s.requests
                   else s.requests + {Request(id, repository, affected.value, |s.claims|)})
  }

  /** The claims that recovery ends. */
  function RecoveredSerials(s: System, recovered: set<Uuid>): set<nat> {
    set id | id in recovered && id in s.latest :: s.latest[id]
  }

  function ApplyRecovery(s: System, buried: set<Uuid>, retried: set<Uuid>): System {
    s.(rows := Recover(s.rows, buried, retried, s.now),
       ended := s.ended + multiset(RecoveredSerials(s, buried + retried)))
  }

  function ApplyClaim(s: System, worker: WorkerId, id: Uuid): System
    requires id in s.rows
  {
    var row := ClaimRow(s.rows[id], s.now, worker);
    s.(rows := s.rows[id := row],
       phases := s.phases[worker := Claimed(Claim(id, row, |s.claims|))],
       claims := s.claims + [ClaimRecord(id, worker)],
       latest := s.latest[id := |s.claims|],
       tally := s.tally[id := TallyOf(s, id).(claims := TallyOf(s, id).claims + 1)])
  }

  /** History of a committed hand-back: `reset` clears the tally as it clears the attempts. */
  function HandedBack(s: System, id: Uuid, reset: bool): map<Uuid, Tally> {
    s.tally[id := if reset then Tally(0, 0) else TallyOf(s, id).(handBacks := TallyOf(s, id).handBacks + 1)]
  }

  function ApplyDispatch(s: System, worker: WorkerId, claim: Claim, handled: HandlerResult, jitter: int)
    : (System, Result<Outcome, TxError>)
  {
    var (rows, r) := DispatchTx(s.rows, claim.job, claim.row.jobType, worker, s.now, jitter, handled);
    (s.(rows := rows,
        ended := if r.Ok? then s.ended + multiset{claim.serial} else s.ended,
        tally := if r == Ok(ContinuationRequeued) && handled.Requeued?
                 then HandedBack(s, claim.job, handled.reset) else s.tally,
        served := if r == Ok(SucceededJob) then s.served[claim.job := (claim.serial, claim.row.payload)]
                  else s.served),
     r)
  }

  function ApplyDefer(s: System, worker: WorkerId, claim: Claim): System {
    var tx := RequeueTx(s.rows, claim.job, worker, s.now, claim.row.payload, DEFER_DELAY, false);
    if tx.Err? then s
    else s.(rows := tx.value, ended := s.ended + multiset{claim.serial}, tally := HandedBack(s, claim.job, false))
  }

  function Apply(env: Environment, s: System, step: Step): System
    requires Enabled(env, s, step)
  {
    match step
    case Tick(now) => s.(now := now)
    case Start(w) => Moved(s, w, Idle)
    case Insert(id, row) => s.(rows := s.rows[id := row], tally := s.tally[id := Tally(0, 0)])
    case EnqueueMetrics(id, workspace, repository, affected, max) =>
      ApplyEnqueue(s, id, workspace, repository, affected, max)
    case Poll(w, _, buried, retried, picked) =>
      var recovered := ApplyRecovery(s, buried, retried);
      if picked.None? then recovered else ApplyClaim(recovered, w, picked.value)
    case LockJob(w) =>
      var c := PhaseOf(s, w).claim;
      Moved(s, w, JobLocked(c)).(grants := s.grants + {JobGrant(c.job, w)})
    case CheckOwner(w) =>
      var c := PhaseOf(s, w).claim;
      if StillClaimed(s.rows, c.job, c.row, w)
      then Moved(s, w, Scoped(c, ResolveScope(env, s.rows[c.job], c.row)))
      else Closed(s, w, Idle)
    case LockWorkspace(w) =>
      var (c, scope) := (PhaseOf(s, w).claim, PhaseOf(s, w).scope);
      Moved(s, w, WorkspaceLocked(c, scope)).(grants := s.grants + WorkspaceGrants(scope, w))
    case LockRepository(w) =>
      var (c, scope) := (PhaseOf(s, w).claim, PhaseOf(s, w).scope);
      Moved(s, w, Executing(c, scope)).(grants := s.grants + RepositoryGrants(scope, w))
    case ScopeIsBusy(w) => Closed(s, w, Deferring(PhaseOf(s, w).claim))
    case AcquireFails(w) => Closed(s, w, Idle)
    case Beat(w) =>
      var c := PhaseOf(s, w).claim;
      s.(rows := HeartbeatTx(s.rows, c.job, w, c.row.attempts, s.now))
    case Dispatch(w, handled, jitter) =>
      var phase := PhaseOf(s, w);
      var (after, r) := ApplyDispatch(s, w, phase.claim, handled, jitter);
      if phase.Executing? then Moved(after, w, Finished(phase.claim, phase.scope, r)) else Moved(after, w, Idle)
    case DispatchFails(w) => Closed(s, w, Idle)
    case Release(w) => Closed(s, w, Idle)
    case Defer(w) => Moved(ApplyDefer(s, w, PhaseOf(s, w).claim), w, Idle)
    case DeferFails(w) => Moved(s, w, Idle)
    case LoseSession(w) => Closed(s, w, Unguarded(PhaseOf(s, w).claim))
    case Crash(ws) =>
      s.(grants := (set g | g in s.grants && g.session !in ws),
         phases := map w | w in s.phases :: if w in ws then Gone else s.phases[w])
  }

  ghost predicate Init(s: System) {
    && s.rows == map[] && s.grants == {} && s.phases == map[]
    && s.claims == [] && s.latest == map[] && s.ended == multiset{} && s.tally == map[]
    && s.served == map[] && s.requests == {}
  }

  ghost predicate Next(env: Environment, s: System, t: System) {
    exists step :: Enabled(env, s, step) && t == Apply(env, s, step)
  }

  /** A finite run: every interleaving of the steps, from the empty system. */
  ghost predicate IsRun(env: Environment, run: seq<System>) {
    && run != [] && Init(run[0])
    && forall i | 0 <= i < |run| - 1 :: Next(env, run[i], run[i + 1])
  }

  ghost predicate StepAt(env: Environment, run: seq<System>, steps: seq<Step>, i: nat)
    requires i < |steps| && |run| == |steps| + 1
  {
    Enabled(env, run[i], steps[i]) && run[i + 1] == Apply(env, run[i], steps[i])
  }

  /** A run together with the steps that make it. */
  ghost predicate IsScript(env: Environment, run: seq<System>, steps: seq<Step>) {
    && |run| == |steps| + 1 && Init(run[0])
    && forall i: nat | i < |steps| :: StepAt(env, run, steps, i)
  }
}
