/**
  Session advisory locks and the lease that guards one executing job: the job itself, then its
  workspace (shared for repository work, exclusive otherwise), then its repository.
*/
module Leases {
  import opened Prelude
  import opened Jobs
  import opened Queue
  import opened JobTables

  datatype Key = JobKey(id: Uuid) | WorkspaceKey(id: Uuid) | RepositoryKey(id: Uuid)

  /** One advisory lock held by the lease session of one worker. */
  datatype Grant = Grant(key: Key, session: WorkerId, isShared: bool)

  /** The 64-bit key hash, whatever its collisions, and the tables that scope resolution reads. */
  datatype Environment = Environment(
    hash: Key -> int,
    eventWorkspace: map<Uuid, Uuid>,
    eventRepository: map<Uuid, Uuid>,
    repositoryWorkspace: map<Uuid, Uuid>,
    jiraWorkspace: map<Uuid, Uuid>)

  datatype Scope = Scope(workspace: Option<Uuid>, repository: Option<Uuid>)

  datatype LeaseError = ScopeBusy | OwnershipChanged | ConnectionFailed

  /** Where the guard's database session fails, if it does, and whether the handler is done by then. */
  datatype Fault = NoFault | WhileAcquiring | FirstBeat | LaterBeat(stopped: bool)

  /** Grants of different sessions clash when their keys hash alike and either is exclusive. */
  predicate Clash(env: Environment, g: Grant, h: Grant) {
    g.session != h.session && env.hash(g.key) == env.hash(h.key) && !(g.isShared && h.isShared)
  }

  predicate Free(env: Environment, grants: set<Grant>, grant: Grant) {
    forall g | g in grants :: !Clash(env, g, grant)
  }

  ghost predicate Compatible(env: Environment, grants: set<Grant>) {
    forall g, h | g in grants && h in grants :: !Clash(env, g, h)
  }

  function Released(grants: set<Grant>, session: WorkerId): set<Grant> {
    set g | g in grants && g.session != session
  }

  function HeldBy(grants: set<Grant>, session: WorkerId): set<Grant> {
    set g | g in grants && g.session == session
  }

  function Parsed(text: IdText): Option<Uuid> {
    if text.WellFormed? then Some(text.id) else None
  }

  /** `payload.get(a) or payload.get(b)`: a malformed first value hides the second. */
  function FirstPresent(a: IdText, b: IdText): IdText {
    if a.Absent? then b else a
  }

  function Lookup(table: map<Uuid, Uuid>, id: Option<Uuid>): Option<Uuid> {
    if id.Some? && id.value in table then Some(table[id.value]) else None
  }

  predicate WorkspaceWide(jobType: JobType) {
    jobType.DeleteWorkspace? || jobType.SyncGithubRepositories? || jobType.SyncJiraProjects?
    || jobType.RenewJiraWebhook?
  }

  /** The scope of a claimed job: `row` is the row now, `claimed` the row as the claim returned it. */
  function ResolveScope(env: Environment, row: Row, claimed: Row): Scope {
    var payload := claimed.payload;
    var event := OrElse(row.rawEventId, Parsed(FirstPresent(payload.rawEventId, payload.rawEventSnake)));
    var repository :=
      if WorkspaceWide(claimed.jobType) then None
      else OrElse(OrElse(row.repositoryId, Lookup(env.eventRepository, event)),
                  Parsed(FirstPresent(payload.repositoryId, payload.repositorySnake)));
    var stated := OrElse(OrElse(row.workspaceId, Lookup(env.eventWorkspace, event)),
                         Parsed(FirstPresent(payload.workspaceId, payload.workspaceSnake)));
    var workspace :=
      if stated.None? && claimed.jobType.RenewJiraWebhook?
      then Lookup(env.jiraWorkspace, Parsed(payload.jiraIntegrationId)) else stated;
    Scope(OrElse(Lookup(env.repositoryWorkspace, repository), workspace), repository)
  }

  /** An id that the payload names, under the first of two keys that is present. */
  predicate Names(first: IdText, second: IdText, id: Uuid) {
    first == WellFormed(id) || (first.Absent? && second == WellFormed(id))
  }

  predicate NamesNone(first: IdText, second: IdText) {
    !first.WellFormed? && !(first.Absent? && second.WellFormed?)
  }

  /** The webhook event that a job is about: the row's, else the payload's. */
  predicate IsAbout(row: Row, event: Uuid) {
    row.rawEventId == Some(event)
    || (row.rawEventId.None? && Names(row.payload.rawEventId, row.payload.rawEventSnake, event))
  }

  /** No event of the job is known to the table. */
  ghost predicate NoEventIn(row: Row, table: map<Uuid, Uuid>) {
    forall event | IsAbout(row, event) :: event !in table
  }

  /** The repository a job is for: the row's, else its event's, else the one its payload names. */
  ghost predicate ForRepository(env: Environment, row: Row, repository: Uuid) {
    && !WorkspaceWide(row.jobType)
    && (row.repositoryId == Some(repository)
        || (row.repositoryId.None?
            && ((exists event: Uuid :: IsAbout(row, event) && event in env.eventRepository
                                 && env.eventRepository[event] == repository)
                || (NoEventIn(row, env.eventRepository)
                    && Names(row.payload.repositoryId, row.payload.repositorySnake, repository)))))
  }

  /** The workspace a job states: the row's, else its event's, else the one its payload names. */
  ghost predicate StatesWorkspace(env: Environment, row: Row, workspace: Uuid) {
    row.workspaceId == Some(workspace)
    || (row.workspaceId.None?
        && ((exists event: Uuid :: IsAbout(row, event) && event in env.eventWorkspace
                                   && env.eventWorkspace[event] == workspace)
            || (NoEventIn(row, env.eventWorkspace)
                && Names(row.payload.workspaceId, row.payload.workspaceSnake, workspace))))
  }

  ghost predicate StatesNoWorkspace(env: Environment, row: Row) {
    row.workspaceId.None? && NoEventIn(row, env.eventWorkspace)
    && NamesNone(row.payload.workspaceId, row.payload.workspaceSnake)
  }

  /**
    The workspace a job is for: that of its repository if the repository is known; else the one it
    states; else, for the renewal of a Jira webhook, that of the integration.
  */
  ghost predicate ForWorkspace(env: Environment, row: Row, workspace: Uuid) {
    if exists repository: Uuid :: ForRepository(env, row, repository) && repository in env.repositoryWorkspace
    then exists repository: Uuid :: ForRepository(env, row, repository) && repository in env.repositoryWorkspace
                              && env.repositoryWorkspace[repository] == workspace
    else
      StatesWorkspace(env, row, workspace)
      || (StatesNoWorkspace(env, row) && row.jobType.RenewJiraWebhook?
          && row.payload.jiraIntegrationId.WellFormed?
          && row.payload.jiraIntegrationId.id in env.jiraWorkspace
          && env.jiraWorkspace[row.payload.jiraIntegrationId.id] == workspace)
  }

  lemma EventIs(row: Row) returns (event: Option<Uuid>)
    ensures event == OrElse(row.rawEventId, Parsed(FirstPresent(row.payload.rawEventId, row.payload.rawEventSnake)))
    ensures forall e: Uuid :: IsAbout(row, e) <==> event == Some(e)
  {
    event := OrElse(row.rawEventId, Parsed(FirstPresent(row.payload.rawEventId, row.payload.rawEventSnake)));
  }

  /** A claimed row resolves to exactly the repository it is for. */
  lemma ScopeRepositoryIff(env: Environment, row: Row, repository: Uuid)
    ensures ResolveScope(env, row, row).repository == Some(repository) <==> ForRepository(env, row, repository)
  {
    var event := EventIs(row);
  }

  lemma StatedWorkspaceIff(env: Environment, row: Row, workspace: Uuid)
    ensures var event := OrElse(row.rawEventId,
                                Parsed(FirstPresent(row.payload.rawEventId, row.payload.rawEventSnake)));
            var stated := OrElse(OrElse(row.workspaceId, Lookup(env.eventWorkspace, event)),
                                 Parsed(FirstPresent(row.payload.workspaceId, row.payload.workspaceSnake)));
            && (stated == Some(workspace) <==> StatesWorkspace(env, row, workspace))
            && (stated == None <==> StatesNoWorkspace(env, row))
  {
    var event := EventIs(row);
  }

  /** A claimed row resolves to exactly the workspace it is for. */
  lemma ScopeWorkspaceIff(env: Environment, row: Row, workspace: Uuid)
    ensures ResolveScope(env, row, row).workspace == Some(workspace) <==> ForWorkspace(env, row, workspace)
  {
    StatedWorkspaceIff(env, row, workspace);
    var scope := ResolveScope(env, row, row);
    forall repository: Uuid ensures ForRepository(env, row, repository) <==> scope.repository == Some(repository) {
      ScopeRepositoryIff(env, row, repository);
    }
    if scope.repository.Some? && scope.repository.value in env.repositoryWorkspace {
      assert ForRepository(env, row, scope.repository.value);
    } else {
      assert !exists repository: Uuid :: ForRepository(env, row, repository) && repository in env.repositoryWorkspace;
      assert Lookup(env.repositoryWorkspace, scope.repository) == None;
    }
  }

  /** A known repository fixes the workspace, whatever the row and the payload say. */
  lemma KnownRepositoryFixesWorkspace(env: Environment, row: Row, claimed: Row)
    ensures var scope := ResolveScope(env, row, claimed);
            && (WorkspaceWide(claimed.jobType) ==> scope.repository.None?)
            && (scope.repository.Some? && scope.repository.value in env.repositoryWorkspace ==>
                  scope.workspace == Some(env.repositoryWorkspace[scope.repository.value]))
  {
  }

  function JobGrant(id: Uuid, session: WorkerId): Grant {
    Grant(JobKey(id), session, false)
  }

  function WorkspaceGrants(scope: Scope, session: WorkerId): set<Grant> {
    if scope.workspace.None? then {}
    else {Grant(WorkspaceKey(scope.workspace.value), session, scope.repository.Some?)}
  }

  function RepositoryGrants(scope: Scope, session: WorkerId): set<Grant> {
    if scope.repository.None? then {}
    else {Grant(RepositoryKey(scope.repository.value), session, false)}
  }

  /** Everything an executing lease holds. */
  function LeaseGrants(id: Uuid, scope: Scope, session: WorkerId): set<Grant> {
    {JobGrant(id, session)} + WorkspaceGrants(scope, session) + RepositoryGrants(scope, session)
  }

  predicate StillClaimed(rows: Rows, id: Uuid, claimed: Row, worker: WorkerId) {
    OwnedIn(rows, id, worker) && rows[id].attempts == claimed.attempts
  }

  /** What an acquisition nobody interferes with decides. */
  function AcquireTx(env: Environment, rows: Rows, grants: set<Grant>, id: Uuid, claimed: Row, worker: WorkerId)
    : Result<Scope, LeaseError>
  {
    if !Free(env, grants, JobGrant(id, worker)) then Err(ScopeBusy)
    else if !StillClaimed(rows, id, claimed, worker) then Err(OwnershipChanged)
    else
      var scope := ResolveScope(env, rows[id], claimed);
      if forall g | g in WorkspaceGrants(scope, worker) + RepositoryGrants(scope, worker) :: Free(env, grants, g)
      then Ok(scope) else Err(ScopeBusy)
  }

  /**
    What an acquisition decides: the scope is busy if the job's lock is taken; ownership has changed
    if the row is no longer this worker's running claim of this attempt; else the scope is granted
    exactly if the workspace's lock, shared for repository work, and the repository's are free.
  */
  lemma AcquisitionDecides(env: Environment, rows: Rows, grants: set<Grant>, id: Uuid, claimed: Row, worker: WorkerId)
    ensures var r := AcquireTx(env, rows, grants, id, claimed, worker);
            var scope := if id in rows then ResolveScope(env, rows[id], claimed) else Scope(None, None);
            if !Free(env, grants, Grant(JobKey(id), worker, false)) then r == Err(ScopeBusy)
            else if !(id in rows && rows[id].status == Running && rows[id].lockedBy == Some(worker)
                      && rows[id].attempts == claimed.attempts)
            then r == Err(OwnershipChanged)
            else if (scope.workspace.Some? ==>
                       Free(env, grants, Grant(WorkspaceKey(scope.workspace.value), worker, scope.repository.Some?)))
                    && (scope.repository.Some? ==>
                          Free(env, grants, Grant(RepositoryKey(scope.repository.value), worker, false)))
            then r == Ok(scope) else r == Err(ScopeBusy)
  {
  }

  /** Locks of two sessions clash exactly if their keys hash alike and not both are shared. */
  lemma ClashIff(env: Environment, g: Grant, h: Grant)
    requires g.session != h.session
    ensures Clash(env, g, h) <==> env.hash(g.key) == env.hash(h.key) && (!g.isShared || !h.isShared)
    ensures Clash(env, g, h) <==> Clash(env, h, g)
  {
  }

  /** Work without a repository: these four kinds of job, and no other. */
  lemma WorkspaceWork(jobType: JobType)
    ensures WorkspaceWide(jobType)
       <==> jobType in {DeleteWorkspace, SyncGithubRepositories, SyncJiraProjects, RenewJiraWebhook}
  {
  }

  class LockServer {
    const env: Environment
    var grants: set<Grant>

    constructor (env: Environment)
      ensures this.env == env && grants == {}
    {
      this.env := env;
      grants := {};
    }

    method TryLock(grant: Grant) returns (granted: bool)
      requires Compatible(env, grants)
      modifies this
      ensures Compatible(env, grants)
      ensures granted <==> Free(env, old(grants), grant)
      ensures grants == if granted then old(grants) + {grant} else old(grants)
    {
      granted := forall g | g in grants :: !Clash(env, g, grant);
      if granted {
        grants := grants + {grant};
      }
    }

    /** Closing the detached connection drops every lock of its session. */
    method Close(session: WorkerId)
      modifies this
      ensures grants == Released(old(grants), session)
      ensures Compatible(env, old(grants)) ==> Compatible(env, grants)
    {
      grants := set g | g in grants && g.session != session;
    }
  }

  class JobLease {
    const id: Uuid
    const claimed: Row
    const worker: WorkerId
    var ready: bool
    var stop: bool
    var error: Option<LeaseError>
    var connectionLost: bool

    constructor (id: Uuid, claimed: Row, worker: WorkerId)
      ensures this.id == id && this.claimed == claimed && this.worker == worker
      ensures !ready && !stop && error.None? && !connectionLost
    {
      this.id, this.claimed, this.worker := id, claimed, worker;
      ready, stop, error, connectionLost := false, false, None, false;
    }

    /** Lock the job, re-check ownership, then lock the workspace, then the repository. */
    method Acquire(server: LockServer, table: JobTable) returns (r: Result<Scope, LeaseError>)
      requires Compatible(server.env, server.grants) && HeldBy(server.grants, worker) == {}
      modifies server
      ensures Compatible(server.env, server.grants)
      ensures r == AcquireTx(server.env, table.rows, old(server.grants), id, claimed, worker)
      ensures r.Ok? ==> server.grants == old(server.grants) + LeaseGrants(id, r.value, worker)
      ensures Released(server.grants, worker) == old(server.grants)
    {
      ghost var before := server.grants;
      NothingHeld(before, worker);
      var granted := server.TryLock(JobGrant(id, worker));
      if !granted { return Err(ScopeBusy); }
      if !StillClaimed(table.rows, id, claimed, worker) { return Err(OwnershipChanged); }
      var scope := ResolveScope(server.env, table.rows[id], claimed);
      if scope.workspace.Some? {
        var grant := Grant(WorkspaceKey(scope.workspace.value), worker, scope.repository.Some?);
        OwnGrantsNeverClash(server.env, before, JobGrant(id, worker), grant);
        granted := server.TryLock(grant);
        if !granted { return Err(ScopeBusy); }
      }
      if scope.repository.Some? {
        var grant := Grant(RepositoryKey(scope.repository.value), worker, false);
        assert Free(server.env, server.grants, grant) <==> Free(server.env, before, grant);
        granted := server.TryLock(grant);
        if !granted { return Err(ScopeBusy); }
      }
      r := Ok(scope);
    }

    /**
      The guard thread: acquire, beat once, then beat until stopped. `beats` are the instants at
      which the loop's heartbeats commit, `fault` says where a database error strikes. However the
      guard ends, the session closes and no lock is left behind. Until the first heartbeat has
      committed an error is the acquisition's own; after it, the fail-closed callback runs exactly
      if the handler is not done.
    */
    method Maintain(server: LockServer, table: JobTable, now: Instant, beats: seq<Instant>, fault: Fault)
      returns (r: Result<Scope, LeaseError>)
      requires table.Valid() && !connectionLost && !stop
      requires Compatible(server.env, server.grants) && HeldBy(server.grants, worker) == {}
      modifies this, server, table
      ensures table.Valid() && server.grants == old(server.grants) && ready
      ensures stop <==> r.Ok? && fault != LaterBeat(false)
      ensures r == Guarding(AcquireTx(server.env, old(table.rows), old(server.grants), id, claimed, worker), fault)
      ensures r.Err? ==> table.rows == old(table.rows) && error == Some(r.error)
      ensures connectionLost <==> r.Ok? && fault == LaterBeat(false)
      ensures r.Ok? ==> error == if fault.LaterBeat? then Some(ConnectionFailed) else None
      ensures r.Ok? ==> table.rows == HeartbeatTx(old(table.rows), id, worker, claimed.attempts, LastBeat(now, beats))
    {
      error := None;
      NothingHeld(server.grants, worker);
      if fault.WhileAcquiring? {
        var _ := server.TryLock(JobGrant(id, worker));
        r := Err(ConnectionFailed);
      } else {
        r := Acquire(server, table);
        if r.Ok? && fault.FirstBeat? {
          r := Err(ConnectionFailed);
        }
      }
      if r.Err? {
        error := Some(r.error);
      } else {
        KeepBeating(table, now, beats);
        stop := fault != LaterBeat(false);
        if fault.LaterBeat? {
          error := Some(ConnectionFailed);
          connectionLost := !stop;
        }
      }
      server.Close(worker);
      ready := true;
    }

    /** The first heartbeat, which makes the lease ready, and the loop after it. */
    method KeepBeating(table: JobTable, now: Instant, beats: seq<Instant>)
      requires table.Valid()
      modifies this`ready, table
      ensures table.Valid() && ready
      ensures table.rows == HeartbeatTx(old(table.rows), id, worker, claimed.attempts, LastBeat(now, beats))
    {
      ghost var start := table.rows;
      table.Heartbeat(id, worker, claimed.attempts, now);
      ready := true;
      for i := 0 to |beats|
        invariant table.Valid() && ready
        invariant table.rows == HeartbeatTx(start, id, worker, claimed.attempts, LastBeat(now, beats[..i]))
      {
        table.Heartbeat(id, worker, claimed.attempts, beats[i]);
        LaterBeatReplaces(start, id, worker, claimed.attempts, LastBeat(now, beats[..i]), beats[i]);
      }
      assert beats[..|beats|] == beats;
    }
  }

  lemma NothingHeld(grants: set<Grant>, session: WorkerId)
    requires HeldBy(grants, session) == {}
    ensures forall g | g in grants :: g.session != session
  {
    assert forall g | g in grants && g.session == session :: g in HeldBy(grants, session);
  }

  /** How entering the lease ends: as the acquisition does, unless the session fails by the first heartbeat. */
  function Guarding(acquired: Result<Scope, LeaseError>, fault: Fault): Result<Scope, LeaseError> {
    if fault.WhileAcquiring? || (fault.FirstBeat? && acquired.Ok?) then Err(ConnectionFailed) else acquired
  }

  /**
    Who enters a lease: whoever acquired it, unless the session failed before its first heartbeat was
    through. An acquisition that was refused says why.
  */
  lemma EntersIff(acquired: Result<Scope, LeaseError>, fault: Fault)
    ensures var r := Guarding(acquired, fault);
            && (r.Ok? <==> acquired.Ok? && (fault.NoFault? || fault.LaterBeat?))
            && (r.Ok? ==> r.value == acquired.value)
            && (r.Err? ==> r.error == if acquired.Err? && !fault.WhileAcquiring? then acquired.error
                                      else ConnectionFailed)
  {
  }

  function LastBeat(now: Instant, beats: seq<Instant>): Instant {
    if beats == [] then now else beats[|beats| - 1]
  }

  lemma LaterBeatReplaces(rows: Rows, id: Uuid, worker: WorkerId, attempts: nat, first: Instant, second: Instant)
    ensures HeartbeatTx(HeartbeatTx(rows, id, worker, attempts, first), id, worker, attempts, second)
         == HeartbeatTx(rows, id, worker, attempts, second)
  {
  }

  lemma OwnGrantsNeverClash(env: Environment, grants: set<Grant>, own: Grant, grant: Grant)
    requires own.session == grant.session
    ensures Free(env, grants + {own}, grant) <==> Free(env, grants, grant)
  {
  }
}
