/**
  Rows of `processing_jobs` and the row transitions that the queue's SQL performs.
  Instants and delays are integers, in microseconds.
*/
module Jobs {
  import opened Prelude

  type Uuid = nat
  type Instant = int
  type WorkerId = string

  const SECOND: int := 1_000_000
  const MAX_DELAY: int := 900 * SECOND
  const DEFER_DELAY: int := 5 * SECOND

  const STALE_LOCK_ERROR := "STALE_LOCK_RECOVERED: previous worker lock expired before completion"
  const STALE_LOCK_EXHAUSTED_ERROR :=
    "STALE_LOCK_EXHAUSTED: previous worker lock expired after the final attempt"

  datatype Status = Pending | Failed | Running | Succeeded | Dead

  datatype JobType =
    | ProcessGithubEvent
    | ProcessJiraEvent
    | BackfillRepository
    | SyncGithubRepositories
    | SyncJiraProjects
    | RenewJiraWebhook
    | DeleteWorkspace
    | RecalculateMetrics
    | EvaluateAlerts
    | Unsupported(name: string)

  /** An identifier as it appears in a JSON payload: absent (or empty), unparsable, or well formed. */
  datatype IdText = Absent | Malformed | WellFormed(id: Uuid)

  /** The affected range of a recalculation request, both ends included. */
  datatype Range = Range(from: Instant, to: Instant)

  /** The payload keys the queue itself reads, in both spellings; `rest` stands for every other key. */
  datatype Payload = Payload(
    repositoryId: IdText, repositorySnake: IdText,
    workspaceId: IdText, workspaceSnake: IdText,
    rawEventId: IdText, rawEventSnake: IdText,
    jiraIntegrationId: IdText,
    affected: Option<Range>,
    rest: string)

  datatype Row = Row(
    jobType: JobType,
    status: Status,
    priority: int,
    createdAt: Instant,
    availableAt: Instant,
    attempts: nat,
    maxAttempts: nat,
    lockedAt: Option<Instant>,
    lockedBy: Option<WorkerId>,
    lastError: Option<string>,
    finishedAt: Option<Instant>,
    payload: Payload,
    workspaceId: Option<Uuid>,
    repositoryId: Option<Uuid>,
    rawEventId: Option<Uuid>,
    version: nat)

  type Rows = map<Uuid, Row>

  /** A waiting row is one a claim may take and a coalescing enqueue may merge into. */
  predicate Waiting(row: Row) {
    row.status.Pending? || row.status.Failed?
  }

  predicate Terminal(row: Row) {
    row.status.Succeeded? || row.status.Dead?
  }

  /** The claim statement's WHERE clause, and the snapshot's definition of a ready job. */
  predicate Claimable(row: Row, now: Instant) {
    Waiting(row) && row.availableAt <= now && row.attempts < row.maxAttempts
  }

  predicate Stale(row: Row, now: Instant, staleAfter: int) {
    row.status.Running? && (row.lockedAt.None? || row.lockedAt.value <= now - staleAfter)
  }

  /** The WHERE clause shared by the three finalizers: status and owner, not the attempt number. */
  predicate Owned(row: Row, worker: WorkerId) {
    row.status.Running? && row.lockedBy == Some(worker)
  }

  predicate OwnedIn(rows: Rows, id: Uuid, worker: WorkerId) {
    id in rows && Owned(rows[id], worker)
  }

  function ClaimRow(row: Row, now: Instant, worker: WorkerId): Row {
    row.(status := Running, lockedAt := Some(now), lockedBy := Some(worker),
         attempts := row.attempts + 1, version := row.version + 1)
  }

  function BuryStaleRow(row: Row, now: Instant): Row {
    row.(status := Dead, lockedAt := None, lockedBy := None,
         lastError := Some(STALE_LOCK_EXHAUSTED_ERROR), finishedAt := Some(now), version := row.version + 1)
  }

  function RetryStaleRow(row: Row, now: Instant): Row {
    row.(status := Failed, availableAt := now, lockedAt := None, lockedBy := None,
         lastError := Some(STALE_LOCK_ERROR), finishedAt := None, version := row.version + 1)
  }

  function HeartbeatRow(row: Row, now: Instant): Row {
    row.(lockedAt := Some(now))
  }

  function SucceedRow(row: Row, now: Instant): Row {
    row.(status := Succeeded, lockedAt := None, lockedBy := None,
         lastError := None, finishedAt := Some(now), version := row.version + 1)
  }

  function BuryRow(row: Row, now: Instant, error: string): Row {
    row.(status := Dead, lockedAt := None, lockedBy := None,
         lastError := Some(error), finishedAt := Some(now), version := row.version + 1)
  }

  function RetryRow(row: Row, now: Instant, error: string, delay: int): Row {
    row.(status := Failed, availableAt := now + delay, lockedAt := None, lockedBy := None,
         lastError := Some(error), finishedAt := None, version := row.version + 1)
  }

  function Pow2(n: nat): nat {
    if n == 0 then 1 else 2 * Pow2(n - 1)
  }

  function RetryDelay(attempts: nat, jitter: int): int {
    Min(MAX_DELAY, Pow2(attempts) * SECOND + Max(0, jitter))
  }

  /** The delay `mark_failed` schedules, a provider's `Retry-After` included. */
  function FailureDelay(attempts: nat, jitter: int, retryAfter: Option<int>): int {
    var delay := RetryDelay(attempts, jitter);
    if retryAfter.None? then delay
    else Min(MAX_DELAY, Max(delay, Max(0, retryAfter.value)))
  }

  /** How a handler failed, as `mark_failed` is told. */
  datatype Failure = Failure(error: string, permanent: bool, jitter: int, retryAfter: Option<int>)

  function FailRow(row: Row, now: Instant, failure: Failure): Row {
    if failure.permanent || row.attempts >= row.maxAttempts
    then BuryRow(row, now, failure.error)
    else RetryRow(row, now, failure.error, FailureDelay(row.attempts, failure.jitter, failure.retryAfter))
  }

  function RequeueRow(row: Row, now: Instant, payload: Payload, delay: int, reset: bool): Row {
    row.(status := Pending,
         attempts := if reset then 0 else Max(row.attempts - 1, 0),
         availableAt := now + delay, lockedAt := None, lockedBy := None,
         payload := payload, version := row.version + 1)
  }

  /** PostgreSQL's LEAST and GREATEST skip nulls, so a missing range yields the other one. */
  function MergeRange(current: Option<Range>, added: Option<Range>): Option<Range> {
    if current.None? then added
    else if added.None? then current
    else Some(Range(Min(current.value.from, added.value.from), Max(current.value.to, added.value.to)))
  }

  function MergeRow(row: Row, now: Instant, payload: Payload): Row {
    row.(payload := payload.(affected := MergeRange(row.payload.affected, payload.affected)),
         status := Pending, attempts := 0, availableAt := now, lastError := None,
         version := row.version + 1)
  }

  predicate Covers(wide: Option<Range>, range: Range) {
    wide.Some? && wide.value.from <= range.from && range.to <= wide.value.to
  }

  /** What the recalculation handler reads from its payload: the repository, and a range covering `range`. */
  predicate AsksFor(payload: Payload, repository: Uuid, range: Range) {
    payload.repositorySnake == WellFormed(repository) && Covers(payload.affected, range)
  }

  /** What every row satisfies between transactions. */
  predicate RowOk(row: Row) {
    && (row.lockedBy.Some? <==> row.status.Running?)
    && (row.lockedAt.Some? <==> row.status.Running?)
    && (row.status.Running? ==> 1 <= row.attempts <= row.maxAttempts)
    && (Waiting(row) ==> row.attempts < row.maxAttempts)
    && (Terminal(row) ==> row.finishedAt.Some?)
  }

  /** A freshly inserted job. */
  predicate FreshRow(row: Row) {
    && row.status.Pending? && row.attempts == 0 && 0 < row.maxAttempts
    && row.lockedAt.None? && row.lockedBy.None?
  }

  lemma {:induction false} Pow2Grows(m: nat, n: nat)
    requires m <= n
    ensures 1 <= Pow2(m) <= Pow2(n)
    decreases n
  {
    if m < n {
      Pow2Grows(m, n - 1);
    } else if 0 < m {
      Pow2Grows(m - 1, n - 1);
    }
  }

  /** Backoff never shrinks with the attempt number, stays positive and is capped at 900 seconds. */
  lemma BackoffBounds(m: nat, n: nat, jitter: int, retryAfter: Option<int>)
    requires m <= n
    ensures SECOND <= RetryDelay(m, jitter) <= RetryDelay(n, jitter) <= MAX_DELAY
    ensures RetryDelay(n, jitter) <= FailureDelay(n, jitter, retryAfter) <= MAX_DELAY
    ensures retryAfter.Some? ==> Min(MAX_DELAY, retryAfter.value) <= FailureDelay(n, jitter, retryAfter)
    ensures 10 <= n ==> RetryDelay(n, jitter) == MAX_DELAY
  {
    Pow2Grows(m, n);
    if 10 <= n {
      Pow2Grows(10, n);
      assert Pow2(10) == 1024 by {
        assert Pow2(5) == 32;
      }
    }
  }

  /**
    Backoff starts at one second and doubles with every attempt; jitter, unless negative, is added;
    15 minutes is the most. A provider's delay takes effect where it is longer.
  */
  lemma BackoffDoubles(n: nat, jitter: int, retryAfter: Option<int>)
    ensures RetryDelay(0, 0) == 1_000_000
    ensures RetryDelay(n + 1, 0) == Min(900_000_000, 2 * RetryDelay(n, 0))
    ensures RetryDelay(n, jitter) == Min(900_000_000, RetryDelay(n, 0) + Max(0, jitter))
    ensures FailureDelay(n, jitter, None) == RetryDelay(n, jitter)
    ensures retryAfter.Some? ==>
              FailureDelay(n, jitter, retryAfter) == Max(RetryDelay(n, jitter), Min(900_000_000, retryAfter.value))
  {
    Pow2Grows(0, n);
  }

  /** The merged range contains both requests, and is the smallest range that does. */
  lemma MergedRangeIsHull(current: Range, added: Range)
    ensures Covers(MergeRange(Some(current), Some(added)), current)
    ensures Covers(MergeRange(Some(current), Some(added)), added)
    ensures forall r: Range :: Covers(Some(r), current) && Covers(Some(r), added) ==>
              Covers(Some(r), MergeRange(Some(current), Some(added)).value)
  {
  }

  /**
    A deferral undoes its claim: the row is as it was before, attempts included, except that it waits
    for five seconds.
  */
  lemma DeferralUndoesClaim(row: Row, now: Instant, worker: WorkerId, later: Instant)
    requires RowOk(row) && Waiting(row)
    ensures RequeueRow(ClaimRow(row, now, worker), later, row.payload, DEFER_DELAY, false)
         == row.(status := Pending, availableAt := later + DEFER_DELAY, version := row.version + 2)
    ensures forall t :: Claimable(RequeueRow(ClaimRow(row, now, worker), later, row.payload, DEFER_DELAY, false), t)
                        <==> later + 5_000_000 <= t
  {
  }

  /** A failure buries a job exactly when it is permanent or the last attempt; else the job waits out its backoff. */
  lemma FailedRowWaits(row: Row, now: Instant, failure: Failure)
    requires RowOk(row) && row.status.Running?
    ensures var after := FailRow(row, now, failure);
            && RowOk(after) && after.lastError == Some(failure.error)
            && (after.status.Dead? <==> failure.permanent || row.attempts == row.maxAttempts)
            && (after.status.Dead? ==> after.finishedAt == Some(now))
            && (!after.status.Dead? ==>
                  forall t :: Claimable(after, t)
                              <==> now + FailureDelay(row.attempts, failure.jitter, failure.retryAfter) <= t)
            && forall t | t < now + SECOND :: !Claimable(after, t)
  {
    BackoffBounds(row.attempts, row.attempts, failure.jitter, failure.retryAfter);
  }

  /** A claim and every heartbeat keep the row from being stale for exactly `staleAfter`. */
  lemma BeatsPostponeStaleness(row: Row, now: Instant, worker: WorkerId, beat: Instant, staleAfter: int)
    ensures forall t :: Stale(ClaimRow(row, now, worker), t, staleAfter) <==> now + staleAfter <= t
    ensures forall t :: Stale(HeartbeatRow(ClaimRow(row, now, worker), beat), t, staleAfter) <==> beat + staleAfter <= t
  {
  }

  /** A recovered job is due at once, or dead; either way it is unlocked and says why. */
  lemma RecoveredRowIsDue(row: Row, now: Instant)
    requires RowOk(row) && row.status.Running?
    ensures var retried := RetryStaleRow(row, now);
            && retried.lastError == Some(STALE_LOCK_ERROR) && retried.finishedAt == None && retried.status.Failed?
            && retried.lockedAt.None? && retried.lockedBy.None?
            && retried.payload == row.payload && retried.attempts == row.attempts
            && (row.attempts < row.maxAttempts ==>
                  RowOk(retried) && forall t :: Claimable(retried, t) <==> now <= t)
    ensures var buried := BuryStaleRow(row, now);
            && RowOk(buried) && buried.status.Dead? && buried.lastError == Some(STALE_LOCK_EXHAUSTED_ERROR)
            && buried.finishedAt == Some(now) && buried.payload == row.payload && buried.attempts == row.attempts
  {
  }
}
