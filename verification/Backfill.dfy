/** The backfill job: modes, stages, and the cursor that carries it from one lease to the next. */
module Backfill {
  import opened Prelude
  import opened Jobs
  import opened Cursors
  import opened WorkflowScan
  import opened ScanBounds

  /** The payload keys of a BACKFILL_REPOSITORY job. */
  datatype BackfillPayload = BackfillPayload(
    days: Option<Json>, riskOnly: bool, issuesOnly: bool, reviewsOnly: bool, startedAt: Json, cursor: Json)

  datatype DeploymentSignal = ByWorkflowRun | ByDeployment | ByPush | OtherSignal

  /** What the provider and the database answer during one lease. */
  datatype Reply = Reply(
    hasNextPage: bool,
    oldestUpdate: Option<Instant>,
    reachedCutoff: bool,
    mergedRows: nat,
    signal: DeploymentSignal,
    runs: seq<Run>)

  datatype BackfillError =
    | ModesExclusive
    | InvalidDays
    | InvalidStartedAt
    | BadCursor(error: CursorError)
    | StageMismatch
    | InvalidSignal
    | ScanFailed(cause: ScanError)

  const DEFAULT_DAYS := 90
  const REVIEW_PAGE_SIZE := 50

  function BoundedDays(value: Option<Json>): Option<int> {
    var days :=
      match value
      case None => Some(DEFAULT_DAYS)
      case Some(Number(i)) => Some(i)
      case Some(Numeral(n)) => Some(n)
      case Some(_) => None;
    if days.Some? && 1 <= days.value <= 365 then days else None
  }

  function StartedAt(value: Json, now: Instant): Option<Instant> {
    if value.Null? then Some(now) else ParseTimestamp(value)
  }

  function InitialStage(payload: BackfillPayload): Stage {
    if payload.issuesOnly then Issues else if payload.reviewsOnly then Reviews else OpenPullRequests
  }

  function Flag(b: bool): nat {
    if b then 1 else 0
  }

  predicate Exclusive(payload: BackfillPayload) {
    Flag(payload.riskOnly) + Flag(payload.issuesOnly) + Flag(payload.reviewsOnly) <= 1
  }

  /** 90 days unless stated; stated as a number or a numeral from 1 to 365. */
  lemma DaysAccepted(value: Option<Json>, days: int)
    ensures BoundedDays(value) == Some(days) <==>
              (value.None? && days == 90)
              || (1 <= days <= 365 && (value == Some(Number(days)) || value == Some(Numeral(days))))
  {
  }

  /** `_process_page` with the stage functions: the next cursor, or the end. */
  function ProcessStage(payload: BackfillPayload, cursor: Cursor, cutoff: Instant, startedAt: Instant, reply: Reply)
    : Result<Option<Cursor>, BackfillError>
  {
    var (stage, page) := (StageOf(cursor), cursor.page);
    if payload.reviewsOnly then
      if !stage.Reviews? then Err(StageMismatch)
      else Ok(if reply.mergedRows == REVIEW_PAGE_SIZE then Some(Plain(Reviews, page + 1)) else None)
    else if stage.Reviews? then Err(StageMismatch)
    else if payload.issuesOnly then
      if !stage.Issues? then Err(StageMismatch)
      else Ok(if reply.hasNextPage then Some(Plain(Issues, page + 1)) else None)
    else if stage.OpenPullRequests? then
      Ok(if reply.hasNextPage then Some(Plain(OpenPullRequests, page + 1))
         else if payload.riskOnly then None
         else Some(Plain(PullRequests, 1)))
    else if payload.riskOnly then Err(StageMismatch)
    else
      match stage
      case PullRequests =>
        if reply.hasNextPage && (reply.oldestUpdate.None? || reply.oldestUpdate.value >= cutoff)
        then Ok(Some(Plain(PullRequests, page + 1)))
        else
          (match reply.signal
           case ByWorkflowRun => Ok(Some(Scan(1, Window(cutoff, startedAt), [])))
           case ByDeployment => Ok(Some(Plain(Deployments, 1)))
           case ByPush => Ok(None)
           case OtherSignal => Err(InvalidSignal))
      case WorkflowRuns =>
        if !cursor.Scan? then Err(StageMismatch)
        else
          (match ProcessPage(reply.runs, page, cursor.window, cursor.pending).0
           case Ok(next) => Ok(next)
           case Err(e) => Err(ScanFailed(e)))
      case Deployments =>
        Ok(if reply.hasNextPage && !reply.reachedCutoff then Some(Plain(Deployments, page + 1)) else None)
      case _ => Err(StageMismatch)
  }

  /** One lease of the handler: the payload it requeues, or none when the backfill is complete. */
  function HandleLease(payload: BackfillPayload, now: Instant, reply: Reply)
    : Result<Option<BackfillPayload>, BackfillError>
  {
    var days := BoundedDays(payload.days);
    var startedAt := StartedAt(payload.startedAt, now);
    if days.None? then Err(InvalidDays)
    else if !Exclusive(payload) then Err(ModesExclusive)
    else if startedAt.None? then Err(InvalidStartedAt)
    else
      var cutoff := startedAt.value - days.value * DAY;
      match ParseCursor(payload.cursor, cutoff, startedAt.value, InitialStage(payload))
      case Err(e) => Err(BadCursor(e))
      case Ok(cursor) =>
        match ProcessStage(payload, cursor, cutoff, startedAt.value, reply)
        case Err(e) => Err(e)
        case Ok(None) => Ok(None)
        case Ok(Some(next)) =>
          Ok(Some(payload.(cursor := EmitCursor(next), startedAt := Timestamp(startedAt.value))))
  }

  /** A payload is rejected for its days, then for two modes at once, then for its start. */
  lemma RejectedPayloads(payload: BackfillPayload, now: Instant, reply: Reply)
    ensures var r := HandleLease(payload, now, reply);
            var daysOk := BoundedDays(payload.days).Some?;
            var twoModes := (payload.riskOnly && (payload.issuesOnly || payload.reviewsOnly))
                            || (payload.issuesOnly && payload.reviewsOnly);
            && (r == Err(InvalidDays) <==> !daysOk)
            && (r == Err(ModesExclusive) <==> daysOk && twoModes)
            && (r == Err(InvalidStartedAt) <==>
                  daysOk && !twoModes && !payload.startedAt.Null? && !payload.startedAt.Timestamp?)
  {
  }

  /** Errors that say something about the repository rather than about the cursor. */
  predicate Genuine(error: BackfillError) {
    error.InvalidSignal? || (error.ScanFailed? && error.cause.TooDense?)
  }

  /** Two payloads of one job: only the cursor and the recorded start differ. */
  predicate SameJob(p: BackfillPayload, q: BackfillPayload) {
    p == q.(cursor := p.cursor, startedAt := p.startedAt)
  }

  /** Stages a mode works through. */
  predicate StageFits(payload: BackfillPayload, stage: Stage) {
    if payload.reviewsOnly then stage.Reviews?
    else if payload.issuesOnly then stage.Issues?
    else if payload.riskOnly then stage.OpenPullRequests?
    else !stage.Reviews? && !stage.Issues?
  }

  /** A payload as the producer first writes it: no cursor yet. */
  predicate Fresh(payload: BackfillPayload) {
    && payload.cursor.Null? && Exclusive(payload) && BoundedDays(payload.days).Some?
    && (payload.startedAt.Null? || payload.startedAt.Timestamp?)
  }

  /** A payload the handler itself wrote, for a backfill that began at `startedAt`. */
  ghost predicate SelfMade(payload: BackfillPayload, startedAt: Instant, cursor: Cursor) {
    && Exclusive(payload) && BoundedDays(payload.days).Some?
    && payload.startedAt == Timestamp(startedAt) && payload.cursor == EmitCursor(cursor)
    && StageFits(payload, StageOf(cursor)) && 1 <= cursor.page
    && (cursor.Plain? ==> !cursor.stage.WorkflowRuns?)
    && (cursor.Scan? ==> && Sound(cursor) && |cursor.pending| <= DEEPEST
                         && Halved(cursor, BoundedDays(payload.days).value * DAY) && Doubling(cursor))
  }

  /** What a stage makes of a fitting cursor is again fitting and sound. */
  lemma StageKeepsShape(payload: BackfillPayload, cursor: Cursor, days: int, startedAt: Instant, reply: Reply)
    requires Exclusive(payload) && BoundedDays(payload.days) == Some(days)
    requires StageFits(payload, StageOf(cursor)) && 1 <= cursor.page && (cursor.Plain? ==> !cursor.stage.WorkflowRuns?)
    requires cursor.Scan? ==>
               Sound(cursor) && |cursor.pending| <= DEEPEST && Halved(cursor, days * DAY) && Doubling(cursor)
    ensures var r := ProcessStage(payload, cursor, startedAt - days * DAY, startedAt, reply);
            && (r.Ok? && r.value.Some? ==>
                  SelfMade(payload.(cursor := EmitCursor(r.value.value), startedAt := Timestamp(startedAt)),
                           startedAt, r.value.value))
            && (r.Err? ==> Genuine(r.error))
  {
    var r := ProcessStage(payload, cursor, startedAt - days * DAY, startedAt, reply);
    if cursor.Scan? {
      if r.Ok? && r.value.Some? {
        StackStep(reply.runs, cursor, days * DAY);
      }
    } else if r.Ok? && r.value.Some? && r.value.value.Scan? {
      assert r.value.value == Scan(1, Window(startedAt - days * DAY, startedAt), []);
    }
  }

  /** The start every later lease works from: the stored one, else the clock of the first lease. */
  function FirstStart(payload: BackfillPayload, now: Instant): Instant {
    match payload.startedAt
    case Timestamp(t) => t
    case _ => now
  }

  /** The first lease of a fresh payload. */
  lemma FirstLease(payload: BackfillPayload, now: Instant, reply: Reply)
    requires Fresh(payload)
    ensures var r := HandleLease(payload, now, reply);
            && (r.Ok? && r.value.Some? ==>
                  && SameJob(r.value.value, payload)
                  && exists c :: SelfMade(r.value.value, FirstStart(payload, now), c))
            && (r.Err? ==> Genuine(r.error))
  {
    StageKeepsShape(payload, Plain(InitialStage(payload), 1), BoundedDays(payload.days).value,
                    FirstStart(payload, now), reply);
  }

  /** The payload that is requeued for a next cursor. */
  function Stored(payload: BackfillPayload, startedAt: Instant, r: Result<Option<Cursor>, BackfillError>)
    : Result<Option<BackfillPayload>, BackfillError>
  {
    match r
    case Err(e) => Err(e)
    case Ok(None) => Ok(None)
    case Ok(Some(next)) => Ok(Some(payload.(cursor := EmitCursor(next), startedAt := Timestamp(startedAt))))
  }

  /** A lease processes the cursor that it reads. */
  lemma LeaseProcesses(payload: BackfillPayload, now: Instant, days: int, startedAt: Instant, c: Cursor, reply: Reply)
    requires Exclusive(payload) && BoundedDays(payload.days) == Some(days) && payload.startedAt == Timestamp(startedAt)
    requires ParseCursor(payload.cursor, startedAt - days * DAY, startedAt, InitialStage(payload)) == Ok(c)
    ensures HandleLease(payload, now, reply)
         == Stored(payload, startedAt, ProcessStage(payload, c, startedAt - days * DAY, startedAt, reply))
  {
  }

  /** The stored cursor is read back as the cursor that was emitted. */
  lemma SelfMadeParses(payload: BackfillPayload, startedAt: Instant, c: Cursor)
    requires SelfMade(payload, startedAt, c)
    ensures ParseCursor(payload.cursor, startedAt - BoundedDays(payload.days).value * DAY, startedAt,
                        InitialStage(payload))
         == Ok(c)
  {
    CursorRoundTrips(c, startedAt - BoundedDays(payload.days).value * DAY, startedAt, InitialStage(payload));
  }

  /** A self-made payload is handled as its cursor, read back, is processed. */
  lemma LaterProcesses(payload: BackfillPayload, now: Instant, startedAt: Instant, c: Cursor, reply: Reply)
    requires SelfMade(payload, startedAt, c)
    ensures HandleLease(payload, now, reply)
         == Stored(payload, startedAt,
                   ProcessStage(payload, c, startedAt - BoundedDays(payload.days).value * DAY, startedAt, reply))
  {
    SelfMadeParses(payload, startedAt, c);
    LeaseProcesses(payload, now, BoundedDays(payload.days).value, startedAt, c, reply);
  }

  /** What is stored for the next lease is the handler's own payload of the same job. */
  lemma StoredIsSelfMade(payload: BackfillPayload, days: int, startedAt: Instant, c: Cursor, reply: Reply,
                         r: Result<Option<BackfillPayload>, BackfillError>)
    requires SelfMade(payload, startedAt, c) && BoundedDays(payload.days) == Some(days)
    requires r == Stored(payload, startedAt, ProcessStage(payload, c, startedAt - days * DAY, startedAt, reply))
    ensures r.Ok? && r.value.Some? ==>
              SameJob(r.value.value, payload) && exists next :: SelfMade(r.value.value, startedAt, next)
    ensures r.Err? ==> Genuine(r.error)
  {
    StageKeepsShape(payload, c, days, startedAt, reply);
  }

  /** Any later lease works on from the stored cursor. */
  lemma LaterLease(payload: BackfillPayload, startedAt: Instant, cursor: Cursor, now: Instant, reply: Reply)
    requires SelfMade(payload, startedAt, cursor)
    ensures var r := HandleLease(payload, now, reply);
            && (r.Ok? && r.value.Some? ==>
                  SameJob(r.value.value, payload) && exists c :: SelfMade(r.value.value, startedAt, c))
            && (r.Err? ==> Genuine(r.error))
  {
    LaterProcesses(payload, now, startedAt, cursor, reply);
    StoredIsSelfMade(payload, BoundedDays(payload.days).value, startedAt, cursor, reply,
                     HandleLease(payload, now, reply));
  }

  /** The job across leases: clock and answers of each, until it completes or fails for good. */
  function Leases(payload: BackfillPayload, script: seq<(Instant, Reply)>)
    : Result<Option<BackfillPayload>, BackfillError>
  {
    if script == [] then Ok(Some(payload))
    else
      match Leases(payload, script[..|script| - 1])
      case Err(e) => Err(e)
      case Ok(None) => Ok(None)
      case Ok(Some(p)) => HandleLease(p, script[|script| - 1].0, script[|script| - 1].1)
  }

  /**
    The cursor machine accepts itself. From a fresh payload, over any number of leases and any
    provider answers, every stored cursor is read back with the same meaning, its stage fits the
    mode, the cutoff never moves, and no cursor or stage error can occur. Of the errors in this model
    only an invalid repository setting and 1,000 runs within one second are left.
  */
  lemma {:induction false} MachineAcceptsItself(payload: BackfillPayload, script: seq<(Instant, Reply)>)
    requires Fresh(payload) && script != []
    ensures var r := Leases(payload, script);
            && (r.Ok? && r.value.Some? ==>
                  && SameJob(r.value.value, payload)
                  && exists c :: SelfMade(r.value.value, FirstStart(payload, script[0].0), c))
            && (r.Err? ==> Genuine(r.error))
    decreases |script|
  {
    var before := script[..|script| - 1];
    var last := script[|script| - 1];
    if |script| == 1 {
      assert Leases(payload, before) == Ok(Some(payload));
      FirstLease(payload, last.0, last.1);
    } else {
      MachineAcceptsItself(payload, before);
      var r := Leases(payload, before);
      if r.Ok? && r.value.Some? {
        var c :| SelfMade(r.value.value, FirstStart(payload, script[0].0), c);
        LaterLease(r.value.value, FirstStart(payload, script[0].0), c, last.0, last.1);
      }
    }
  }
}
