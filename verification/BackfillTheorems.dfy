/** Which stages a backfill goes through, when it may end, and what it has read by then. */
module BackfillTheorems {
  import opened Prelude
  import opened Jobs
  import opened Cursors
  import opened WorkflowScan
  import opened ScanTheorems
  import opened ScanBounds
  import opened Backfill

  /** Another page of the stage follows: as the provider says, except where the cutoff ends the stage. */
  predicate MorePages(stage: Stage, cutoff: Instant, reply: Reply) {
    match stage
    case Reviews => reply.mergedRows == 50
    case PullRequests => reply.hasNextPage && (reply.oldestUpdate.None? || cutoff <= reply.oldestUpdate.value)
    case Deployments => reply.hasNextPage && !reply.reachedCutoff
    case _ => reply.hasNextPage
  }

  /** The stage after a stage's last page; `None` is the end of the backfill. */
  predicate StageAfter(payload: BackfillPayload, stage: Stage, cutoff: Instant, startedAt: Instant, reply: Reply,
                       next: Option<Cursor>)
  {
    match stage
    case OpenPullRequests => next == if payload.riskOnly then None else Some(Plain(PullRequests, 1))
    case PullRequests =>
      (match reply.signal
       case ByWorkflowRun => next == Some(Scan(1, Window(cutoff, startedAt), []))
       case ByDeployment => next == Some(Plain(Deployments, 1))
       case ByPush => next == None
       case OtherSignal => false)
    case _ => next == None
  }

  /** How a lease that reads cursor `c` goes on: the next page, window or stage, or the end. */
  ghost predicate GoesOn(payload: BackfillPayload, startedAt: Instant, c: Cursor, reply: Reply, next: Option<Cursor>) {
    BoundedDays(payload.days).Some?
    && var cutoff := startedAt - BoundedDays(payload.days).value * DAY;
       if c.Scan? then ProcessPage(reply.runs, c.page, c.window, c.pending).0 == Ok(next)
       else if MorePages(c.stage, cutoff, reply) then next == Some(Plain(c.stage, c.page + 1))
       else StageAfter(payload, c.stage, cutoff, startedAt, reply, next)
  }

  /** What a lease that reads cursor `c` may fail with. */
  ghost predicate Fails(payload: BackfillPayload, startedAt: Instant, c: Cursor, reply: Reply, error: BackfillError) {
    BoundedDays(payload.days).Some?
    && var cutoff := startedAt - BoundedDays(payload.days).value * DAY;
       if c.Scan?
       then error.ScanFailed? && ProcessPage(reply.runs, c.page, c.window, c.pending).0 == Err(error.cause)
       else c.stage.PullRequests? && !MorePages(c.stage, cutoff, reply) && reply.signal.OtherSignal?
            && error.InvalidSignal?
  }

  /** A lease of the payload reads cursor `c`, and `startedAt` as the start of the backfill. */
  ghost predicate Reads(payload: BackfillPayload, now: Instant, startedAt: Instant, c: Cursor) {
    SelfMade(payload, startedAt, c)
    || (Fresh(payload) && startedAt == FirstStart(payload, now) && c == Plain(InitialStage(payload), 1))
  }

  /** The result of a lease, told by the cursor it read. */
  ghost predicate Follows(payload: BackfillPayload, startedAt: Instant, c: Cursor, reply: Reply,
                          r: Result<Option<BackfillPayload>, BackfillError>)
  {
    match r
    case Err(e) => Fails(payload, startedAt, c, reply, e)
    case Ok(None) => GoesOn(payload, startedAt, c, reply, None)
    case Ok(Some(q)) =>
      SameJob(q, payload)
      && exists next :: SelfMade(q, startedAt, next) && GoesOn(payload, startedAt, c, reply, Some(next))
  }

  lemma StageGoesOn(payload: BackfillPayload, startedAt: Instant, c: Cursor, reply: Reply)
    requires Exclusive(payload) && BoundedDays(payload.days).Some? && StageFits(payload, StageOf(c))
    requires c.Plain? ==> !c.stage.WorkflowRuns?
    ensures var r := ProcessStage(payload, c, startedAt - BoundedDays(payload.days).value * DAY, startedAt, reply);
            if r.Ok? then GoesOn(payload, startedAt, c, reply, r.value)
            else Fails(payload, startedAt, c, reply, r.error)
  {
  }

  lemma StageFollows(payload: BackfillPayload, startedAt: Instant, c: Cursor, reply: Reply)
    requires Exclusive(payload) && BoundedDays(payload.days).Some? && StageFits(payload, StageOf(c)) && 1 <= c.page
    requires c.Plain? ==> !c.stage.WorkflowRuns?
    requires c.Scan? ==> InShape(c, BoundedDays(payload.days).value * DAY)
    ensures var r := ProcessStage(payload, c, startedAt - BoundedDays(payload.days).value * DAY, startedAt, reply);
            Follows(payload, startedAt, c, reply, Stored(payload, startedAt, r))
  {
    StageGoesOn(payload, startedAt, c, reply);
    StageKeepsShape(payload, c, BoundedDays(payload.days).value, startedAt, reply);
  }

  lemma FirstFollows(payload: BackfillPayload, now: Instant, reply: Reply)
    requires Fresh(payload)
    ensures Follows(payload, FirstStart(payload, now), Plain(InitialStage(payload), 1), reply,
                    HandleLease(payload, now, reply))
  {
    StageFollows(payload, FirstStart(payload, now), Plain(InitialStage(payload), 1), reply);
  }

  lemma LaterFollows(payload: BackfillPayload, now: Instant, startedAt: Instant, c: Cursor, reply: Reply)
    requires SelfMade(payload, startedAt, c)
    ensures Follows(payload, startedAt, c, reply, HandleLease(payload, now, reply))
  {
    LaterProcesses(payload, now, startedAt, c, reply);
    StageFollows(payload, startedAt, c, reply);
  }

  /** Every lease of a fresh or self-made payload goes on as its cursor says. */
  lemma LeaseFollows(payload: BackfillPayload, now: Instant, startedAt: Instant, c: Cursor, reply: Reply)
    requires Reads(payload, now, startedAt, c)
    ensures Follows(payload, startedAt, c, reply, HandleLease(payload, now, reply))
  {
    if SelfMade(payload, startedAt, c) {
      LaterFollows(payload, now, startedAt, c, reply);
    } else {
      FirstFollows(payload, now, reply);
    }
  }

  // ----- over all leases -----------------------------------------------------------------------

  /** All leases of the script but the last went on, so the last one was held too. */
  predicate LastIsHeld(payload: BackfillPayload, script: seq<(Instant, Reply)>) {
    script != [] && Leases(payload, script[..|script| - 1]).Ok? && Leases(payload, script[..|script| - 1]).value.Some?
  }

  /** The cursors that the leases of a script read, each going on to the next. */
  ghost predicate Trace(payload: BackfillPayload, startedAt: Instant, script: seq<(Instant, Reply)>,
                        trace: seq<Cursor>)
  {
    && |trace| == |script| && trace != [] && trace[0] == Plain(InitialStage(payload), 1)
    && forall j | 0 <= j < |trace| - 1 :: GoesOn(payload, startedAt, trace[j], script[j].1, Some(trace[j + 1]))
  }

  /** What the last lease of a script made of the last cursor of its trace. */
  ghost predicate Ended(payload: BackfillPayload, startedAt: Instant, script: seq<(Instant, Reply)>, trace: seq<Cursor>,
                        r: Result<Option<BackfillPayload>, BackfillError>)
    requires script != [] && |trace| == |script|
  {
    var (c, reply) := (trace[|trace| - 1], script[|script| - 1].1);
    match r
    case Err(e) => Fails(payload, startedAt, c, reply, e)
    case Ok(None) => GoesOn(payload, startedAt, c, reply, None)
    case Ok(Some(q)) =>
      SameJob(q, payload)
      && exists next :: SelfMade(q, startedAt, next) && GoesOn(payload, startedAt, c, reply, Some(next))
  }

  /** GoesOn and Fails look at the mode and the days only. */
  lemma SameJobGoesOn(p: BackfillPayload, q: BackfillPayload, startedAt: Instant, c: Cursor, reply: Reply)
    requires SameJob(q, p)
    ensures forall next :: GoesOn(q, startedAt, c, reply, next) <==> GoesOn(p, startedAt, c, reply, next)
    ensures forall e :: Fails(q, startedAt, c, reply, e) <==> Fails(p, startedAt, c, reply, e)
  {
  }

  lemma FirstTrace(payload: BackfillPayload, script: seq<(Instant, Reply)>) returns (trace: seq<Cursor>)
    requires Fresh(payload) && |script| == 1
    ensures var s0 := FirstStart(payload, script[0].0);
            Trace(payload, s0, script, trace) && Ended(payload, s0, script, trace, Leases(payload, script))
  {
    var s0 := FirstStart(payload, script[0].0);
    trace := [Plain(InitialStage(payload), 1)];
    assert Leases(payload, script[..0]) == Ok(Some(payload));
    LeaseFollows(payload, script[0].0, s0, trace[0], script[0].1);
  }

  lemma NextTrace(payload: BackfillPayload, startedAt: Instant, script: seq<(Instant, Reply)>, before: seq<Cursor>)
    returns (trace: seq<Cursor>)
    requires |script| > 1 && LastIsHeld(payload, script)
    requires Trace(payload, startedAt, script[..|script| - 1], before)
    requires Ended(payload, startedAt, script[..|script| - 1], before, Leases(payload, script[..|script| - 1]))
    ensures Trace(payload, startedAt, script, trace) && trace[..|trace| - 1] == before
    ensures Ended(payload, startedAt, script, trace, Leases(payload, script))
  {
    var (earlier, last) := (script[..|script| - 1], script[|script| - 1]);
    var q := Leases(payload, earlier).value.value;
    var c :| SelfMade(q, startedAt, c)
             && GoesOn(payload, startedAt, before[|before| - 1], earlier[|earlier| - 1].1, Some(c));
    trace := before + [c];
    LeaseFollows(q, last.0, startedAt, c, last.1);
    SameJobGoesOn(payload, q, startedAt, c, last.1);
    forall j | 0 <= j < |trace| - 1 ensures GoesOn(payload, startedAt, trace[j], script[j].1, Some(trace[j + 1])) {
      assert j < |before| - 1 ==> GoesOn(payload, startedAt, before[j], earlier[j].1, Some(before[j + 1]));
    }
  }

  /**
    Over any number of leases the cursors read follow the stages of the mode: open pull requests,
    then pull requests, then by the repository's signal the scan of the whole period or the
    deployments; or the one stage of a risk, issue or review backfill. The last lease ends the
    backfill, goes on or fails exactly as the last cursor read says.
  */
  lemma {:induction false} LeasesFollowStages(payload: BackfillPayload, script: seq<(Instant, Reply)>)
    returns (trace: seq<Cursor>)
    requires Fresh(payload) && LastIsHeld(payload, script)
    ensures var s0 := FirstStart(payload, script[0].0);
            Trace(payload, s0, script, trace) && Ended(payload, s0, script, trace, Leases(payload, script))
    decreases |script|
  {
    if |script| == 1 {
      trace := FirstTrace(payload, script);
    } else {
      var earlier := script[..|script| - 1];
      assert LastIsHeld(payload, earlier);
      var before := LeasesFollowStages(payload, earlier);
      trace := NextTrace(payload, FirstStart(payload, script[0].0), script, before);
    }
  }

  /** A backfill in the default mode: all its stages. */
  predicate IsDefault(payload: BackfillPayload) {
    !payload.riskOnly && !payload.issuesOnly && !payload.reviewsOnly
  }

  /** The last page of a stage, or of the last pending window of a scan. */
  ghost predicate LastPage(c: Cursor, cutoff: Instant, reply: Reply) {
    if c.Scan?
    then 1 <= c.page && ListWorkflowRuns(reply.runs, c.window, c.page).nextPage.None? && c.pending == []
    else !MorePages(c.stage, cutoff, reply)
  }

  lemma {:induction false} TraceFits(payload: BackfillPayload, startedAt: Instant, script: seq<(Instant, Reply)>,
                                     trace: seq<Cursor>, j: nat)
    requires Fresh(payload) && Trace(payload, startedAt, script, trace) && j < |trace|
    ensures StageFits(payload, StageOf(trace[j]))
    ensures trace[j].Plain? ==> !trace[j].stage.WorkflowRuns?
  {
    if 0 < j {
      TraceFits(payload, startedAt, script, trace, j - 1);
      assert GoesOn(payload, startedAt, trace[j - 1], script[j - 1].1, Some(trace[j - 1 + 1]));
    }
  }

  /**
    A backfill ends only on a last page: in the default mode that of the pull requests if pushes are
    the signal, of the deployments, or of the last window of the scan; in any other mode that of its
    only stage.
  */
  lemma CompletionIsEarned(payload: BackfillPayload, startedAt: Instant, script: seq<(Instant, Reply)>,
                           trace: seq<Cursor>)
    requires Fresh(payload) && Trace(payload, startedAt, script, trace)
    requires Ended(payload, startedAt, script, trace, Ok(None))
    ensures var (c, reply) := (trace[|trace| - 1], script[|script| - 1].1);
            && LastPage(c, startedAt - BoundedDays(payload.days).value * DAY, reply)
            && (IsDefault(payload) ==>
                  c.Scan? || c.stage.Deployments? || (c.stage.PullRequests? && reply.signal.ByPush?))
            && (payload.riskOnly ==> StageOf(c).OpenPullRequests?)
            && (payload.issuesOnly ==> StageOf(c).Issues?) && (payload.reviewsOnly ==> StageOf(c).Reviews?)
  {
    TraceFits(payload, startedAt, script, trace, |trace| - 1);
  }

  /** The lease at j read the stage's last page, and the next one begins `next`. */
  ghost predicate Turns(payload: BackfillPayload, startedAt: Instant, script: seq<(Instant, Reply)>, trace: seq<Cursor>,
                        j: nat, stage: Stage, next: Stage)
    requires |trace| == |script|
  {
    && BoundedDays(payload.days).Some? && j + 1 < |trace| && StageOf(trace[j]) == stage && StageOf(trace[j + 1]) == next
    && LastPage(trace[j], startedAt - BoundedDays(payload.days).value * DAY, script[j].1)
  }

  /**
    In the default mode no stage is skipped: whoever reads pull requests has read the last page of the
    open ones, and whoever reads deployments or scans has read the last page of the pull requests.
  */
  lemma {:induction false} NoStageIsSkipped(payload: BackfillPayload, startedAt: Instant, script: seq<(Instant, Reply)>,
                                            trace: seq<Cursor>, j: nat)
    requires Fresh(payload) && IsDefault(payload) && Trace(payload, startedAt, script, trace) && j < |trace|
    ensures !StageOf(trace[j]).OpenPullRequests? ==>
              exists i | 0 <= i < j :: Turns(payload, startedAt, script, trace, i, OpenPullRequests, PullRequests)
    ensures StageOf(trace[j]).Deployments? || StageOf(trace[j]).WorkflowRuns? ==>
              exists i | 0 <= i < j :: Turns(payload, startedAt, script, trace, i, PullRequests, StageOf(trace[j]))
  {
    if 0 < j {
      NoStageIsSkipped(payload, startedAt, script, trace, j - 1);
      TraceFits(payload, startedAt, script, trace, j - 1);
      var (before, here) := (StageOf(trace[j - 1]), StageOf(trace[j]));
      assert GoesOn(payload, startedAt, trace[j - 1], script[j - 1].1, Some(trace[j - 1 + 1]));
      if before != here {
        assert Turns(payload, startedAt, script, trace, j - 1, before, here);
      }
    }
  }

  // ----- what has been read --------------------------------------------------------------------

  /** The cursor that a lease reads from its payload. */
  function CursorRead(payload: BackfillPayload, now: Instant): Option<Cursor> {
    var days := BoundedDays(payload.days);
    var startedAt := StartedAt(payload.startedAt, now);
    if days.None? || startedAt.None? then None
    else
      match ParseCursor(payload.cursor, startedAt.value - days.value * DAY, startedAt.value, InitialStage(payload))
      case Err(_) => None
      case Ok(c) => Some(c)
  }

  /** The workflow runs that a lease reading this cursor normalizes. */
  function CursorRuns(runs: seq<Run>, c: Cursor): multiset<Run> {
    if c.Scan? then multiset(ProcessPage(runs, c.page, c.window, c.pending).1) else multiset{}
  }

  /** The workflow runs that a lease normalizes. */
  function LeaseRuns(payload: BackfillPayload, now: Instant, reply: Reply): multiset<Run> {
    var c := CursorRead(payload, now);
    if c.None? then multiset{} else CursorRuns(reply.runs, c.value)
  }

  /** The workflow runs that all leases of a script normalize. */
  function Normalized(payload: BackfillPayload, script: seq<(Instant, Reply)>): multiset<Run> {
    if script == [] then multiset{}
    else
      var (earlier, last) := (script[..|script| - 1], script[|script| - 1]);
      Normalized(payload, earlier)
      + match Leases(payload, earlier)
        case Ok(Some(p)) => LeaseRuns(p, last.0, last.1)
        case _ => multiset{}
  }

  lemma SelfMadeIsRead(payload: BackfillPayload, now: Instant, startedAt: Instant, c: Cursor)
    requires SelfMade(payload, startedAt, c)
    ensures CursorRead(payload, now) == Some(c)
  {
    SelfMadeParses(payload, startedAt, c);
  }

  lemma FreshIsRead(payload: BackfillPayload, now: Instant)
    requires Fresh(payload)
    ensures CursorRead(payload, now) == Some(Plain(InitialStage(payload), 1))
  {
  }

  lemma LeaseRunsOf(payload: BackfillPayload, now: Instant, startedAt: Instant, c: Cursor, reply: Reply)
    requires Reads(payload, now, startedAt, c)
    ensures LeaseRuns(payload, now, reply) == CursorRuns(reply.runs, c)
  {
    if SelfMade(payload, startedAt, c) {
      SelfMadeIsRead(payload, now, startedAt, c);
    } else {
      FreshIsRead(payload, now);
    }
  }

  /** The provider always lists the same runs, and the repository's signal is its workflow runs. */
  predicate FixedProvider(script: seq<(Instant, Reply)>, runs: seq<Run>) {
    forall x | x in script :: x.1.runs == runs && x.1.signal.ByWorkflowRun?
  }

  /** What has been normalized before a lease that reads cursor `c`. */
  ghost predicate ReadSoFar(runs: seq<Run>, c: Cursor, seen: multiset<Run>, cutoff: Instant, startedAt: Instant) {
    if c.Scan? then exists splits :: Covered(runs, c, seen, splits, cutoff, startedAt)
    else seen == multiset{} && (c.stage.OpenPullRequests? || c.stage.PullRequests?)
  }

  /** Every run of the period has been normalized once, or twice at an instant strictly inside it. */
  ghost predicate ReadAll(runs: seq<Run>, seen: multiset<Run>, cutoff: Instant, startedAt: Instant) {
    exists splits :: FullyCovered(runs, seen, splits, cutoff, startedAt)
  }

  /** One lease of the scan that goes on, or ends with everything read. */
  lemma ScanReadOn(runs: seq<Run>, c: Cursor, next: Option<Cursor>, items: seq<Run>, seen: multiset<Run>,
                   cutoff: Instant, startedAt: Instant)
    requires c.Scan? && ReadSoFar(runs, c, seen, cutoff, startedAt)
    requires ProcessPage(runs, c.page, c.window, c.pending) == (Ok(next), items)
    requires next.Some? ==> next.value.Scan?
    ensures if next.None? then ReadAll(runs, seen + multiset(items), cutoff, startedAt)
            else ReadSoFar(runs, next.value, seen + multiset(items), cutoff, startedAt)
  {
    var splits :| Covered(runs, c, seen, splits, cutoff, startedAt);
    if next.None? {
      CoverEnds(runs, c, items, seen, splits, cutoff, startedAt);
    } else {
      CoverGoesOn(runs, c, next.value, items, seen, splits, cutoff, startedAt);
    }
  }

  /** One lease of a stage before the scan: another page, the next stage, or the scan's first cursor. */
  lemma StageReadOn(runs: seq<Run>, c: Cursor, next: Cursor, cutoff: Instant, startedAt: Instant)
    requires c.Plain? && cutoff < startedAt
    requires next == Scan(1, Window(cutoff, startedAt), [])
             || (next.Plain? && (next.stage.OpenPullRequests? || next.stage.PullRequests?))
    ensures ReadSoFar(runs, next, multiset{}, cutoff, startedAt)
  {
    CoverStarts(runs, cutoff, startedAt);
  }

  lemma ReadOn(payload: BackfillPayload, startedAt: Instant, c: Cursor, next: Option<Cursor>, reply: Reply,
               seen: multiset<Run>, cutoff: Instant, items: multiset<Run>)
    requires IsDefault(payload) && GoesOn(payload, startedAt, c, reply, next) && reply.signal.ByWorkflowRun?
    requires BoundedDays(payload.days).Some? && cutoff == startedAt - BoundedDays(payload.days).value * DAY
    requires ReadSoFar(reply.runs, c, seen, cutoff, startedAt)
    requires items == CursorRuns(reply.runs, c)
    ensures if next.None? then ReadAll(reply.runs, seen + items, cutoff, startedAt)
            else ReadSoFar(reply.runs, next.value, seen + items, cutoff, startedAt)
  {
    if c.Scan? {
      ScanReadOn(reply.runs, c, next, ProcessPage(reply.runs, c.page, c.window, c.pending).1, seen, cutoff, startedAt);
    } else {
      StageReadOn(reply.runs, c, next.value, cutoff, startedAt);
      assert seen + items == multiset{};
    }
  }

  /** A result that goes on or ends, with all that its cursor promises read. */
  ghost predicate ReadsAndResults(payload: BackfillPayload, startedAt: Instant, runs: seq<Run>, seen: multiset<Run>,
                                  r: Result<Option<BackfillPayload>, BackfillError>)
  {
    BoundedDays(payload.days).Some?
    && var cutoff := startedAt - BoundedDays(payload.days).value * DAY;
       match r
       case Err(_) => true
       case Ok(None) => ReadAll(runs, seen, cutoff, startedAt)
       case Ok(Some(q)) =>
         SameJob(q, payload) && exists c :: SelfMade(q, startedAt, c) && ReadSoFar(runs, c, seen, cutoff, startedAt)
  }

  /** What a lease's result promises, if it goes on by `next` only where `seen` covers what that has read. */
  lemma ResultsAsRead(p: BackfillPayload, startedAt: Instant, runs: seq<Run>, seen: multiset<Run>, cutoff: Instant,
                      next: Option<Cursor> -> bool, r: Result<Option<BackfillPayload>, BackfillError>)
    requires BoundedDays(p.days).Some? && cutoff == startedAt - BoundedDays(p.days).value * DAY
    requires next(None) ==> ReadAll(runs, seen, cutoff, startedAt)
    requires forall c :: next(Some(c)) ==> ReadSoFar(runs, c, seen, cutoff, startedAt)
    requires match r
             case Err(_) => true
             case Ok(None) => next(None)
             case Ok(Some(q)) => SameJob(q, p) && exists c :: SelfMade(q, startedAt, c) && next(Some(c))
    ensures ReadsAndResults(p, startedAt, runs, seen, r)
  {
  }

  lemma OneMoreLease(p: BackfillPayload, startedAt: Instant, read: Cursor, reply: Reply, seen: multiset<Run>,
                     r: Result<Option<BackfillPayload>, BackfillError>, items: multiset<Run>, cutoff: Instant)
    requires Follows(p, startedAt, read, reply, r) && IsDefault(p) && BoundedDays(p.days).Some?
    requires reply.signal.ByWorkflowRun? && cutoff == startedAt - BoundedDays(p.days).value * DAY
    requires items == CursorRuns(reply.runs, read) && ReadSoFar(reply.runs, read, seen, cutoff, startedAt)
    ensures ReadsAndResults(p, startedAt, reply.runs, seen + items, r)
  {
    var next := (n: Option<Cursor>) => GoesOn(p, startedAt, read, reply, n);
    if next(None) {
      ReadOn(p, startedAt, read, None, reply, seen, cutoff, items);
    }
    forall c | next(Some(c)) ensures ReadSoFar(reply.runs, c, seen + items, cutoff, startedAt) {
      ReadOn(p, startedAt, read, Some(c), reply, seen, cutoff, items);
    }
    ResultsAsRead(p, startedAt, reply.runs, seen + items, cutoff, next, r);
  }

  lemma HeldLease(p: BackfillPayload, now: Instant, startedAt: Instant, read: Cursor, reply: Reply, runs: seq<Run>,
                  seen: multiset<Run>)
    requires Reads(p, now, startedAt, read) && IsDefault(p) && reply.runs == runs && reply.signal.ByWorkflowRun?
    requires ReadSoFar(runs, read, seen, startedAt - BoundedDays(p.days).value * DAY, startedAt)
    ensures ReadsAndResults(p, startedAt, runs, seen + LeaseRuns(p, now, reply), HandleLease(p, now, reply))
  {
    LeaseFollows(p, now, startedAt, read, reply);
    LeaseRunsOf(p, now, startedAt, read, reply);
    OneMoreLease(p, startedAt, read, reply, seen, HandleLease(p, now, reply), LeaseRuns(p, now, reply),
                 startedAt - BoundedDays(p.days).value * DAY);
  }

  lemma LeasesUnfold(payload: BackfillPayload, script: seq<(Instant, Reply)>)
    requires LastIsHeld(payload, script)
    ensures var (earlier, last) := (script[..|script| - 1], script[|script| - 1]);
            var p := Leases(payload, earlier).value.value;
            && Leases(payload, script) == HandleLease(p, last.0, last.1)
            && Normalized(payload, script) == Normalized(payload, earlier) + LeaseRuns(p, last.0, last.1)
  {
  }

  lemma HeldAgain(payload: BackfillPayload, p: BackfillPayload, now: Instant, startedAt: Instant, reply: Reply,
                  runs: seq<Run>, seen: multiset<Run>)
    requires IsDefault(payload) && ReadsAndResults(payload, startedAt, runs, seen, Ok(Some(p)))
    requires reply.runs == runs && reply.signal.ByWorkflowRun?
    ensures ReadsAndResults(payload, startedAt, runs, seen + LeaseRuns(p, now, reply), HandleLease(p, now, reply))
  {
    var cutoff := startedAt - BoundedDays(payload.days).value * DAY;
    var read :| SelfMade(p, startedAt, read) && ReadSoFar(runs, read, seen, cutoff, startedAt);
    HeldLease(p, now, startedAt, read, reply, runs, seen);
    ResultOfSameJob(payload, p, startedAt, runs, seen + LeaseRuns(p, now, reply), HandleLease(p, now, reply));
  }

  lemma ResultOfSameJob(p: BackfillPayload, q: BackfillPayload, startedAt: Instant, runs: seq<Run>, seen: multiset<Run>,
                        r: Result<Option<BackfillPayload>, BackfillError>)
    requires SameJob(q, p) && ReadsAndResults(q, startedAt, runs, seen, r)
    ensures ReadsAndResults(p, startedAt, runs, seen, r)
  {
  }

  lemma NothingReadYet(payload: BackfillPayload, now: Instant, runs: seq<Run>)
    requires Fresh(payload) && IsDefault(payload)
    ensures Reads(payload, now, FirstStart(payload, now), Plain(InitialStage(payload), 1))
    ensures var s0 := FirstStart(payload, now);
            ReadSoFar(runs, Plain(InitialStage(payload), 1), multiset{}, s0 - BoundedDays(payload.days).value * DAY, s0)
    ensures Leases(payload, []) == Ok(Some(payload)) && Normalized(payload, []) == multiset{}
  {
  }

  /** After every lease that was held, what its result promises has been read. */
  lemma {:induction false} ReadsInStep(payload: BackfillPayload, script: seq<(Instant, Reply)>, runs: seq<Run>)
    requires Fresh(payload) && IsDefault(payload) && FixedProvider(script, runs) && LastIsHeld(payload, script)
    ensures ReadsAndResults(payload, FirstStart(payload, script[0].0), runs, Normalized(payload, script),
                            Leases(payload, script))
    decreases |script|
  {
    var (earlier, last) := (script[..|script| - 1], script[|script| - 1]);
    var s0 := FirstStart(payload, script[0].0);
    LeasesUnfold(payload, script);
    assert last in script;
    if |script| == 1 {
      assert earlier == [];
      NothingReadYet(payload, last.0, runs);
      HeldLease(payload, last.0, s0, Plain(InitialStage(payload), 1), last.1, runs, multiset{});
    } else {
      HeldBefore(payload, script);
      ReadsInStep(payload, earlier, runs);
      HeldAgain(payload, Leases(payload, earlier).value.value, last.0, s0, last.1, runs, Normalized(payload, earlier));
    }
  }

  lemma HeldBefore(payload: BackfillPayload, script: seq<(Instant, Reply)>)
    requires LastIsHeld(payload, script) && |script| > 1
    ensures LastIsHeld(payload, script[..|script| - 1])
  {
  }

  /**
    A completed backfill has read everything: against a fixed provider, with workflow runs as the
    signal, a default backfill that ended has normalized every run of [cutoff, startedAt], once, or
    twice at an instant where windows met.
  */
  lemma CompletedBackfillCovers(payload: BackfillPayload, script: seq<(Instant, Reply)>, runs: seq<Run>)
    requires Fresh(payload) && IsDefault(payload) && FixedProvider(script, runs)
    requires LastIsHeld(payload, script) && Leases(payload, script) == Ok(None)
    ensures var s0 := FirstStart(payload, script[0].0);
            ReadAll(runs, Normalized(payload, script), s0 - BoundedDays(payload.days).value * DAY, s0)
  {
    ReadsInStep(payload, script, runs);
  }
}
