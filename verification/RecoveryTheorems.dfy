/** How a collision in recovery lasts, and how a request without a range does. */
module RecoveryTheorems {
  import opened Prelude
  import opened Jobs
  import opened Queue
  import opened Leases
  import opened Protocol
  import opened LockInvariants
  import opened ClaimInvariants
  import opened ProtocolTheorems
  import opened PollTheorems

  // ----- rows that a step leaves alone ---------------------------------------------------------

  /** A step seen from a waiting row: only an enqueue for its repository writes it, unless a poll claims it. */
  ghost predicate WaitingRowKept(s: System, step: Step, t: System, id: Uuid)
    requires id in s.rows
  {
    && id in t.rows
    && t.rows[id] == if step.EnqueueMetrics? && IsSlot(s.rows[id], step.repository)
                     then MergeRow(s.rows[id], s.now, MetricsPayload(step.workspace, step.repository, step.affected))
                     else s.rows[id]
  }

  lemma WaitingEnqueue(env: Environment, s: System, step: Step, id: Uuid)
    requires TableOk(s.rows) && Enabled(env, s, step) && step.EnqueueMetrics? && id in s.rows && Waiting(s.rows[id])
    ensures WaitingRowKept(s, step, Apply(env, s, step), id)
  {
    if IsSlot(s.rows[id], step.repository) {
      SlotIsUnique(s.rows, id, step.repository);
    }
  }

  /** Ending a claim, or failing to, leaves every row alone that the worker does not own. */
  lemma DispatchElsewhere(env: Environment, s: System, w: WorkerId, handled: HandlerResult, jitter: int, id: Uuid)
    requires TableOk(s.rows) && Enabled(env, s, Dispatch(w, handled, jitter)) && id in s.rows
    requires !OwnedIn(s.rows, id, w) || PhaseOf(s, w).claim.job != id
    ensures id in Apply(env, s, Dispatch(w, handled, jitter)).rows
    ensures Apply(env, s, Dispatch(w, handled, jitter)).rows[id] == s.rows[id]
  {
    var c := PhaseOf(s, w).claim;
    DispatchReportsRow(s.rows, c.job, c.row.jobType, w, s.now, jitter, handled);
  }

  lemma WaitingRowStep(env: Environment, s: System, step: Step, id: Uuid)
    requires TableOk(s.rows) && Enabled(env, s, step) && id in s.rows && Waiting(s.rows[id])
    requires Picked(step) != Some(id)
    ensures WaitingRowKept(s, step, Apply(env, s, step), id)
  {
    if step.EnqueueMetrics? {
      WaitingEnqueue(env, s, step, id);
    } else if step.Dispatch? {
      DispatchElsewhere(env, s, step.worker, step.handled, step.jitter, id);
    } else if MovesOnly(step) {
      MovesOnlyEffect(env, s, step);
    }
  }

  /** No worker holds a claim on the row, and no session its job lock. */
  ghost predicate Abandoned(s: System, id: Uuid) {
    && (forall w | w in s.phases && HasClaim(s.phases[w]) :: s.phases[w].claim.job != id)
    && (forall g | g in s.grants :: g.key != JobKey(id))
  }

  lemma AbandonedRowStep(env: Environment, s: System, step: Step, id: Uuid)
    requires TableOk(s.rows) && Enabled(env, s, step) && !step.Poll?
    requires id in s.rows && s.rows[id].status.Running? && Abandoned(s, id)
    ensures id in Apply(env, s, step).rows && Apply(env, s, step).rows[id] == s.rows[id]
  {
    if step.EnqueueMetrics? {
      EnqueueKeepsTable(s.rows, step.newId, s.now, step.workspace, step.repository, step.affected, step.maxAttempts);
    } else if step.Dispatch? {
      DispatchElsewhere(env, s, step.worker, step.handled, step.jitter, id);
    } else if MovesOnly(step) {
      MovesOnlyEffect(env, s, step);
    }
  }

  /** Only a poll gives a worker a new claim. */
  lemma ClaimsPersist(env: Environment, s: System, step: Step)
    requires Enabled(env, s, step) && !step.Poll?
    ensures var t := Apply(env, s, step);
            && t.claims == s.claims
            && forall w | w in t.phases && HasClaim(t.phases[w]) ::
                 w in s.phases && HasClaim(s.phases[w]) && t.phases[w].claim == s.phases[w].claim
  {
    if MovesOnly(step) {
      MovesOnlyEffect(env, s, step);
    }
  }

  lemma GrantsOfOthers(env: Environment, s: System, step: Step, id: Uuid)
    requires Enabled(env, s, step) && !step.Poll? && Abandoned(s, id)
    ensures forall g | g in Apply(env, s, step).grants :: g.key != JobKey(id)
  {
  }

  lemma StaysAbandoned(env: Environment, s: System, step: Step, id: Uuid)
    requires Enabled(env, s, step) && !step.Poll? && Abandoned(s, id)
    ensures Abandoned(Apply(env, s, step), id)
  {
    ClaimsPersist(env, s, step);
    GrantsOfOthers(env, s, step, id);
  }

  // ----- how long a collision lasts ------------------------------------------------------------

  /** An abandoned stale recalculation `a` that may be retried, and a waiting rival `b`. */
  ghost predicate Stuck(s: System, a: Uuid, b: Uuid, staleAfter: int) {
    && a in s.rows && b in s.rows && a != b
    && Stale(s.rows[a], s.now, staleAfter) && s.rows[a].attempts < s.rows[a].maxAttempts && Abandoned(s, a)
    && Waiting(s.rows[b]) && Rivals(s.rows[a], s.rows[b])
  }

  /** Whatever a poll skips, it commits only if it skips the stale recalculation. */
  lemma CommittedPollSkips(env: Environment, s: System, poll: Step, a: Uuid, b: Uuid, staleAfter: int)
    requires Stuck(s, a, b, staleAfter) && poll.Poll? && Enabled(env, s, poll)
    ensures a !in poll.buried + poll.retried && poll.picked != Some(a)
    ensures Apply(env, s, poll).rows[a] == s.rows[a]
  {
    var after := Recover(s.rows, poll.buried, poll.retried, s.now);
    if a in poll.retried {
      assert SameSlot(after[a], after[b]);
      assert false;
    }
  }

  lemma PollKeepsAbandoned(env: Environment, s: System, poll: Step, id: Uuid)
    requires poll.Poll? && Enabled(env, s, poll) && Abandoned(s, id) && poll.picked != Some(id)
    ensures Abandoned(Apply(env, s, poll), id)
  {
  }

  lemma PickedIsRunning(env: Environment, s: System, poll: Step)
    requires poll.Poll? && Enabled(env, s, poll) && poll.picked.Some?
    ensures poll.picked.value in s.rows && Apply(env, s, poll).rows[poll.picked.value].status.Running?
  {
  }

  /** A collision survives every step but one: a poll that claims the rival. */
  lemma StuckStepIff(env: Environment, s: System, step: Step, a: Uuid, b: Uuid, staleAfter: int)
    requires TableOk(s.rows) && Stuck(s, a, b, staleAfter) && Enabled(env, s, step)
    ensures a in Apply(env, s, step).rows && Apply(env, s, step).rows[a] == s.rows[a]
    ensures Stuck(Apply(env, s, step), a, b, staleAfter) <==> Picked(step) != Some(b)
  {
    TimeGoesOn(env, s, step);
    if step.Poll? {
      CommittedPollSkips(env, s, step, a, b, staleAfter);
      PollKeepsAbandoned(env, s, step, a);
      if step.picked == Some(b) {
        PickedIsRunning(env, s, step);
      }
    } else {
      AbandonedRowStep(env, s, step, a);
      StaysAbandoned(env, s, step, a);
    }
    if Picked(step) != Some(b) {
      WaitingRowStep(env, s, step, b);
    }
  }

  lemma TimeGoesOn(env: Environment, s: System, step: Step)
    requires Enabled(env, s, step)
    ensures s.now <= Apply(env, s, step).now
  {
    if MovesOnly(step) {
      MovesOnlyEffect(env, s, step);
    }
  }

  lemma StuckNextIff(env: Environment, run: seq<System>, steps: seq<Step>, j: nat, a: Uuid, b: Uuid, staleAfter: int)
    requires IsScript(env, run, steps) && j < |steps| && Stuck(run[j], a, b, staleAfter)
    ensures a in run[j + 1].rows && run[j + 1].rows[a] == run[j].rows[a]
    ensures Stuck(run[j + 1], a, b, staleAfter) <==> Picked(steps[j]) != Some(b)
  {
    ScriptIsRun(env, run, steps);
    RunsKeepInv(env, run, j);
    assert StepAt(env, run, steps, j);
    StuckStepIff(env, run[j], steps[j], a, b, staleAfter);
  }

  ghost predicate StuckAt(run: seq<System>, a: Uuid, b: Uuid, staleAfter: int, row: Row, j: int) {
    0 <= j < |run| && Stuck(run[j], a, b, staleAfter) && run[j].rows[a] == row
  }

  ghost predicate StuckThroughout(run: seq<System>, i: nat, k: nat, a: Uuid, b: Uuid, staleAfter: int, row: Row) {
    forall j | i <= j <= k :: StuckAt(run, a, b, staleAfter, row, j)
  }

  lemma StuckThroughoutGrows(run: seq<System>, i: nat, k: nat, a: Uuid, b: Uuid, staleAfter: int, row: Row)
    requires i <= k
    ensures StuckThroughout(run, i, k + 1, a, b, staleAfter, row)
       <==> StuckThroughout(run, i, k, a, b, staleAfter, row) && StuckAt(run, a, b, staleAfter, row, k + 1)
  {
  }

  lemma NotPickedGrows(steps: seq<Step>, i: nat, k: nat, id: Uuid)
    requires i <= k < |steps|
    ensures NotPicked(steps, i, k + 1, id) <==> NotPicked(steps, i, k, id) && Picked(steps[k]) != Some(id)
  {
  }

  /**
    A collision lasts exactly until some poll claims the rival, whatever all workers do and whatever
    their polls skip. As long as it lasts, no poll recovers the stale recalculation.
  */
  lemma {:induction false} CollisionLastsIff(env: Environment, run: seq<System>, steps: seq<Step>, i: nat, k: nat,
                                             a: Uuid, b: Uuid, staleAfter: int)
    requires IsScript(env, run, steps) && i <= k < |run| && Stuck(run[i], a, b, staleAfter)
    ensures StuckThroughout(run, i, k, a, b, staleAfter, run[i].rows[a]) <==> NotPicked(steps, i, k, b)
    decreases k
  {
    var row := run[i].rows[a];
    if i == k {
      assert StuckAt(run, a, b, staleAfter, row, i);
    } else {
      CollisionLastsIff(env, run, steps, i, k - 1, a, b, staleAfter);
      StuckThroughoutGrows(run, i, k - 1, a, b, staleAfter, row);
      NotPickedGrows(steps, i, k - 1, b);
      if StuckThroughout(run, i, k - 1, a, b, staleAfter, row) {
        assert StuckAt(run, a, b, staleAfter, row, k - 1);
        StuckNextIff(env, run, steps, k - 1, a, b, staleAfter);
      }
    }
  }

  // ----- polls that skip nothing ---------------------------------------------------------------

  /** No other key is hashed to the job's lock. */
  ghost predicate OwnHash(env: Environment, id: Uuid) {
    forall key | env.hash(key) == env.hash(JobKey(id)) :: key == JobKey(id)
  }

  lemma NoPollCommits(env: Environment, s: System, w: WorkerId, interval: int, picked: Option<Uuid>,
                      a: Uuid, b: Uuid, staleAfter: int)
    requires UniqueWaiting(s.rows) && OwnHash(env, a) && Stuck(s, a, b, staleAfter) && interval <= staleAfter
    ensures !Enabled(env, s, FullPoll(env, s, w, interval, picked))
  {
    assert Free(env, s.grants, JobGrant(a, w));
    assert a in StaleRetryable(s.rows, s.now, interval, LockedJobs(env, s, w));
    CollisionStopsPoll(env, s, w, interval, picked);
  }

  /** The step is no poll, or one that skips nothing and waits no longer than `staleAfter`. */
  ghost predicate Unskipped(env: Environment, s: System, step: Step, staleAfter: int) {
    step.Poll? ==> step.staleAfter <= staleAfter && step == FullPoll(env, s, step.worker, step.staleAfter, step.picked)
  }

  ghost predicate UnskippedAt(env: Environment, run: seq<System>, steps: seq<Step>, staleAfter: int, j: nat)
    requires j < |steps| <= |run|
  {
    Unskipped(env, run[j], steps[j], staleAfter)
  }

  lemma UnskippedIsNoPoll(env: Environment, run: seq<System>, steps: seq<Step>, j: nat, a: Uuid, b: Uuid,
                          staleAfter: int)
    requires IsScript(env, run, steps) && j < |steps| && OwnHash(env, a) && Stuck(run[j], a, b, staleAfter)
    requires UnskippedAt(env, run, steps, staleAfter, j)
    ensures !steps[j].Poll? && run[j + 1].claims == run[j].claims
  {
    ScriptIsRun(env, run, steps);
    RunsKeepInv(env, run, j);
    assert StepAt(env, run, steps, j);
    if steps[j].Poll? {
      NoPollCommits(env, run[j], steps[j].worker, steps[j].staleAfter, steps[j].picked, a, b, staleAfter);
      assert false;
    }
    ClaimsPersist(env, run[j], steps[j]);
  }

  ghost predicate NoneSkips(env: Environment, run: seq<System>, steps: seq<Step>, staleAfter: int, i: nat, k: nat)
    requires i <= k <= |steps| <= |run|
  {
    forall j: nat | i <= j < k :: UnskippedAt(env, run, steps, staleAfter, j)
  }

  lemma StuckOneMore(env: Environment, run: seq<System>, steps: seq<Step>, j: nat, a: Uuid, b: Uuid, staleAfter: int)
    requires IsScript(env, run, steps) && j < |steps| && OwnHash(env, a) && Stuck(run[j], a, b, staleAfter)
    requires UnskippedAt(env, run, steps, staleAfter, j)
    ensures Stuck(run[j + 1], a, b, staleAfter) && run[j + 1].claims == run[j].claims
  {
    UnskippedIsNoPoll(env, run, steps, j, a, b, staleAfter);
    StuckNextIff(env, run, steps, j, a, b, staleAfter);
  }

  lemma {:induction false} StaysStuck(env: Environment, run: seq<System>, steps: seq<Step>, i: nat, k: nat,
                                      a: Uuid, b: Uuid, staleAfter: int)
    requires IsScript(env, run, steps) && i <= k < |run| && OwnHash(env, a) && Stuck(run[i], a, b, staleAfter)
    requires NoneSkips(env, run, steps, staleAfter, i, k)
    ensures Stuck(run[k], a, b, staleAfter) && run[k].claims == run[i].claims
    decreases k
  {
    if i < k {
      StaysStuck(env, run, steps, i, k - 1, a, b, staleAfter);
      assert UnskippedAt(env, run, steps, staleAfter, k - 1);
      StuckOneMore(env, run, steps, k - 1, a, b, staleAfter);
    }
  }

  /**
    If no poll skips a row, nothing ever claims the rival, nor anything else: the collision lasts,
    no poll commits again and no job of any kind is claimed again.
  */
  lemma UnskippedPollsStayStuck(env: Environment, run: seq<System>, steps: seq<Step>, i: nat, k: nat,
                                a: Uuid, b: Uuid, staleAfter: int, w: WorkerId, interval: int, picked: Option<Uuid>)
    requires IsScript(env, run, steps) && i <= k < |run| && OwnHash(env, a) && Stuck(run[i], a, b, staleAfter)
    requires NoneSkips(env, run, steps, staleAfter, i, k) && interval <= staleAfter
    ensures Stuck(run[k], a, b, staleAfter) && run[k].claims == run[i].claims
    ensures !Enabled(env, run[k], FullPoll(env, run[k], w, interval, picked))
  {
    StaysStuck(env, run, steps, i, k, a, b, staleAfter);
    ScriptIsRun(env, run, steps);
    RunsKeepInv(env, run, k);
    NoPollCommits(env, run[k], w, interval, picked, a, b, staleAfter);
  }

  // ----- requests without a range --------------------------------------------------------------

  predicate RangedEnqueue(step: Step, repository: Uuid) {
    step.EnqueueMetrics? && step.repository == repository && step.affected.Some?
  }

  /** The row waits for its repository, and its request is for the default period or not. */
  ghost predicate Pending(s: System, id: Uuid, repository: Uuid, unranged: bool) {
    && id in s.rows && IsSlot(s.rows[id], repository)
    && s.rows[id].payload.affected.None? == unranged
  }

  lemma PendingStep(env: Environment, s: System, step: Step, id: Uuid, repository: Uuid, unranged: bool)
    requires TableOk(s.rows) && Enabled(env, s, step) && Pending(s, id, repository, unranged)
    requires Picked(step) != Some(id)
    ensures Pending(Apply(env, s, step), id, repository, unranged && !RangedEnqueue(step, repository))
  {
    WaitingRowStep(env, s, step, id);
  }

  lemma PendingNext(env: Environment, run: seq<System>, steps: seq<Step>, j: nat, id: Uuid, repository: Uuid,
                    unranged: bool)
    requires IsScript(env, run, steps) && j < |steps| && Pending(run[j], id, repository, unranged)
    requires Picked(steps[j]) != Some(id)
    ensures Pending(run[j + 1], id, repository, unranged && !RangedEnqueue(steps[j], repository))
  {
    ScriptIsRun(env, run, steps);
    RunsKeepInv(env, run, j);
    assert StepAt(env, run, steps, j);
    PendingStep(env, run[j], steps[j], id, repository, unranged);
  }

  /** Whether no ranged enqueue for the repository is among the steps from i on, before k. */
  ghost predicate NoneRanged(steps: seq<Step>, i: nat, k: nat, repository: Uuid)
    requires i <= k <= |steps|
  {
    forall j | i <= j < k :: !RangedEnqueue(steps[j], repository)
  }

  lemma NoneRangedStep(steps: seq<Step>, i: nat, k: nat, repository: Uuid)
    requires i < k <= |steps|
    ensures NoneRanged(steps, i, k, repository)
       <==> NoneRanged(steps, i, k - 1, repository) && !RangedEnqueue(steps[k - 1], repository)
  {
  }

  /** No poll among the steps from i on, before k, claims the job. */
  ghost predicate NotPicked(steps: seq<Step>, i: nat, k: nat, id: Uuid)
    requires i <= k <= |steps|
  {
    forall j | i <= j < k :: Picked(steps[j]) != Some(id)
  }

  /**
    A waiting request for the default period is still pending, at any later state before a poll
    claims its row, exactly when every enqueue for its repository since then was without a range.
  */
  lemma {:induction false} UnrangedSurvivesIff(env: Environment, run: seq<System>, steps: seq<Step>, i: nat, k: nat,
                                               id: Uuid, repository: Uuid)
    requires IsScript(env, run, steps) && i <= k < |run| && Pending(run[i], id, repository, true)
    requires NotPicked(steps, i, k, id)
    ensures Pending(run[k], id, repository, NoneRanged(steps, i, k, repository))
    decreases k
  {
    if i < k {
      UnrangedSurvivesIff(env, run, steps, i, k - 1, id, repository);
      PendingNext(env, run, steps, k - 1, id, repository, NoneRanged(steps, i, k - 1, repository));
      NoneRangedStep(steps, i, k, repository);
    }
  }
}
