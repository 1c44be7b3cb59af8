/** Concrete runs: work gets executed, recovery can collide, and a request without a range can be replaced. */
module Witnesses {
  import opened Prelude
  import opened Jobs
  import opened Queue
  import opened Leases
  import opened Protocol
  import opened LockInvariants
  import opened ClaimInvariants
  import opened PollTheorems
  import opened RecoveryTheorems

  ghost predicate Reachable(env: Environment, s: System) {
    exists run, steps :: IsScript(env, run, steps) && run[|run| - 1] == s
  }

  lemma Initially(env: Environment)
    ensures Reachable(env, Empty())
  {
    assert IsScript(env, [Empty()], []);
  }

  lemma ReachableStep(env: Environment, s: System, step: Step)
    requires Reachable(env, s) && Enabled(env, s, step)
    ensures Reachable(env, Apply(env, s, step))
  {
    var run, steps :| IsScript(env, run, steps) && run[|run| - 1] == s;
    ScriptGrows(env, run, steps, step, Apply(env, s, step));
  }

  lemma ScriptGrows(env: Environment, run: seq<System>, steps: seq<Step>, step: Step, next: System)
    requires IsScript(env, run, steps)
    requires Enabled(env, run[|run| - 1], step) && next == Apply(env, run[|run| - 1], step)
    ensures IsScript(env, run + [next], steps + [step])
  {
    forall i: nat | i < |steps + [step]| ensures StepAt(env, run + [next], steps + [step], i) {
      if i < |steps| {
        assert StepAt(env, run, steps, i);
      }
    }
  }

  function Empty(): System {
    System(map[], {}, map[], 0, [], map[], multiset{}, map[], map[], {})
  }

  /** The recalculation job that the runs below revolve around: repository 7 of workspace 3. */
  function Recalculation(): Row {
    MetricsRow(0, 3, 7, Some(Range(0, 5)), 3)
  }

  function ClaimedOnce(): Claim {
    Claim(1, ClaimRow(Recalculation(), 0, "w"), 0)
  }

  /** What stays true while "w" alone works on row 1. */
  ghost predicate Alone(env: Environment, s: System, phase: Phase) {
    && Reachable(env, s) && s.now == 0 && s.phases == map["w" := phase]
    && (forall g | g in s.grants :: g.session == "w")
  }

  lemma EnqueuedState(env: Environment) returns (s: System)
    ensures Alone(env, s, Idle) && s.rows == map[1 := Recalculation()] && s.claims == []
  {
    Initially(env);
    var enqueue := EnqueueMetrics(1, 3, 7, Some(Range(0, 5)), 3);
    ReachableStep(env, Empty(), enqueue);
    var enqueued := Apply(env, Empty(), enqueue);
    assert enqueued.rows == map[1 := Recalculation()];
    ReachableStep(env, enqueued, Start("w"));
    s := Apply(env, enqueued, Start("w"));
  }

  function FirstPoll(): Step {
    Poll("w", 60 * SECOND, {}, {}, Some(1))
  }

  lemma FirstPollClaims(env: Environment, s: System)
    requires Alone(env, s, Idle) && s.rows == map[1 := Recalculation()] && s.claims == []
    ensures Enabled(env, s, FirstPoll())
    ensures ApplyRecovery(s, {}, {}).rows == s.rows && ApplyRecovery(s, {}, {}).phases == s.phases
  {
    assert Recover(s.rows, {}, {}, 0) == s.rows;
  }

  lemma ClaimedState(env: Environment) returns (s: System)
    ensures Alone(env, s, Claimed(ClaimedOnce())) && s.rows == map[1 := ClaimedOnce().row]
  {
    var before := EnqueuedState(env);
    FirstPollClaims(env, before);
    ReachableStep(env, before, FirstPoll());
    s := Apply(env, before, FirstPoll());
  }

  lemma JobLockedState(env: Environment) returns (s: System)
    ensures Alone(env, s, JobLocked(ClaimedOnce())) && s.rows == map[1 := ClaimedOnce().row]
  {
    var before := ClaimedState(env);
    ReachableStep(env, before, LockJob("w"));
    s := Apply(env, before, LockJob("w"));
  }

  lemma ScopedState(env: Environment) returns (s: System, scope: Scope)
    ensures Alone(env, s, Scoped(ClaimedOnce(), scope)) && s.rows == map[1 := ClaimedOnce().row]
  {
    var before := JobLockedState(env);
    ReachableStep(env, before, CheckOwner("w"));
    s := Apply(env, before, CheckOwner("w"));
    scope := ResolveScope(env, before.rows[1], ClaimedOnce().row);
  }

  /** Own grants never stand in the way. */
  lemma AllFree(env: Environment, s: System, phase: Phase, grants: set<Grant>)
    requires Alone(env, s, phase) && forall g | g in grants :: g.session == "w"
    ensures forall g | g in grants :: Free(env, s.grants, g)
  {
  }

  lemma WorkspaceLockedState(env: Environment) returns (s: System, scope: Scope)
    ensures Alone(env, s, WorkspaceLocked(ClaimedOnce(), scope)) && s.rows == map[1 := ClaimedOnce().row]
  {
    var before;
    before, scope := ScopedState(env);
    AllFree(env, before, Scoped(ClaimedOnce(), scope), WorkspaceGrants(scope, "w"));
    ReachableStep(env, before, LockWorkspace("w"));
    s := Apply(env, before, LockWorkspace("w"));
  }

  /** Alone, "w" takes every lock it needs, whatever the tables and the key hash. */
  lemma ExecutingState(env: Environment) returns (s: System, scope: Scope)
    ensures Alone(env, s, Executing(ClaimedOnce(), scope)) && s.rows == map[1 := ClaimedOnce().row]
  {
    var before;
    before, scope := WorkspaceLockedState(env);
    AllFree(env, before, WorkspaceLocked(ClaimedOnce(), scope), RepositoryGrants(scope, "w"));
    ReachableStep(env, before, LockRepository("w"));
    s := Apply(env, before, LockRepository("w"));
  }

  lemma SomeoneExecutes(env: Environment)
    ensures exists s :: Reachable(env, s) && PhaseOf(s, "w").Executing?
  {
    var s, _ := ExecutingState(env);
  }

  /** While "w" executes, the repository is enqueued again. */
  lemma EnqueuedTwiceState(env: Environment) returns (s: System, scope: Scope)
    ensures Alone(env, s, Executing(ClaimedOnce(), scope))
    ensures s.rows == map[1 := ClaimedOnce().row, 2 := Recalculation()]
  {
    var before;
    before, scope := ExecutingState(env);
    var enqueue := EnqueueMetrics(2, 3, 7, Some(Range(0, 5)), 3);
    ReachableStep(env, before, enqueue);
    s := Apply(env, before, enqueue);
    assert s.rows == map[1 := ClaimedOnce().row, 2 := Recalculation()];
  }

  lemma CrashedState(env: Environment) returns (s: System)
    ensures Reachable(env, s) && s.now == 0 && s.grants == {} && s.phases == map["w" := Gone]
    ensures s.rows == map[1 := ClaimedOnce().row, 2 := Recalculation()]
  {
    var before, _ := EnqueuedTwiceState(env);
    ReachableStep(env, before, Crash({"w"}));
    s := Apply(env, before, Crash({"w"}));
  }

  /** A minute after the crash another worker is there to poll. */
  lemma SecondWorkerState(env: Environment) returns (s: System)
    ensures Reachable(env, s) && s.now == 60 * SECOND && s.grants == {}
    ensures s.phases == map["w" := Gone, "v" := Idle]
    ensures s.rows == map[1 := ClaimedOnce().row, 2 := Recalculation()]
  {
    var before := CrashedState(env);
    ReachableStep(env, before, Start("v"));
    var started := Apply(env, before, Start("v"));
    ReachableStep(env, started, Tick(60 * SECOND));
    s := Apply(env, started, Tick(60 * SECOND));
  }

  /**
    Recovery and claim share one transaction. There is a reachable state with an idle worker in
    which the crashed recalculation may not go back to waiting beside the newer one.
  */
  lemma RecoveryCanCollide(env: Environment)
    ensures exists s :: Reachable(env, s) && PhaseOf(s, "v").Idle? && Stuck(s, 1, 2, 60 * SECOND)
  {
    var s := SecondWorkerState(env);
    assert Stuck(s, 1, 2, 60 * SECOND);
  }

  /** From there a poll that skips the stale row, as when another poll has it locked, claims the rival. */
  lemma SkippingClears(env: Environment)
    ensures exists s, step :: Reachable(env, s) && Stuck(s, 1, 2, 60 * SECOND) && Enabled(env, s, step)
                              && Picked(step) == Some(2) && !Stuck(Apply(env, s, step), 1, 2, 60 * SECOND)
  {
    var s := SecondWorkerState(env);
    var step := Poll("v", 60 * SECOND, {}, {}, Some(2));
    assert Stuck(s, 1, 2, 60 * SECOND);
    assert Recover(s.rows, {}, {}, s.now) == s.rows;
    PickedIsRunning(env, s, step);
    assert Picked(step) == Some(2);
  }

  /** No crash is needed: "w" finds its scope busy. */
  lemma BusyState(env: Environment) returns (s: System)
    ensures Alone(env, s, Deferring(ClaimedOnce())) && s.grants == {} && s.rows == map[1 := ClaimedOnce().row]
  {
    var claimed := ClaimedState(env);
    ReachableStep(env, claimed, ScopeIsBusy("w"));
    s := Apply(env, claimed, ScopeIsBusy("w"));
  }

  /** Before "w" defers, the repository is enqueued again. */
  lemma DeferringState(env: Environment) returns (s: System)
    ensures Alone(env, s, Deferring(ClaimedOnce())) && s.grants == {}
    ensures s.rows == map[1 := ClaimedOnce().row, 2 := Recalculation()]
  {
    var before := BusyState(env);
    var enqueue := EnqueueMetrics(2, 3, 7, Some(Range(0, 5)), 3);
    ReachableStep(env, before, enqueue);
    s := Apply(env, before, enqueue);
    assert s.rows == map[1 := ClaimedOnce().row, 2 := Recalculation()];
  }

  /** The deferral collides and leaves the row RUNNING. */
  lemma DeferralFails(env: Environment) returns (s: System)
    ensures Alone(env, s, Idle) && s.grants == {}
    ensures s.rows == map[1 := ClaimedOnce().row, 2 := Recalculation()]
  {
    var before := DeferringState(env);
    assert RivalWaits(before.rows, 1) by {
      assert Waiting(before.rows[2]) && Rivals(before.rows[2], before.rows[1]);
    }
    RequeueFailsIff(before.rows, 1, "w", 0, ClaimedOnce().row.payload, DEFER_DELAY, false);
    ReachableStep(env, before, Defer("w"));
    s := Apply(env, before, Defer("w"));
  }

  /** One live, idle worker, and a collision. */
  lemma DeferralCanCollide(env: Environment)
    ensures exists s :: Reachable(env, s) && s.phases == map["w" := Idle] && Stuck(s, 1, 2, 60 * SECOND)
  {
    var before := DeferralFails(env);
    ReachableStep(env, before, Tick(60 * SECOND));
    var s := Apply(env, before, Tick(60 * SECOND));
    assert Stuck(s, 1, 2, 60 * SECOND);
  }

  /** Right after an enqueue without a range, one with a range: only that range is left. */
  lemma UnrangedCanBeReplaced(env: Environment)
    ensures exists s :: Reachable(env, s) && s.rows.Keys == {1} && s.rows[1].payload.affected == Some(Range(3, 7))
  {
    Initially(env);
    var unranged := EnqueueMetrics(1, 3, 7, None, 3);
    ReachableStep(env, Empty(), unranged);
    var waiting := Apply(env, Empty(), unranged);
    var row := MetricsRow(0, 3, 7, None, 3);
    assert waiting.rows == map[1 := row];
    SlotIsUnique(waiting.rows, 1, 7);
    var ranged := EnqueueMetrics(2, 3, 7, Some(Range(3, 7)), 3);
    ReachableStep(env, waiting, ranged);
    assert Apply(env, waiting, ranged).rows.Keys == {1};
  }
}
