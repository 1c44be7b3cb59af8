/**
  What polls achieve. A worker chooses nothing: a poll recovers every stale row whose job lock is
  free, then claims the least eligible row, in one transaction. Only rows that another transaction
  has locked are skipped; the polls of this module meet none.
*/
module PollTheorems {
  import opened Prelude
  import opened Jobs
  import opened ClaimOrder
  import opened Queue
  import opened Leases
  import opened Protocol
  import opened LockInvariants
  import opened ClaimInvariants
  import opened ProtocolTheorems

  /** The job that a step claims, if any. */
  function Picked(step: Step): Option<Uuid> {
    if step.Poll? then step.picked else None
  }

  /** A poll that skips no row in recovery. */
  function FullPoll(env: Environment, s: System, w: WorkerId, staleAfter: int, picked: Option<Uuid>): Step {
    var locked := LockedJobs(env, s, w);
    Poll(w, staleAfter, StaleExhausted(s.rows, s.now, staleAfter, locked),
         StaleRetryable(s.rows, s.now, staleAfter, locked), picked)
  }

  /** The table between the poll's recovery and its claim. */
  function Recovered(env: Environment, s: System, w: WorkerId, staleAfter: int): Rows {
    var locked := LockedJobs(env, s, w);
    Recover(s.rows, StaleExhausted(s.rows, s.now, staleAfter, locked),
            StaleRetryable(s.rows, s.now, staleAfter, locked), s.now)
  }

  /** The eligible jobs in the order in which polls will claim them. */
  function Line(env: Environment, s: System, w: WorkerId, staleAfter: int): seq<Uuid> {
    var recovered := Recovered(env, s, w, staleAfter);
    SortedIds(recovered, Eligible(recovered, s.now, {}))
  }

  /** The poll that the worker makes next: it claims the first job in line, if there is one. */
  function NextPoll(env: Environment, s: System, w: WorkerId, staleAfter: int): Step {
    var line := Line(env, s, w, staleAfter);
    FullPoll(env, s, w, staleAfter, if line == [] then None else Some(line[0]))
  }

  ghost predicate Collides(env: Environment, s: System, w: WorkerId, staleAfter: int) {
    RecoveryCollides(s.rows, s.now, staleAfter, LockedJobs(env, s, w))
  }

  lemma FullPollEnabledIff(env: Environment, s: System, w: WorkerId, staleAfter: int, picked: Option<Uuid>)
    ensures var recovered := Recovered(env, s, w, staleAfter);
            Enabled(env, s, FullPoll(env, s, w, staleAfter, picked))
            <==> PhaseOf(s, w).Idle? && UniqueWaiting(recovered)
                 && (picked.Some? ==> picked.value in s.rows && Claimable(recovered[picked.value], s.now))
  {
  }

  lemma RecoveredIsUniqueIff(env: Environment, s: System, w: WorkerId, staleAfter: int)
    requires UniqueWaiting(s.rows)
    ensures UniqueWaiting(Recovered(env, s, w, staleAfter)) <==> !Collides(env, s, w, staleAfter)
  {
    RecoveryCommitsIff(s.rows, s.now, staleAfter, LockedJobs(env, s, w));
  }

  /** A collision rolls back whatever the poll would claim. */
  lemma CollisionStopsPoll(env: Environment, s: System, w: WorkerId, staleAfter: int, picked: Option<Uuid>)
    requires UniqueWaiting(s.rows) && Collides(env, s, w, staleAfter)
    ensures !Enabled(env, s, FullPoll(env, s, w, staleAfter, picked))
  {
    FullPollEnabledIff(env, s, w, staleAfter, picked);
    RecoveredIsUniqueIff(env, s, w, staleAfter);
  }

  lemma LineIsEligible(env: Environment, s: System, w: WorkerId, staleAfter: int, id: Uuid)
    requires id in Line(env, s, w, staleAfter)
    ensures id in s.rows && Claimable(Recovered(env, s, w, staleAfter)[id], s.now)
  {
  }

  /** The next poll commits exactly when recovery collides nowhere. */
  lemma NextPollCommitsIff(env: Environment, s: System, w: WorkerId, staleAfter: int)
    requires UniqueWaiting(s.rows) && PhaseOf(s, w).Idle?
    ensures Enabled(env, s, NextPoll(env, s, w, staleAfter)) <==> !Collides(env, s, w, staleAfter)
  {
    var line := Line(env, s, w, staleAfter);
    FullPollEnabledIff(env, s, w, staleAfter, if line == [] then None else Some(line[0]));
    RecoveredIsUniqueIff(env, s, w, staleAfter);
    if line != [] {
      LineIsEligible(env, s, w, staleAfter, line[0]);
    }
  }

  lemma LineStartsWithLeast(env: Environment, s: System, w: WorkerId, staleAfter: int, id: Uuid)
    ensures var recovered := Recovered(env, s, w, staleAfter);
            NextPoll(env, s, w, staleAfter).picked == Some(id)
            <==> IsLeast(recovered, Eligible(recovered, s.now, {}), id)
  {
    var recovered := Recovered(env, s, w, staleAfter);
    var eligible := Eligible(recovered, s.now, {});
    if eligible != {} {
      SortedIdsUnfolds(recovered, eligible);
      if IsLeast(recovered, eligible, id) {
        LeastIsUnique(recovered, eligible, id);
      }
    }
  }

  /**
    An idle worker's next poll claims a job exactly when recovery collides nowhere in the table and
    the job is, after recovery, the least eligible one by priority, creation time and id.
  */
  lemma NextClaimIff(env: Environment, run: seq<System>, i: nat, id: Uuid, w: WorkerId, staleAfter: int)
    requires IsRun(env, run) && i < |run| && PhaseOf(run[i], w).Idle?
    ensures var poll := NextPoll(env, run[i], w, staleAfter);
            var recovered := Recovered(env, run[i], w, staleAfter);
            Enabled(env, run[i], poll) && poll.picked == Some(id)
            <==> !Collides(env, run[i], w, staleAfter) && IsLeast(recovered, Eligible(recovered, run[i].now, {}), id)
  {
    RunsKeepInv(env, run, i);
    NextPollCommitsIff(env, run[i], w, staleAfter);
    LineStartsWithLeast(env, run[i], w, staleAfter, id);
  }

  /**
    An idle worker's next poll ends the claim of a stale job exactly when no other session holds the
    job's lock and recovery collides nowhere in the table; until then that claim had not ended.
  */
  lemma StaleClaimEndsIff(env: Environment, run: seq<System>, i: nat, id: Uuid, w: WorkerId, staleAfter: int)
    requires IsRun(env, run) && i < |run| && id in run[i].rows && PhaseOf(run[i], w).Idle?
    requires Stale(run[i].rows[id], run[i].now, staleAfter)
    ensures var (s, poll) := (run[i], NextPoll(env, run[i], w, staleAfter));
            && id in s.latest && s.ended[s.latest[id]] == 0
            && (Enabled(env, s, poll) && Apply(env, s, poll).ended[s.latest[id]] == 1
                <==> Free(env, s.grants, JobGrant(id, w)) && !Collides(env, s, w, staleAfter))
  {
    RunsKeepInv(env, run, i);
    EndsStaleClaimIff(env, run[i], NextPoll(env, run[i], w, staleAfter), id);
    NextPollCommitsIff(env, run[i], w, staleAfter);
    assert id in LockedJobs(env, run[i], w) <==> !Free(env, run[i].grants, JobGrant(id, w));
  }

  lemma EndsStaleClaimIff(env: Environment, s: System, poll: Step, id: Uuid)
    requires ClaimsOk(s) && poll.Poll? && poll == FullPoll(env, s, poll.worker, poll.staleAfter, poll.picked)
    requires id in s.rows && Stale(s.rows[id], s.now, poll.staleAfter)
    ensures id in s.latest && s.ended[s.latest[id]] == 0
    ensures Enabled(env, s, poll) ==>
              (Apply(env, s, poll).ended[s.latest[id]] == 1 <==> id !in LockedJobs(env, s, poll.worker))
  {
    RecoveryEndsClaims(env, s, poll.worker, poll.staleAfter, poll.buried, poll.retried, id);
    if Enabled(env, s, poll) {
      PollEndsAsRecovery(env, s, poll);
    }
  }

  lemma PollEndsAsRecovery(env: Environment, s: System, poll: Step)
    requires poll.Poll? && Enabled(env, s, poll)
    ensures Apply(env, s, poll).ended == ApplyRecovery(s, poll.buried, poll.retried).ended
  {
  }

  // ----- polls one after the other -------------------------------------------------------------

  /** An idle worker holds no lock, so all idle workers see the same jobs locked. */
  lemma IdleSeeTheSame(env: Environment, s: System, v: WorkerId, w: WorkerId, id: Uuid)
    requires LocksOk(env, s.phases, s.grants) && PhaseOf(s, v).Idle? && PhaseOf(s, w).Idle?
    ensures Free(env, s.grants, JobGrant(id, v)) <==> Free(env, s.grants, JobGrant(id, w))
  {
    assert HeldBy(s.grants, v) == {} && HeldBy(s.grants, w) == {};
    NothingHeld(s.grants, v);
    NothingHeld(s.grants, w);
  }

  /** What a committed next poll leaves: the recovered table with its first job, if any, claimed. */
  lemma NextPollLeaves(env: Environment, s: System, w: WorkerId, staleAfter: int)
    requires Enabled(env, s, NextPoll(env, s, w, staleAfter))
    ensures var (t, line) := (Apply(env, s, NextPoll(env, s, w, staleAfter)), Line(env, s, w, staleAfter));
            var recovered := Recovered(env, s, w, staleAfter);
            && t.grants == s.grants && t.now == s.now
            && t.rows == (if line == [] then recovered
                          else recovered[line[0] := ClaimRow(recovered[line[0]], s.now, w)])
            && forall v | PhaseOf(t, v).Idle? :: PhaseOf(s, v).Idle?
  {
  }

  /** After a poll nothing is left to recover. */
  lemma NothingLeftStale(env: Environment, s: System, t: System, w: WorkerId, v: WorkerId, staleAfter: int,
                         first: Option<Uuid>)
    requires LocksOk(env, s.phases, s.grants) && PhaseOf(s, w).Idle? && PhaseOf(s, v).Idle? && 0 < staleAfter
    requires t.grants == s.grants && t.now == s.now && (first.Some? ==> first.value in s.rows)
    requires var recovered := Recovered(env, s, w, staleAfter);
             t.rows == if first.None? then recovered
                       else recovered[first.value := ClaimRow(recovered[first.value], s.now, w)]
    ensures StaleExhausted(t.rows, t.now, staleAfter, LockedJobs(env, t, v)) == {}
    ensures StaleRetryable(t.rows, t.now, staleAfter, LockedJobs(env, t, v)) == {}
  {
    forall id | id in t.rows && Stale(t.rows[id], t.now, staleAfter) ensures id in LockedJobs(env, t, v) {
      IdleSeeTheSame(env, s, v, w, id);
    }
  }

  lemma NothingToRecover(env: Environment, t: System, v: WorkerId, staleAfter: int)
    requires StaleExhausted(t.rows, t.now, staleAfter, LockedJobs(env, t, v)) == {}
    requires StaleRetryable(t.rows, t.now, staleAfter, LockedJobs(env, t, v)) == {}
    ensures Recovered(env, t, v, staleAfter) == t.rows && !Collides(env, t, v, staleAfter)
  {
    assert Recover(t.rows, {}, {}, t.now) == t.rows;
  }

  /** Claiming the first job in line leaves the others in line, in the same order. */
  lemma ClaimShortensLine(rows: Rows, now: Instant, w: WorkerId)
    requires Eligible(rows, now, {}) != {}
    ensures var line := SortedIds(rows, Eligible(rows, now, {}));
            var after := rows[line[0] := ClaimRow(rows[line[0]], now, w)];
            SortedIds(after, Eligible(after, now, {})) == line[1..]
  {
    var eligible := Eligible(rows, now, {});
    SortedIdsUnfolds(rows, eligible);
    var first := Least(rows, eligible);
    var after := rows[first := ClaimRow(rows[first], now, w)];
    assert Eligible(after, now, {}) == eligible - {first};
    OrderSurvivesUpdates(rows, after, eligible - {first});
  }

  function Rest(line: seq<Uuid>): seq<Uuid> {
    if line == [] then [] else line[1..]
  }

  /** A committed poll takes the first job from the line; then no idle worker's poll collides. */
  lemma LineAdvances(env: Environment, s: System, w: WorkerId, v: WorkerId, staleAfter: int)
    requires LocksOk(env, s.phases, s.grants) && 0 < staleAfter
    requires Enabled(env, s, NextPoll(env, s, w, staleAfter))
    requires PhaseOf(Apply(env, s, NextPoll(env, s, w, staleAfter)), v).Idle?
    ensures var t := Apply(env, s, NextPoll(env, s, w, staleAfter));
            Line(env, t, v, staleAfter) == Rest(Line(env, s, w, staleAfter)) && !Collides(env, t, v, staleAfter)
  {
    var t := Apply(env, s, NextPoll(env, s, w, staleAfter));
    var line := Line(env, s, w, staleAfter);
    var recovered := Recovered(env, s, w, staleAfter);
    assert line != [] ==> line[0] in line;
    NextPollLeaves(env, s, w, staleAfter);
    NothingLeftStale(env, s, t, w, v, staleAfter, if line == [] then None else Some(line[0]));
    NothingToRecover(env, t, v, staleAfter);
    if line != [] {
      ClaimShortensLine(recovered, s.now, w);
    }
  }

  ghost predicate PollAt(env: Environment, run: seq<System>, steps: seq<Step>, j: nat, staleAfter: int)
    requires j < |steps| < |run|
  {
    steps[j].Poll? && steps[j] == NextPoll(env, run[j], steps[j].worker, staleAfter)
  }

  /** Steps i, i + 1, ..., i + k - 1 are next polls of whichever workers. */
  ghost predicate PollsInARow(env: Environment, run: seq<System>, steps: seq<Step>, i: nat, k: nat, staleAfter: int)
    requires i + k <= |steps| < |run|
  {
    forall j | i <= j < i + k :: PollAt(env, run, steps, j, staleAfter)
  }

  lemma PollAdvances(env: Environment, run: seq<System>, steps: seq<Step>, i: nat, v: WorkerId, staleAfter: int)
    requires IsScript(env, run, steps) && i < |steps| && 0 < staleAfter && PollAt(env, run, steps, i, staleAfter)
    requires PhaseOf(run[i + 1], v).Idle?
    ensures Line(env, run[i + 1], v, staleAfter) == Rest(Line(env, run[i], steps[i].worker, staleAfter))
    ensures !Collides(env, run[i + 1], v, staleAfter)
  {
    ScriptIsRun(env, run, steps);
    RunsKeepInv(env, run, i);
    assert StepAt(env, run, steps, i);
    LineAdvances(env, run[i], steps[i].worker, v, staleAfter);
  }

  function Poller(step: Step): WorkerId {
    if step.Poll? then step.worker else ""
  }

  /** The line that the poll at step j finds. */
  function LineAt(env: Environment, run: seq<System>, steps: seq<Step>, j: nat, staleAfter: int): seq<Uuid>
    requires j < |steps| <= |run|
  {
    Line(env, run[j], Poller(steps[j]), staleAfter)
  }

  function Head(line: seq<Uuid>): Option<Uuid> {
    if line == [] then None else Some(line[0])
  }

  function Drop(line: seq<Uuid>, m: nat): seq<Uuid> {
    if m <= |line| then line[m..] else []
  }

  lemma DropOneMore(line: seq<Uuid>, m: nat)
    ensures Rest(Drop(line, m)) == Drop(line, m + 1)
    ensures Head(Drop(line, m)) == if m < |line| then Some(line[m]) else None
    ensures Drop(line, 0) == line
  {
  }

  lemma PollTakesHead(env: Environment, run: seq<System>, steps: seq<Step>, j: nat, staleAfter: int)
    requires j < |steps| < |run| && PollAt(env, run, steps, j, staleAfter)
    ensures Picked(steps[j]) == Head(LineAt(env, run, steps, j, staleAfter))
  {
  }

  lemma PollShortensLine(env: Environment, run: seq<System>, steps: seq<Step>, j: nat, staleAfter: int)
    requires IsScript(env, run, steps) && j + 1 < |steps| && 0 < staleAfter
    requires PollAt(env, run, steps, j, staleAfter) && PollAt(env, run, steps, j + 1, staleAfter)
    ensures LineAt(env, run, steps, j + 1, staleAfter) == Rest(LineAt(env, run, steps, j, staleAfter))
  {
    assert StepAt(env, run, steps, j + 1);
    PollAdvances(env, run, steps, j, steps[j + 1].worker, staleAfter);
  }

  ghost predicate Shrinks(lines: int -> seq<Uuid>, j: int) {
    lines(j + 1) == Rest(lines(j))
  }

  lemma {:induction false} LinesShrink(lines: int -> seq<Uuid>, i: int, m: nat)
    requires forall j | i <= j < i + m :: Shrinks(lines, j)
    ensures lines(i + m) == Drop(lines(i), m)
  {
    if 0 < m {
      LinesShrink(lines, i, m - 1);
      assert Shrinks(lines, i + m - 1);
      DropOneMore(lines(i), m - 1);
    }
  }

  function LinesOf(env: Environment, run: seq<System>, steps: seq<Step>, staleAfter: int): int -> seq<Uuid>
    requires |steps| <= |run|
  {
    (j: int) => if 0 <= j < |steps| then LineAt(env, run, steps, j, staleAfter) else []
  }

  lemma PollsShrinkLine(env: Environment, run: seq<System>, steps: seq<Step>, j: nat, staleAfter: int)
    requires IsScript(env, run, steps) && j + 1 < |steps| && 0 < staleAfter
    requires PollAt(env, run, steps, j, staleAfter) && PollAt(env, run, steps, j + 1, staleAfter)
    ensures Shrinks(LinesOf(env, run, steps, staleAfter), j)
  {
    PollShortensLine(env, run, steps, j, staleAfter);
  }

  lemma PollTakesItsPlace(env: Environment, run: seq<System>, steps: seq<Step>, i: nat, k: nat, staleAfter: int, m: nat)
    requires IsScript(env, run, steps) && i + k <= |steps| && m < k && 0 < staleAfter
    requires PollsInARow(env, run, steps, i, k, staleAfter)
    ensures var line := LinesOf(env, run, steps, staleAfter)(i);
            Picked(steps[i + m]) == if m < |line| then Some(line[m]) else None
  {
    var lines := LinesOf(env, run, steps, staleAfter);
    forall j | i <= j < i + m ensures Shrinks(lines, j) {
      assert PollAt(env, run, steps, j, staleAfter) && PollAt(env, run, steps, j + 1, staleAfter);
      PollsShrinkLine(env, run, steps, j, staleAfter);
    }
    LinesShrink(lines, i, m);
    assert PollAt(env, run, steps, i + m, staleAfter);
    PollTakesHead(env, run, steps, i + m, staleAfter);
    DropOneMore(lines(i), m);
  }

  /**
    Successive polls at one instant, by whichever workers, claim the eligible jobs in line, one each:
    together they claim what one claim of their number would take from the recovered table. So a due
    job waits only behind the jobs ordered before it.
  */
  lemma SuccessivePolls(env: Environment, run: seq<System>, steps: seq<Step>, i: nat, k: nat, staleAfter: int, m: nat)
    requires IsScript(env, run, steps) && i + k <= |steps| && m < k && 0 < staleAfter
    requires PollsInARow(env, run, steps, i, k, staleAfter)
    ensures var chosen := ChosenBy(Recovered(env, run[i], Poller(steps[i]), staleAfter), run[i].now, {}, k);
            Picked(steps[i + m]) == if m < |chosen| then Some(chosen[m]) else None
  {
    PollTakesItsPlace(env, run, steps, i, k, staleAfter, m);
  }
}
