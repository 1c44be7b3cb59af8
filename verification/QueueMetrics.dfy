/** The queue snapshot that operators see, and what it says about the next claim. */
module QueueMetrics {
  import opened Prelude
  import opened Jobs
  import opened ClaimOrder

  /** Waits in the units of instants. */
  datatype QueueSnapshot = QueueSnapshot(ready: nat, oldestReadyWait: int, running: nat, deadLetter: nat)

  /** The longest wait of some rows, 0 for none. */
  function LongestWait(rows: Rows, now: Instant, ids: seq<Uuid>): (wait: int)
    requires forall id | id in ids :: id in rows && rows[id].availableAt <= now
    ensures forall id | id in ids :: now - rows[id].availableAt <= wait
    ensures if ids == [] then wait == 0 else exists id | id in ids :: wait == now - rows[id].availableAt
  {
    if ids == [] then 0
    else Max(now - rows[ids[0]].availableAt, LongestWait(rows, now, ids[1..]))
  }

  function WithStatus(rows: Rows, status: Status): set<Uuid> {
    set id | id in rows && rows[id].status == status
  }

  function Snapshot(rows: Rows, now: Instant): QueueSnapshot {
    var ready := Eligible(rows, now, {});
    QueueSnapshot(|ready|, LongestWait(rows, now, SortedIds(rows, ready)),
                  |WithStatus(rows, Running)|, |WithStatus(rows, Dead)|)
  }

  lemma MarkMovesIds(rows: Rows, chosen: set<Uuid>, now: Instant, worker: WorkerId)
    requires chosen <= Eligible(rows, now, {})
    ensures var after := MarkClaimed(rows, chosen, now, worker);
            && Eligible(after, now, {}) == Eligible(rows, now, {}) - chosen
            && WithStatus(after, Running) == WithStatus(rows, Running) + chosen
            && WithStatus(rows, Running) * chosen == {}
            && WithStatus(after, Dead) == WithStatus(rows, Dead)
  {
  }

  lemma {:induction false} DistinctMembers(s: seq<Uuid>)
    requires forall i, j | 0 <= i < j < |s| :: s[i] != s[j]
    ensures |Members(s)| == |s|
  {
    if s != [] {
      var rest := s[..|s| - 1];
      DistinctMembers(rest);
      assert s == rest + [s[|s| - 1]];
      assert Members(s) == Members(rest) + {s[|s| - 1]};
    }
  }

  /**
    With no stale rows and no row locks held elsewhere, a claim takes as many jobs as its limit and
    the snapshot's ready count allow, and moves exactly that many from ready to running.
  */
  lemma ClaimMovesReadyJobs(rows: Rows, now: Instant, worker: WorkerId, limit: nat)
    ensures var chosen := ChosenBy(rows, now, {}, limit);
            var before := Snapshot(rows, now);
            var after := Snapshot(MarkClaimed(rows, Members(chosen), now, worker), now);
            && |chosen| == Min(limit, before.ready)
            && after.ready == before.ready - |chosen|
            && after.running == before.running + |chosen|
            && after.deadLetter == before.deadLetter
  {
    var chosen := ChosenBy(rows, now, {}, limit);
    ChosenAreSorted(rows, now, {}, limit);
    DistinctMembers(chosen);
    MarkMovesIds(rows, Members(chosen), now, worker);
  }

  /** The reported wait is that of the ready job waiting longest, and is 0 exactly when none has waited. */
  lemma OldestWaitIsReal(rows: Rows, now: Instant)
    ensures var snapshot := Snapshot(rows, now);
            && 0 <= snapshot.oldestReadyWait
            && (forall id | id in Eligible(rows, now, {}) :: rows[id].availableAt >= now - snapshot.oldestReadyWait)
            && (0 < snapshot.oldestReadyWait ==>
                  exists id | id in Eligible(rows, now, {}) :: rows[id].availableAt == now - snapshot.oldestReadyWait)
  {
    var sorted := SortedIds(rows, Eligible(rows, now, {}));
    assert forall id | id in Eligible(rows, now, {}) :: id in sorted;
  }
}
