/** The order in which eligible jobs are claimed: (priority, created_at, id), a strict total order. */
module ClaimOrder {
  import opened Prelude
  import opened Jobs

  predicate Before(rows: Rows, a: Uuid, b: Uuid)
    requires a in rows && b in rows
  {
    var x, y := rows[a], rows[b];
    x.priority < y.priority
    || (x.priority == y.priority && (x.createdAt < y.createdAt || (x.createdAt == y.createdAt && a < b)))
  }

  /** Rows the claim statement may take: claimable and not row-locked by another transaction. */
  function Eligible(rows: Rows, now: Instant, skipped: set<Uuid>): set<Uuid> {
    set id | id in rows && id !in skipped && Claimable(rows[id], now)
  }

  predicate IsLeast(rows: Rows, ids: set<Uuid>, id: Uuid)
    requires ids <= rows.Keys
  {
    id in ids && forall other | other in ids :: other == id || Before(rows, id, other)
  }

  lemma {:induction false} LeastExists(rows: Rows, ids: set<Uuid>)
    requires ids <= rows.Keys && ids != {}
    ensures exists least :: IsLeast(rows, ids, least)
    decreases ids
  {
    var id :| id in ids;
    if ids == {id} {
      assert IsLeast(rows, ids, id);
    } else {
      LeastExists(rows, ids - {id});
      var rest :| IsLeast(rows, ids - {id}, rest);
      var least := if Before(rows, id, rest) then id else rest;
      forall other | other in ids ensures other == least || Before(rows, least, other) {
        if other != id {
          assert other in ids - {id};
        }
      }
      assert IsLeast(rows, ids, least);
    }
  }

  function Least(rows: Rows, ids: set<Uuid>): (least: Uuid)
    requires ids <= rows.Keys && ids != {}
    ensures IsLeast(rows, ids, least)
  {
    LeastExists(rows, ids);
    var least :| IsLeast(rows, ids, least);
    least
  }

  /** ORDER BY priority, created_at, id. */
  function SortedIds(rows: Rows, ids: set<Uuid>): (sorted: seq<Uuid>)
    requires ids <= rows.Keys
    ensures |sorted| == |ids|
    ensures forall id :: id in sorted <==> id in ids
    decreases ids
  {
    if ids == {} then []
    else
      var first := Least(rows, ids);
      [first] + SortedIds(rows, ids - {first})
  }

  predicate StrictlySorted(rows: Rows, s: seq<Uuid>)
    requires forall id | id in s :: id in rows
  {
    forall i, j | 0 <= i < j < |s| :: Before(rows, s[i], s[j])
  }

  lemma {:induction false} SortedIdsIsSorted(rows: Rows, ids: set<Uuid>)
    requires ids <= rows.Keys
    ensures StrictlySorted(rows, SortedIds(rows, ids))
    decreases ids
  {
    if ids != {} {
      var first := Least(rows, ids);
      SortedIdsIsSorted(rows, ids - {first});
    }
  }

  function Members(s: seq<Uuid>): set<Uuid> {
    set id | id in s
  }

  lemma HeadAndTail(rows: Rows, s: seq<Uuid>)
    requires s != [] && Members(s) <= rows.Keys && StrictlySorted(rows, s)
    ensures IsLeast(rows, Members(s), s[0])
    ensures Members(s[1..]) == Members(s) - {s[0]}
    ensures StrictlySorted(rows, s[1..])
  {
    assert s == [s[0]] + s[1..];
    forall id | id in s[1..] ensures Before(rows, s[0], id) {
      var i :| 0 <= i < |s[1..]| && s[1..][i] == id;
      assert s[i + 1] == id;
    }
    forall i, j | 0 <= i < j < |s[1..]| ensures Before(rows, s[1..][i], s[1..][j]) {
      assert Before(rows, s[i + 1], s[j + 1]);
    }
  }

  lemma LeastIsUnique(rows: Rows, ids: set<Uuid>, id: Uuid)
    requires ids <= rows.Keys && IsLeast(rows, ids, id)
    ensures id == Least(rows, ids)
  {
  }

  lemma SortedIdsUnfolds(rows: Rows, ids: set<Uuid>)
    requires ids <= rows.Keys && ids != {}
    ensures SortedIds(rows, ids) == [Least(rows, ids)] + SortedIds(rows, ids - {Least(rows, ids)})
  {
  }

  /** Sorting has one answer: any strictly sorted listing of the same ids is SortedIds. */
  lemma {:induction false} SortedIdsIsUnique(rows: Rows, ids: set<Uuid>, s: seq<Uuid>)
    requires ids <= rows.Keys && Members(s) == ids && StrictlySorted(rows, s)
    ensures s == SortedIds(rows, ids)
    decreases |s|
  {
    if s == [] {
      assert ids == {};
    } else {
      HeadAndTail(rows, s);
      LeastIsUnique(rows, ids, s[0]);
      SortedIdsIsUnique(rows, ids - {s[0]}, s[1..]);
      SortedIdsUnfolds(rows, ids);
      assert s == [s[0]] + s[1..];
    }
  }

  /** Re-sorting the first k ids of a sorted listing gives back that prefix. */
  lemma PrefixIsSorted(rows: Rows, ids: set<Uuid>, k: nat)
    requires ids <= rows.Keys && k <= |ids|
    ensures SortedIds(rows, Members(SortedIds(rows, ids)[..k])) == SortedIds(rows, ids)[..k]
    ensures |Members(SortedIds(rows, ids)[..k])| == k
  {
    var s := SortedIds(rows, ids)[..k];
    SortedIdsIsSorted(rows, ids);
    assert forall id :: id in s ==> id in SortedIds(rows, ids);
    SortedIdsIsUnique(rows, Members(s), s);
  }

  /** Sorting looks only at priority and creation time, which no transition changes. */
  lemma {:induction false} OrderSurvivesUpdates(rows: Rows, later: Rows, ids: set<Uuid>)
    requires ids <= rows.Keys && ids <= later.Keys
    requires forall id | id in ids ::
               rows[id].priority == later[id].priority && rows[id].createdAt == later[id].createdAt
    ensures SortedIds(rows, ids) == SortedIds(later, ids)
  {
    SortedIdsIsSorted(rows, ids);
    SortedIdsIsUnique(later, ids, SortedIds(rows, ids));
  }

  /** One statement with LIMIT k: mark the first k eligible rows, all at the same instant. */
  function ChosenBy(rows: Rows, now: Instant, skipped: set<Uuid>, limit: nat): (chosen: seq<Uuid>)
    ensures |chosen| == Min(limit, |Eligible(rows, now, skipped)|)
    ensures forall id | id in chosen :: id in Eligible(rows, now, skipped)
  {
    var sorted := SortedIds(rows, Eligible(rows, now, skipped));
    sorted[..Min(limit, |sorted|)]
  }

  function MarkClaimed(rows: Rows, ids: set<Uuid>, now: Instant, worker: WorkerId): Rows {
    map id | id in rows :: if id in ids then ClaimRow(rows[id], now, worker) else rows[id]
  }

  /** `limit` claims of size one, one after the other. */
  function ClaimOneByOne(rows: Rows, now: Instant, skipped: set<Uuid>, worker: WorkerId, limit: nat)
    : (result: (seq<Uuid>, Rows))
  {
    if limit == 0 || Eligible(rows, now, skipped) == {} then ([], rows)
    else
      var id := Least(rows, Eligible(rows, now, skipped));
      var (rest, final) := ClaimOneByOne(
        rows[id := ClaimRow(rows[id], now, worker)], now, skipped, worker, limit - 1);
      ([id] + rest, final)
  }

  /** A row the claim statement may take, and one that it takes before another. */
  predicate MayBeClaimed(rows: Rows, now: Instant, skipped: set<Uuid>, id: Uuid) {
    && id in rows && id !in skipped && (rows[id].status == Pending || rows[id].status == Failed)
    && rows[id].availableAt <= now && rows[id].attempts < rows[id].maxAttempts
  }

  predicate GoesFirst(x: Row, a: Uuid, y: Row, b: Uuid) {
    if x.priority != y.priority then x.priority < y.priority
    else if x.createdAt != y.createdAt then x.createdAt < y.createdAt
    else a < b
  }

  lemma ChosenMayBeClaimed(rows: Rows, now: Instant, skipped: set<Uuid>, id: Uuid)
    ensures id in Eligible(rows, now, skipped) <==> MayBeClaimed(rows, now, skipped, id)
  {
  }

  lemma ChosenPrecede(rows: Rows, ids: set<Uuid>, k: nat, c: Uuid, e: Uuid)
    requires ids <= rows.Keys && k <= |ids| && c in SortedIds(rows, ids)[..k] && e in ids
    requires e !in SortedIds(rows, ids)[..k]
    ensures k < |ids| && Before(rows, c, e)
  {
    var sorted := SortedIds(rows, ids);
    SortedIdsIsSorted(rows, ids);
    assert e in sorted && forall x | 0 <= x < k :: sorted[x] in sorted[..k];
    var i :| 0 <= i < k && sorted[..k][i] == c;
    var j :| 0 <= j < |sorted| && sorted[j] == e;
    assert Before(rows, sorted[i], sorted[j]);
  }

  lemma ChosenAreSorted(rows: Rows, now: Instant, skipped: set<Uuid>, limit: nat)
    ensures StrictlySorted(rows, ChosenBy(rows, now, skipped, limit))
  {
    SortedIdsIsSorted(rows, Eligible(rows, now, skipped));
  }

  /**
    The claimed jobs are the k least claimable ones by priority, creation time and id, in that order;
    fewer only if there are no more; nothing left behind precedes them.
  */
  lemma ChosenAreLeast(rows: Rows, now: Instant, skipped: set<Uuid>, limit: nat)
    ensures var chosen := ChosenBy(rows, now, skipped, limit);
            && (forall c | c in chosen :: MayBeClaimed(rows, now, skipped, c))
            && (forall i, j | 0 <= i < j < |chosen| ::
                  && chosen[i] in rows && chosen[j] in rows
                  && GoesFirst(rows[chosen[i]], chosen[i], rows[chosen[j]], chosen[j]))
            && (forall c, e | c in chosen && MayBeClaimed(rows, now, skipped, e) && e !in chosen ::
                  |chosen| == limit && c in rows && GoesFirst(rows[c], c, rows[e], e))
  {
    var eligible := Eligible(rows, now, skipped);
    var chosen := ChosenBy(rows, now, skipped, limit);
    ChosenAreSorted(rows, now, skipped, limit);
    forall c | c in chosen ensures MayBeClaimed(rows, now, skipped, c) {
      ChosenMayBeClaimed(rows, now, skipped, c);
    }
    forall c, e | c in chosen && MayBeClaimed(rows, now, skipped, e) && e !in chosen
      ensures |chosen| == limit && GoesFirst(rows[c], c, rows[e], e)
    {
      ChosenMayBeClaimed(rows, now, skipped, e);
      ChosenPrecede(rows, eligible, Min(limit, |eligible|), c, e);
    }
  }

  /** Taking the least eligible row first leaves the rest of the choice unchanged. */
  lemma ChoosingOneFirst(rows: Rows, now: Instant, skipped: set<Uuid>, worker: WorkerId, limit: nat)
    requires 0 < limit && Eligible(rows, now, skipped) != {}
    ensures var id := Least(rows, Eligible(rows, now, skipped));
            && ChosenBy(rows, now, skipped, limit)
               == [id] + ChosenBy(rows[id := ClaimRow(rows[id], now, worker)], now, skipped, limit - 1)
            && id !in ChosenBy(rows[id := ClaimRow(rows[id], now, worker)], now, skipped, limit - 1)
  {
    var eligible := Eligible(rows, now, skipped);
    var id := Least(rows, eligible);
    var next := rows[id := ClaimRow(rows[id], now, worker)];
    assert Eligible(next, now, skipped) == eligible - {id};
    OrderSurvivesUpdates(rows, next, eligible - {id});
    assert SortedIds(rows, eligible) == [id] + SortedIds(next, eligible - {id});
  }

  lemma ClaimNothing(rows: Rows, now: Instant, skipped: set<Uuid>, worker: WorkerId, limit: nat)
    requires limit == 0 || Eligible(rows, now, skipped) == {}
    ensures ChosenBy(rows, now, skipped, limit) == []
    ensures MarkClaimed(rows, Members([]), now, worker) == rows
    ensures ClaimOneByOne(rows, now, skipped, worker, limit) == ([], rows)
  {
    assert |Eligible(rows, now, skipped)| == 0 || limit == 0;
    assert forall id | id in rows :: id !in Members([]);
  }

  lemma OneByOneUnfolds(rows: Rows, now: Instant, skipped: set<Uuid>, worker: WorkerId, limit: nat)
    requires 0 < limit && Eligible(rows, now, skipped) != {}
    ensures var id := Least(rows, Eligible(rows, now, skipped));
            var singles := ClaimOneByOne(rows[id := ClaimRow(rows[id], now, worker)], now, skipped, worker, limit - 1);
            ClaimOneByOne(rows, now, skipped, worker, limit) == ([id] + singles.0, singles.1)
  {
  }

  /** A claim of size k does exactly what k successive claims of size one at the same instant do. */
  lemma {:induction false} BatchEqualsSingles(
    rows: Rows, now: Instant, skipped: set<Uuid>, worker: WorkerId, limit: nat)
    ensures var chosen := ChosenBy(rows, now, skipped, limit);
            ClaimOneByOne(rows, now, skipped, worker, limit)
              == (chosen, MarkClaimed(rows, Members(chosen), now, worker))
    decreases limit
  {
    var chosen := ChosenBy(rows, now, skipped, limit);
    if limit == 0 || Eligible(rows, now, skipped) == {} {
      ClaimNothing(rows, now, skipped, worker, limit);
    } else {
      var id := Least(rows, Eligible(rows, now, skipped));
      var next := rows[id := ClaimRow(rows[id], now, worker)];
      OneByOneUnfolds(rows, now, skipped, worker, limit);
      ChoosingOneFirst(rows, now, skipped, worker, limit);
      BatchEqualsSingles(next, now, skipped, worker, limit - 1);
      MarkOneThenRest(rows, id, ChosenBy(next, now, skipped, limit - 1), now, worker);
    }
  }

  lemma MarkOneThenRest(rows: Rows, id: Uuid, rest: seq<Uuid>, now: Instant, worker: WorkerId)
    requires id in rows && id !in rest
    ensures MarkClaimed(rows[id := ClaimRow(rows[id], now, worker)], Members(rest), now, worker)
         == MarkClaimed(rows, Members([id] + rest), now, worker)
  {
    var next := rows[id := ClaimRow(rows[id], now, worker)];
    assert next.Keys == rows.Keys;
    forall other | other in rows
      ensures MarkClaimed(next, Members(rest), now, worker)[other]
           == MarkClaimed(rows, Members([id] + rest), now, worker)[other]
    {
      assert other in [id] + rest <==> other == id || other in rest;
    }
  }
}
