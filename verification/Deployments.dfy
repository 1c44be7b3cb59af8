/** The deployments table and its guarded upsert. */
module Deployments {
  import opened Prelude
  import opened Jobs
  import opened Upserts

  /** The unique constraint of the table. */
  datatype Key = Key(repository: Uuid, source: string, externalId: string)

  datatype Conclusion = Success | Failed | OtherConclusion(name: string)

  /** The event as stored, reduced to the branch names that link rebuilding reads from it. */
  datatype RawEvent = RawEvent(headBranch: Option<string>, deploymentRef: Option<string>, rest: string)

  /** The columns that every accepted delivery overwrites; `finished_at` is the reading's time. */
  datatype Signal = Signal(
    environment: string, isProduction: bool, status: Conclusion, commitSha: Option<string>, raw: RawEvent)

  datatype Delivery = Delivery(key: Key, reading: Reading<Signal>, startedAt: Option<Instant>)

  datatype Deployment = Deployment(key: Key, reading: Reading<Signal>, startedAt: Option<Instant>, version: nat)

  type Deployments = map<Uuid, Deployment>

  ghost predicate UniqueKeys(rows: Deployments) {
    forall a, b | a in rows && b in rows && rows[a].key == rows[b].key :: a == b
  }

  /** The row that an insert of this key would conflict with. */
  function RowFor(rows: Deployments, key: Key): (found: Option<Uuid>)
    requires UniqueKeys(rows)
    ensures found.Some? ==> found.value in rows && rows[found.value].key == key
    ensures found.None? ==> forall id | id in rows :: rows[id].key != key
  {
    var matching := set id | id in rows && rows[id].key == key;
    assert forall id | id in rows :: rows[id].key == key ==> id in matching;
    if matching == {} then None
    else
      var id :| id in matching;
      Some(id)
  }

  /** DO UPDATE ... WHERE: the canonical row's id, whether or not the delivery passed the guard. */
  function UpsertTx(rows: Deployments, newId: Uuid, d: Delivery): (result: (Uuid, Deployments))
    requires UniqueKeys(rows)
  {
    var found := RowFor(rows, d.key);
    if found.None? then (newId, rows[newId := Deployment(d.key, d.reading, d.startedAt, 0)])
    else
      var (id, row) := (found.value, rows[found.value]);
      if Passes(row.reading.at, d.reading.at)
      then (id, rows[id := Deployment(d.key, d.reading, OrElse(row.startedAt, d.startedAt), row.version + 1)])
      else (id, rows)
  }

  /** A finished production deployment of the repository with this conclusion. */
  predicate Production(d: Deployment, repository: Uuid, status: Conclusion) {
    d.key.repository == repository && d.reading.data.isProduction && d.reading.data.status == status
    && d.reading.at.Some?
  }

  /** Some production deployment of the repository succeeded at this instant. */
  ghost predicate SucceededAt(deployments: Deployments, repository: Uuid, at: Instant) {
    exists id | id in deployments ::
      Production(deployments[id], repository, Success) && deployments[id].reading.at == Some(at)
  }

  ghost predicate Finished(deployments: Deployments, ids: set<Uuid>) {
    forall id | id in ids :: id in deployments && deployments[id].reading.at.Some?
  }

  /** ORDER BY finished_at ASC, id ASC; its reverse is the order by both DESC. */
  predicate Earlier(deployments: Deployments, a: Uuid, b: Uuid)
    requires Finished(deployments, {a, b})
  {
    var (x, y) := (deployments[a].reading.at.value, deployments[b].reading.at.value);
    x < y || (x == y && a <= b)
  }

  /** The first of some finished deployments in that order or, if `last`, in the reverse order. */
  predicate IsEnd(deployments: Deployments, ids: set<Uuid>, end: Uuid, last: bool)
    requires Finished(deployments, ids)
  {
    end in ids && forall id | id in ids :: if last then Earlier(deployments, id, end) else Earlier(deployments, end, id)
  }

  lemma {:induction false} EndExists(deployments: Deployments, ids: set<Uuid>, last: bool)
    requires Finished(deployments, ids) && ids != {}
    ensures exists end :: IsEnd(deployments, ids, end, last)
    decreases ids
  {
    var id :| id in ids;
    if ids == {id} {
      assert IsEnd(deployments, ids, id, last);
    } else {
      EndExists(deployments, ids - {id}, last);
      var rest :| IsEnd(deployments, ids - {id}, rest, last);
      var end := if Earlier(deployments, id, rest) != last then id else rest;
      forall other | other in ids
        ensures if last then Earlier(deployments, other, end) else Earlier(deployments, end, other)
      {
        assert other == id || other in ids - {id};
      }
      assert IsEnd(deployments, ids, end, last);
    }
  }

  /** ORDER BY ... LIMIT 1. */
  function EndOf(deployments: Deployments, ids: set<Uuid>, last: bool): (end: Option<Uuid>)
    requires Finished(deployments, ids)
    ensures if ids == {} then end == None else end.Some? && IsEnd(deployments, ids, end.value, last)
  {
    if ids == {} then None
    else
      EndExists(deployments, ids, last);
      var end :| IsEnd(deployments, ids, end, last);
      Some(end)
  }

  class DeploymentTable {
    var rows: Deployments

    ghost predicate Valid()
      reads this
    {
      UniqueKeys(rows)
    }

    constructor ()
      ensures Valid() && rows == map[]
    {
      rows := map[];
    }

    method RunUpsert(newId: Uuid, d: Delivery) returns (id: Uuid)
      requires Valid() && newId !in rows
      modifies this
      ensures Valid()
      ensures (id, rows) == UpsertTx(old(rows), newId, d)
      ensures id in rows && rows[id].key == d.key
    {
      var found := RowFor(rows, d.key);
      if found.None? {
        id := newId;
        rows := rows[newId := Deployment(d.key, d.reading, d.startedAt, 0)];
      } else {
        id := found.value;
        var row := rows[id];
        if row.reading.at.None? || (d.reading.at.Some? && d.reading.at.value >= row.reading.at.value) {
          rows := rows[id := row.(reading := d.reading,
                                  startedAt := if row.startedAt.Some? then row.startedAt else d.startedAt,
                                  version := row.version + 1)];
        }
      }
    }
  }

  // ----- histories -----------------------------------------------------------------------------

  /** Deliveries in order of arrival, each with the id that an insert would be given. */
  type History = seq<(Uuid, Delivery)>

  ghost predicate FreshIds(history: History) {
    forall i, j | 0 <= i < j < |history| :: history[i].0 != history[j].0
  }

  /** The table after a history; every row's id is one of those the history offered. */
  function Applied(history: History): (rows: Deployments)
    requires FreshIds(history)
    ensures UniqueKeys(rows)
    ensures forall id | id in rows :: exists i | 0 <= i < |history| :: history[i].0 == id
  {
    if history == [] then map[]
    else
      var (newId, d) := history[|history| - 1];
      var rows := Applied(history[..|history| - 1]);
      assert newId !in rows;
      UpsertTx(rows, newId, d).1
  }

  /** What a history says about the guarded columns. */
  function Feed(history: History): seq<Keyed<Key, Signal>> {
    if history == [] then []
    else
      var d := history[|history| - 1].1;
      Feed(history[..|history| - 1]) + [Keyed(d.key, d.reading)]
  }

  function ReadingOf(rows: Deployments, key: Key): Option<Reading<Signal>>
    requires UniqueKeys(rows)
  {
    var found := RowFor(rows, key);
    if found.None? then None else Some(rows[found.value].reading)
  }

  lemma RowForIs(rows: Deployments, id: Uuid)
    requires UniqueKeys(rows) && id in rows
    ensures RowFor(rows, rows[id].key) == Some(id)
  {
  }

  lemma UpsertReads(rows: Deployments, newId: Uuid, d: Delivery, key: Key)
    requires UniqueKeys(rows) && newId !in rows
    ensures var after := UpsertTx(rows, newId, d).1;
            && UniqueKeys(after)
            && ReadingOf(after, key) == if d.key == key then Upsert(ReadingOf(rows, key), d.reading)
                                        else ReadingOf(rows, key)
  {
    var (id, after) := UpsertTx(rows, newId, d);
    RowForIs(after, id);
    var found := RowFor(rows, key);
    if d.key != key && found.Some? {
      RowForIs(after, found.value);
    }
  }

  /** A row holds what its own key's deliveries leave, whatever came for other keys in between. */
  lemma {:induction false} RowIsFinal(history: History, key: Key)
    requires FreshIds(history)
    ensures ReadingOf(Applied(history), key) == Final(ForKey(Feed(history), key))
  {
    if history != [] {
      var (before, last) := (history[..|history| - 1], history[|history| - 1]);
      RowIsFinal(before, key);
      UpsertReads(Applied(before), last.0, last.1, key);
      FinalAppend(Feed(before), Keyed(last.1.key, last.1.reading), key);
    }
  }

  /** The same rows, up to their ids, `started_at` and bookkeeping. */
  ghost predicate SameReadings(rows: Deployments, other: Deployments)
    requires UniqueKeys(rows) && UniqueKeys(other)
  {
    forall key :: ReadingOf(rows, key) == ReadingOf(other, key)
  }

  /**
    Deployment history forgets the order and the repetitions of its deliveries, provided that each
    deployment's newest deliveries agree.
  */
  lemma HistoryForgetsOrder(s: History, t: History)
    requires FreshIds(s) && FreshIds(t) && SameFeed(Feed(s), Feed(t))
    requires forall key :: Settled(ForKey(Feed(s), key))
    ensures SameReadings(Applied(s), Applied(t))
  {
    forall key ensures ReadingOf(Applied(s), key) == ReadingOf(Applied(t), key) {
      RowIsFinal(s, key);
      RowIsFinal(t, key);
      FeedForgetsOrder(Feed(s), Feed(t), key);
    }
  }

  // ----- bookkeeping ---------------------------------------------------------------------------

  /** What the history's deliveries of one deployment say of its finish and its start. */
  function SentFor(history: History, key: Key): seq<Sent> {
    if history == [] then []
    else
      var d := history[|history| - 1].1;
      SentFor(history[..|history| - 1], key) + (if d.key == key then [Sent(d.reading.at, d.startedAt)] else [])
  }

  /** The id that the history offered with the first delivery of a deployment. */
  ghost predicate FirstOffer(history: History, key: Key, id: Uuid) {
    exists i | 0 <= i < |history| ::
      history[i].0 == id && history[i].1.key == key && forall j | 0 <= j < i :: history[j].1.key != key
  }

  /** A row's bookkeeping: version 0 for the first delivery, one more for each accepted one since. */
  ghost predicate Books(sent: seq<Sent>, row: Deployment) {
    Carries(sent, row.reading.at) && row.version + 1 == |Accepted(sent)| && FirstKnown(sent, row.startedAt)
  }

  /** What a delivery does to the row of any deployment. */
  lemma RowAfter(rows: Deployments, newId: Uuid, d: Delivery, key: Key)
    requires UniqueKeys(rows) && newId !in rows
    ensures var after := UpsertTx(rows, newId, d).1;
            var (was, found) := (RowFor(rows, key), RowFor(after, key));
            && (d.key != key ==> found == was && (was.Some? ==> after[was.value] == rows[was.value]))
            && (d.key == key && was.None? ==>
                  found == Some(newId) && after[newId] == Deployment(key, d.reading, d.startedAt, 0))
            && (d.key == key && was.Some? ==>
                  found == was
                  && var row := rows[was.value];
                     after[was.value] == if Passes(row.reading.at, d.reading.at)
                                         then Deployment(key, d.reading, OrElse(row.startedAt, d.startedAt),
                                                         row.version + 1)
                                         else row)
  {
    var (id, after) := UpsertTx(rows, newId, d);
    var was := RowFor(rows, key);
    UpsertReads(rows, newId, d, key);
    RowForIs(after, id);
    if was.Some? {
      RowForIs(after, was.value);
    }
  }

  lemma {:induction false} NoOffer(history: History, key: Key)
    requires SentFor(history, key) == []
    ensures forall i | 0 <= i < |history| :: history[i].1.key != key
  {
    if history != [] {
      NoOffer(history[..|history| - 1], key);
      assert history == history[..|history| - 1] + [history[|history| - 1]];
    }
  }

  lemma BooksNext(sent: seq<Sent>, row: Deployment, d: Delivery, after: Deployment)
    requires Books(sent, row)
    requires after == if Passes(row.reading.at, d.reading.at)
                      then Deployment(d.key, d.reading, OrElse(row.startedAt, d.startedAt), row.version + 1) else row
    ensures Books(sent + [Sent(d.reading.at, d.startedAt)], after)
  {
    var next := Sent(d.reading.at, d.startedAt);
    CarriesNext(sent, row.reading.at, next);
    KnownNext(sent, row.reading.at, row.startedAt, next);
  }

  lemma OfferStays(history: History, key: Key, id: Uuid)
    requires history != [] && FirstOffer(history[..|history| - 1], key, id)
    ensures FirstOffer(history, key, id)
  {
    var before := history[..|history| - 1];
    var i :| 0 <= i < |before| && before[i].0 == id && before[i].1.key == key
             && forall j | 0 <= j < i :: before[j].1.key != key;
    assert history[i] == before[i];
  }

  lemma OfferTaken(history: History, key: Key)
    requires history != [] && SentFor(history[..|history| - 1], key) == [] && history[|history| - 1].1.key == key
    ensures FirstOffer(history, key, history[|history| - 1].0)
  {
    NoOffer(history[..|history| - 1], key);
  }

  /** What the rows say of a deployment after a history. */
  ghost predicate KeepsBooks(history: History, key: Key, sent: seq<Sent>, rows: Deployments)
    requires UniqueKeys(rows)
  {
    var found := RowFor(rows, key);
    && (found.Some? <==> sent != [])
    && (found.Some? ==> FirstOffer(history, key, found.value) && Books(sent, rows[found.value]))
  }

  lemma DeliveryKeepsBooks(history: History, key: Key, sent: seq<Sent>, rows: Deployments)
    requires history != [] && UniqueKeys(rows) && history[|history| - 1].0 !in rows
    requires sent == SentFor(history[..|history| - 1], key)
    requires KeepsBooks(history[..|history| - 1], key, sent, rows)
    ensures var (newId, d) := history[|history| - 1];
            UniqueKeys(UpsertTx(rows, newId, d).1)
            && KeepsBooks(history, key, SentFor(history, key), UpsertTx(rows, newId, d).1)
  {
    var (newId, d) := history[|history| - 1];
    var (after, was) := (UpsertTx(rows, newId, d).1, RowFor(rows, key));
    var next := Sent(d.reading.at, d.startedAt);
    UpsertReads(rows, newId, d, key);
    RowAfter(rows, newId, d, key);
    if was.Some? {
      OfferStays(history, key, was.value);
      if d.key == key {
        BooksNext(sent, rows[was.value], d, after[was.value]);
      } else {
        assert sent + [] == sent;
      }
    } else if d.key == key {
      OfferTaken(history, key);
      FirstSent(next);
      assert sent + [next] == [next];
    }
  }

  /**
    A deployment's row exists once something was delivered for it, keeps the id it was first given,
    counts the accepted deliveries, and holds the first start among them.
  */
  lemma {:induction false} RowKeepsBooks(history: History, key: Key)
    requires FreshIds(history)
    ensures KeepsBooks(history, key, SentFor(history, key), Applied(history))
  {
    if history != [] {
      var before := history[..|history| - 1];
      RowKeepsBooks(before, key);
      NotOfferedYet(history);
      DeliveryKeepsBooks(history, key, SentFor(before, key), Applied(before));
    }
  }

  lemma NotOfferedYet(history: History)
    requires FreshIds(history) && history != []
    ensures history[|history| - 1].0 !in Applied(history[..|history| - 1])
  {
  }
}
