/** The guard shared by the deployment and issue upserts: last writer wins, by the provider's time. */
module Upserts {
  import opened Prelude
  import opened Jobs

  /** The guarded columns of one delivery, with the provider's time if it sent one. */
  datatype Reading<D> = Reading(at: Option<Instant>, data: D)

  /** WHERE stored IS NULL OR (incoming IS NOT NULL AND incoming >= stored). */
  predicate Passes(stored: Option<Instant>, incoming: Option<Instant>) {
    stored.None? || (incoming.Some? && stored.value <= incoming.value)
  }

  function Upsert<D>(stored: Option<Reading<D>>, incoming: Reading<D>): Option<Reading<D>> {
    if stored.None? || Passes(stored.value.at, incoming.at) then Some(incoming) else stored
  }

  /** The guarded columns of one key after its deliveries, in order of arrival. */
  function Final<D>(deliveries: seq<Reading<D>>): Option<Reading<D>> {
    if deliveries == [] then None
    else Upsert(Final(deliveries[..|deliveries| - 1]), deliveries[|deliveries| - 1])
  }

  /** A delivery as new as any other; one without a time is the oldest. */
  ghost predicate Newest<D>(deliveries: seq<Reading<D>>, r: Reading<D>) {
    r in deliveries && forall d | d in deliveries :: Passes(d.at, r.at)
  }

  /** The newest deliveries agree. A caller can see this from the deliveries alone. */
  ghost predicate Settled<D>(deliveries: seq<Reading<D>>) {
    forall a, b | a in deliveries && b in deliveries && Newest(deliveries, a) && Newest(deliveries, b) :: a == b
  }

  /** Any reordering, any repetition. */
  ghost predicate SameDeliveries<D>(s: seq<Reading<D>>, t: seq<Reading<D>>) {
    (forall d | d in s :: d in t) && (forall d | d in t :: d in s)
  }

  ghost predicate OrderIndependent<D(!new)>(s: seq<Reading<D>>) {
    forall t: seq<Reading<D>> | SameDeliveries(s, t) :: Final(t) == Final(s)
  }

  lemma {:induction false} FinalIsNewest<D>(s: seq<Reading<D>>)
    requires s != []
    ensures Final(s).Some? && Newest(s, Final(s).value)
  {
    var (rest, last) := (s[..|s| - 1], s[|s| - 1]);
    assert s == rest + [last];
    if rest != [] {
      FinalIsNewest(rest);
    }
  }

  /** A delivery as new as all before it decides the row. */
  lemma NewestLastWins<D>(s: seq<Reading<D>>, r: Reading<D>)
    requires s != [] && Newest(s, r)
    ensures Final(s + [r]) == Some(r) && SameDeliveries(s, s + [r])
  {
    FinalIsNewest(s);
    assert (s + [r])[..|s + [r]| - 1] == s;
  }

  lemma SettledAgree<D>(s: seq<Reading<D>>, t: seq<Reading<D>>)
    requires Settled(s) && SameDeliveries(s, t)
    ensures Final(t) == Final(s)
  {
    assert s != [] ==> s[0] in t;
    assert t != [] ==> t[0] in s;
    if s != [] {
      FinalIsNewest(s);
      FinalIsNewest(t);
      assert Newest(s, Final(t).value);
    }
  }

  /**
    The row forgets the order and the repetitions of its deliveries if and only if the newest of
    them agree on the guarded columns.
  */
  lemma ConvergesIff<D(!new)>(s: seq<Reading<D>>)
    requires s != []
    ensures OrderIndependent(s) <==> Settled(s)
  {
    if Settled(s) {
      forall t: seq<Reading<D>> | SameDeliveries(s, t) ensures Final(t) == Final(s) {
        SettledAgree(s, t);
      }
    }
    if OrderIndependent(s) {
      forall a, b | a in s && b in s && Newest(s, a) && Newest(s, b) ensures a == b {
        NewestLastWins(s, a);
        NewestLastWins(s, b);
      }
    }
  }

  /** Deliveries with distinct times, each possibly repeated, are settled. */
  lemma DistinctTimesSettle<D>(s: seq<Reading<D>>)
    requires forall a, b | a in s && b in s && a.at == b.at :: a == b
    ensures Settled(s)
  {
    forall a, b | a in s && b in s && Newest(s, a) && Newest(s, b) ensures a == b {
      assert Passes(a.at, b.at) && Passes(b.at, a.at);
      assert a.at == b.at;
    }
  }

  // ----- many keys -----------------------------------------------------------------------------

  datatype Keyed<K, D> = Keyed(key: K, reading: Reading<D>)

  /** The readings of a feed that concern one key. */
  function ForKey<K(==), D>(feed: seq<Keyed<K, D>>, key: K): seq<Reading<D>> {
    if feed == [] then []
    else
      var last := feed[|feed| - 1];
      ForKey(feed[..|feed| - 1], key) + (if last.key == key then [last.reading] else [])
  }

  /** The same deliveries, in any order and with any repetitions. */
  ghost predicate SameFeed<K, D>(s: seq<Keyed<K, D>>, t: seq<Keyed<K, D>>) {
    (forall k | k in s :: k in t) && (forall k | k in t :: k in s)
  }

  lemma {:induction false} ForKeyMembers<K, D>(feed: seq<Keyed<K, D>>, key: K, r: Reading<D>)
    ensures r in ForKey(feed, key) <==> Keyed(key, r) in feed
  {
    if feed != [] {
      var (rest, last) := (feed[..|feed| - 1], feed[|feed| - 1]);
      assert feed == rest + [last];
      ForKeyMembers(rest, key, r);
    }
  }

  /** One more delivery changes its own key's row, by the guard, and no other. */
  lemma FinalAppend<K, D>(feed: seq<Keyed<K, D>>, next: Keyed<K, D>, key: K)
    ensures Final(ForKey(feed + [next], key))
         == if next.key == key then Upsert(Final(ForKey(feed, key)), next.reading) else Final(ForKey(feed, key))
  {
    var readings := ForKey(feed, key);
    assert (feed + [next])[..|feed + [next]| - 1] == feed;
    assert (readings + [next.reading])[..|readings + [next.reading]| - 1] == readings;
    assert readings + [] == readings;
  }

  lemma FeedForgetsOrder<K, D>(s: seq<Keyed<K, D>>, t: seq<Keyed<K, D>>, key: K)
    requires SameFeed(s, t) && Settled(ForKey(s, key))
    ensures Final(ForKey(s, key)) == Final(ForKey(t, key))
  {
    forall r | r in ForKey(s, key) ensures r in ForKey(t, key) {
      ForKeyMembers(s, key, r);
      ForKeyMembers(t, key, r);
    }
    forall r | r in ForKey(t, key) ensures r in ForKey(s, key) {
      ForKeyMembers(s, key, r);
      ForKeyMembers(t, key, r);
    }
    SettledAgree(ForKey(s, key), ForKey(t, key));
  }

  // ----- columns that remember -----------------------------------------------------------------

  /** What one delivery says: the provider's time, and a column that an update coalesces. */
  datatype Sent = Sent(at: Option<Instant>, known: Option<Instant>)

  /** A delivery is accepted if none before it is newer. */
  predicate IsAccepted(sent: seq<Sent>, k: nat)
    requires k < |sent|
  {
    forall j | 0 <= j < k ::
      sent[j].at.None? || (sent[k].at.Some? && sent[j].at.value <= sent[k].at.value)
  }

  function Accepted(sent: seq<Sent>): set<nat> {
    set k: nat | k < |sent| && IsAccepted(sent, k)
  }

  /** The column of the first accepted delivery that has one. */
  ghost predicate FirstKnown(sent: seq<Sent>, known: Option<Instant>) {
    match known
    case None => forall k | k in Accepted(sent) :: sent[k].known.None?
    case Some(t) =>
      exists k :: k in Accepted(sent) && sent[k].known == Some(t)
                  && forall j | j in Accepted(sent) && j < k :: sent[j].known.None?
  }

  /** The column of the last accepted delivery that has one. */
  ghost predicate LastKnown(sent: seq<Sent>, known: Option<Instant>) {
    match known
    case None => forall k | k in Accepted(sent) :: sent[k].known.None?
    case Some(t) =>
      exists k :: k in Accepted(sent) && sent[k].known == Some(t)
                  && forall j | j in Accepted(sent) && k < j :: sent[j].known.None?
  }

  /** The time the row carries: that of a delivery as new as all others. */
  ghost predicate Carries(sent: seq<Sent>, at: Option<Instant>) {
    && (exists k | 0 <= k < |sent| :: sent[k].at == at)
    && (forall k | 0 <= k < |sent| :: Passes(sent[k].at, at))
  }

  lemma CarriesNext(sent: seq<Sent>, at: Option<Instant>, next: Sent)
    requires Carries(sent, at)
    ensures Carries(sent + [next], if Passes(at, next.at) then next.at else at)
    ensures Accepted(sent + [next]) == if Passes(at, next.at) then Accepted(sent) + {|sent|} else Accepted(sent)
  {
    var all := sent + [next];
    assert all[|sent|] == next && forall k | 0 <= k < |sent| :: all[k] == sent[k];
    assert IsAccepted(all, |sent|) <==> Passes(at, next.at);
    assert forall k: nat | k < |sent| :: IsAccepted(all, k) <==> IsAccepted(sent, k);
  }

  lemma KnownNext(sent: seq<Sent>, at: Option<Instant>, known: Option<Instant>, next: Sent)
    requires Carries(sent, at)
    ensures FirstKnown(sent, known) ==>
              FirstKnown(sent + [next], if Passes(at, next.at) then OrElse(known, next.known) else known)
    ensures LastKnown(sent, known) ==>
              LastKnown(sent + [next], if Passes(at, next.at) then OrElse(next.known, known) else known)
  {
    CarriesNext(sent, at, next);
    var all := sent + [next];
    assert forall k | k in Accepted(sent) :: all[k] == sent[k];
    if Passes(at, next.at) {
      assert |sent| in Accepted(all) && all[|sent|] == next;
    }
  }

  lemma FirstSent(next: Sent)
    ensures Carries([next], next.at) && Accepted([next]) == {0}
    ensures FirstKnown([next], next.known) && LastKnown([next], next.known)
  {
    assert 0 in Accepted([next]);
    assert [next][0].at == next.at;
  }
}
