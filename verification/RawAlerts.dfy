/** What a rule evaluates to for any stored observations, malformed and repeated ones included. */
module RawAlerts {
  import opened Prelude
  import opened Jobs
  import opened Periods
  import opened Metrics
  import opened Alerts
  import opened AlertTheorems

  /** The place of an observation: which snapshot of the list, and which of its observations. */
  datatype Place = Place(i: nat, j: nat)

  predicate Exists(snapshots: seq<Snapshot>, p: Place) {
    p.i < |snapshots| && p.j < |snapshots[p.i].observations|
  }

  function ObservationAt(snapshots: seq<Snapshot>, p: Place): RawObservation
    requires Exists(snapshots, p)
  {
    snapshots[p.i].observations[p.j]
  }

  /** It has a value, and a time inside the window, its end excluded. */
  predicate Usable(snapshots: seq<Snapshot>, window: Bucket, p: Place) {
    Exists(snapshots, p)
    && match ObservationAt(snapshots, p)
       case RawObservation(_, Some(at), Some(_)) => window.start <= at < window.end
       case _ => false
  }

  /** The stored key without the blanks around it. */
  function Name(snapshots: seq<Snapshot>, p: Place): string
    requires Exists(snapshots, p)
  {
    match ObservationAt(snapshots, p).key
    case Some(text) => Strip(text)
    case None => ""
  }

  /** Two observations are one: the same name, or without names the same index of the same snapshot. */
  predicate SameIdentity(snapshots: seq<Snapshot>, p: Place, q: Place)
    requires Exists(snapshots, p) && Exists(snapshots, q)
  {
    Name(snapshots, p) == Name(snapshots, q)
    && (Name(snapshots, p) == "" ==> snapshots[p.i].id == snapshots[q.i].id && p.j == q.j)
  }

  predicate Earlier(p: Place, q: Place) {
    p.i < q.i || (p.i == q.i && p.j < q.j)
  }

  /** A usable observation that no earlier usable one equals. */
  ghost predicate CountsAt(snapshots: seq<Snapshot>, window: Bucket, p: Place) {
    Usable(snapshots, window, p)
    && forall q | Usable(snapshots, window, q) && Earlier(q, p) :: !SameIdentity(snapshots, q, p)
  }

  ghost predicate Ordered(places: seq<Place>) {
    forall k, l | 0 <= k < l < |places| :: Earlier(places[k], places[l])
  }

  /** The values found at these places. */
  ghost predicate ValuesAt(snapshots: seq<Snapshot>, places: seq<Place>, values: seq<real>) {
    |values| == |places|
    && forall k | 0 <= k < |places| ::
         Exists(snapshots, places[k]) && ObservationAt(snapshots, places[k]).value == Some(values[k])
  }

  // ----- Strip ---------------------------------------------------------------------------------

  lemma {:induction false} StripLeftSplits(s: string) returns (i: nat)
    ensures i <= |s| && StripLeft(s) == s[i..] && forall k | 0 <= k < i :: Blank(s[k])
    ensures i < |s| ==> !Blank(s[i])
  {
    if s != "" && Blank(s[0]) {
      var rest := StripLeftSplits(s[1..]);
      i := rest + 1;
      assert s[1..][rest..] == s[i..];
      assert forall k | 0 < k < i :: s[1..][k - 1] == s[k];
    } else {
      i := 0;
    }
  }

  lemma {:induction false} StripRightSplits(s: string) returns (j: nat)
    ensures j <= |s| && StripRight(s) == s[..j] && forall k | j <= k < |s| :: Blank(s[k])
    ensures 0 < j ==> !Blank(s[j - 1])
  {
    if s != "" && Blank(s[|s| - 1]) {
      j := StripRightSplits(s[..|s| - 1]);
      assert s[..|s| - 1][..j] == s[..j];
    } else {
      j := |s|;
    }
  }

  /** Stripping takes blanks off both ends, and all of them. */
  lemma StripTrims(s: string) returns (i: nat, j: nat)
    ensures i <= j <= |s| && Strip(s) == s[i..j]
    ensures forall k | 0 <= k < |s| && !(i <= k < j) :: Blank(s[k])
    ensures i < j ==> !Blank(s[i]) && !Blank(s[j - 1])
  {
    i := StripLeftSplits(s);
    var left := StripLeft(s);
    var n := StripRightSplits(left);
    j := i + n;
    assert left[..n] == s[i..j];
    assert forall k | i <= k < |s| :: left[k - i] == s[k];
  }

  // ----- the places of the entries -------------------------------------------------------------

  lemma EntryAtUsable(snapshots: seq<Snapshot>, window: Bucket, p: Place)
    requires Exists(snapshots, p)
    ensures var e := EntryAt(snapshots[p.i], window, p.j);
            if Usable(snapshots, window, p)
            then |e| == 1 && IsEntryOf(snapshots, p, e[0])
            else e == []
  {
  }

  /** The entry made of a place: its value under its identity. */
  ghost predicate IsEntryOf(snapshots: seq<Snapshot>, p: Place, e: Entry) {
    Exists(snapshots, p) && ObservationAt(snapshots, p).value == Some(e.value)
    && e.key == KeyOf(ObservationAt(snapshots, p), snapshots[p.i].id, p.j)
  }

  lemma KeyIsIdentity(snapshots: seq<Snapshot>, p: Place, e: Entry, q: Place, f: Entry)
    requires IsEntryOf(snapshots, p, e) && IsEntryOf(snapshots, q, f)
    ensures e.key == f.key <==> SameIdentity(snapshots, p, q)
  {
  }

  /** The places of a list of entries: exactly the usable places before `end`, in order. */
  ghost predicate PlacesOf(snapshots: seq<Snapshot>, window: Bucket, end: Place, places: seq<Place>,
                           entries: seq<Entry>)
  {
    && Ordered(places) && |places| == |entries|
    && (forall k | 0 <= k < |places| :: IsEntryOf(snapshots, places[k], entries[k]))
    && (forall p :: p in places <==> Usable(snapshots, window, p) && Earlier(p, end))
  }

  lemma NextPlace(snapshots: seq<Snapshot>, window: Bucket, p: Place, places: seq<Place>, entries: seq<Entry>)
    returns (more: seq<Place>)
    requires Exists(snapshots, p) && PlacesOf(snapshots, window, p, places, entries)
    ensures PlacesOf(snapshots, window, Place(p.i, p.j + 1), more, entries + EntryAt(snapshots[p.i], window, p.j))
  {
    EntryAtUsable(snapshots, window, p);
    var here := if Usable(snapshots, window, p) then [p] else [];
    more := places + here;
    forall q ensures q in more <==> Usable(snapshots, window, q) && Earlier(q, Place(p.i, p.j + 1)) {
      assert Earlier(q, Place(p.i, p.j + 1)) <==> Earlier(q, p) || q == p;
      assert q in more <==> q in places || q in here;
    }
    forall k, l | 0 <= k < l < |more| ensures Earlier(more[k], more[l]) {
      assert k < |places| ==> places[k] in places;
    }
  }

  lemma {:induction false} PlacesInSnapshot(snapshots: seq<Snapshot>, window: Bucket, i: nat, n: nat,
                                            before: seq<Place>, entries: seq<Entry>)
    returns (places: seq<Place>)
    requires i < |snapshots| && n <= |snapshots[i].observations|
    requires PlacesOf(snapshots, window, Place(i, 0), before, entries)
    ensures PlacesOf(snapshots, window, Place(i, n), places, entries + Entries(snapshots[i], window, n))
  {
    if n == 0 {
      places := before;
      assert entries + [] == entries;
    } else {
      var some := PlacesInSnapshot(snapshots, window, i, n - 1, before, entries);
      places := NextPlace(snapshots, window, Place(i, n - 1), some, entries + Entries(snapshots[i], window, n - 1));
      assert entries + Entries(snapshots[i], window, n - 1) + EntryAt(snapshots[i], window, n - 1)
          == entries + Entries(snapshots[i], window, n);
    }
  }

  lemma {:induction false} PlacesOfAll(snapshots: seq<Snapshot>, window: Bucket, n: nat) returns (places: seq<Place>)
    requires n <= |snapshots|
    ensures PlacesOf(snapshots, window, Place(n, 0), places, AllEntries(snapshots[..n], window))
  {
    if n == 0 {
      places := [];
    } else {
      var (i, m) := (n - 1, |snapshots[n - 1].observations|);
      var before := PlacesOfAll(snapshots, window, i);
      places := PlacesInSnapshot(snapshots, window, i, m, before, AllEntries(snapshots[..i], window));
      assert snapshots[..n][..i] == snapshots[..i];
      forall p ensures p in places <==> Usable(snapshots, window, p) && Earlier(p, Place(n, 0)) {
        assert Usable(snapshots, window, p) ==> (Earlier(p, Place(i, m)) <==> Earlier(p, Place(n, 0)));
      }
    }
  }

  // ----- keeping the first ---------------------------------------------------------------------

  /** No earlier entry has this one's key. */
  predicate FirstOfKey(entries: seq<Entry>, k: nat)
    requires k < |entries|
  {
    forall l | 0 <= l < k :: entries[l].key != entries[k].key
  }

  /** The indexes of the entries that are the first of their keys, in order. */
  ghost predicate FirstIndexes(entries: seq<Entry>, firsts: seq<nat>) {
    && (forall k, l | 0 <= k < l < |firsts| :: firsts[k] < firsts[l])
    && (forall k: nat :: k in firsts <==> k < |entries| && FirstOfKey(entries, k))
  }

  /** The kept entries are those at some indexes, and every key is among theirs. */
  ghost predicate KeptAt(entries: seq<Entry>, firsts: seq<nat>, kept: seq<Entry>) {
    && |firsts| == |kept|
    && (forall m | 0 <= m < |firsts| :: firsts[m] < |entries| && kept[m] == entries[firsts[m]])
    && (forall e | e in entries :: e.key in Keys(kept))
  }

  lemma NewKeyIff(entries: seq<Entry>, n: nat, firsts: seq<nat>, kept: seq<Entry>)
    requires n < |entries| && KeptAt(entries[..n], firsts, kept)
    ensures entries[n].key in Keys(kept) <==> !FirstOfKey(entries, n)
  {
    if entries[n].key in Keys(kept) {
      var m :| 0 <= m < |kept| && kept[m].key == entries[n].key;
      assert entries[firsts[m]].key == entries[n].key;
    }
    if !FirstOfKey(entries, n) {
      var l :| 0 <= l < n && entries[l].key == entries[n].key;
      assert entries[..n][l] in entries[..n];
    }
  }

  lemma NextIndex(entries: seq<Entry>, n: nat, firsts: seq<nat>, more: seq<nat>)
    requires n + 1 == |entries| && FirstIndexes(entries[..n], firsts)
    requires more == if FirstOfKey(entries, n) then firsts + [n] else firsts
    ensures FirstIndexes(entries, more)
  {
    forall k: nat ensures k in more <==> k < |entries| && FirstOfKey(entries, k) {
      assert k < n ==> (FirstOfKey(entries[..n], k) <==> FirstOfKey(entries, k));
    }
    forall k, l | 0 <= k < l < |more| ensures more[k] < more[l] {
      assert k < |firsts| && firsts[k] in firsts;
    }
  }

  lemma SetDefaultKeys(kept: seq<Entry>, e: Entry)
    ensures e.key in Keys(SetDefault(kept, e)) && Keys(kept) <= Keys(SetDefault(kept, e))
  {
    assert e in kept + [e] && forall f | f in kept :: f in kept + [e];
  }

  lemma KeptNext(entries: seq<Entry>, n: nat, firsts: seq<nat>, kept: seq<Entry>, more: seq<nat>)
    requires n + 1 == |entries| && KeptAt(entries[..n], firsts, kept)
    requires more == if entries[n].key in Keys(kept) then firsts else firsts + [n]
    ensures KeptAt(entries, more, SetDefault(kept, entries[n]))
  {
    SetDefaultKeys(kept, entries[n]);
    forall e | e in entries ensures e.key in Keys(SetDefault(kept, entries[n])) {
      assert e == entries[n] || e in entries[..n];
    }
  }

  lemma KeepNext(entries: seq<Entry>, n: nat, firsts: seq<nat>, kept: seq<Entry>) returns (more: seq<nat>)
    requires n + 1 == |entries| && FirstIndexes(entries[..n], firsts) && KeptAt(entries[..n], firsts, kept)
    ensures FirstIndexes(entries, more) && KeptAt(entries, more, SetDefault(kept, entries[n]))
  {
    NewKeyIff(entries, n, firsts, kept);
    more := if entries[n].key in Keys(kept) then firsts else firsts + [n];
    NextIndex(entries, n, firsts, more);
    KeptNext(entries, n, firsts, kept, more);
  }

  /** What deduplication keeps: the first entry of each key, in order. */
  lemma {:induction false} FirstsAreKept(entries: seq<Entry>) returns (firsts: seq<nat>)
    ensures FirstIndexes(entries, firsts) && KeptAt(entries, firsts, Deduplicated(entries))
  {
    if entries == [] {
      firsts := [];
    } else {
      var n := |entries| - 1;
      var before := FirstsAreKept(entries[..n]);
      firsts := KeepNext(entries, n, before, Deduplicated(entries[..n]));
    }
  }

  lemma {:induction false} EarlierInOrder(places: seq<Place>, k: nat, l: nat)
    requires Ordered(places) && k < |places| && l < |places|
    ensures Earlier(places[k], places[l]) <==> k < l
  {
  }

  lemma FirstCounts(snapshots: seq<Snapshot>, window: Bucket, places: seq<Place>, entries: seq<Entry>, k: nat)
    requires PlacesOf(snapshots, window, Place(|snapshots|, 0), places, entries) && k < |entries|
    ensures FirstOfKey(entries, k) <==> CountsAt(snapshots, window, places[k])
  {
    assert places[k] in places;
    if FirstOfKey(entries, k) {
      forall q | Usable(snapshots, window, q) && Earlier(q, places[k]) ensures !SameIdentity(snapshots, q, places[k]) {
        assert q in places;
        var l :| 0 <= l < |places| && places[l] == q;
        EarlierInOrder(places, l, k);
        KeyIsIdentity(snapshots, q, entries[l], places[k], entries[k]);
      }
    }
    if CountsAt(snapshots, window, places[k]) {
      forall l | 0 <= l < k ensures entries[l].key != entries[k].key {
        assert places[l] in places;
        KeyIsIdentity(snapshots, places[l], entries[l], places[k], entries[k]);
      }
    }
  }

  /** The places of the first entries of each key are those that count. */
  lemma FirstPlaces(snapshots: seq<Snapshot>, window: Bucket, all: seq<Place>, entries: seq<Entry>, firsts: seq<nat>)
    returns (places: seq<Place>)
    requires PlacesOf(snapshots, window, Place(|snapshots|, 0), all, entries) && FirstIndexes(entries, firsts)
    requires forall m | 0 <= m < |firsts| :: firsts[m] < |entries|
    ensures |places| == |firsts| && forall m | 0 <= m < |firsts| :: places[m] == all[firsts[m]]
    ensures Ordered(places) && forall p :: p in places <==> CountsAt(snapshots, window, p)
  {
    places := seq(|firsts|, m requires 0 <= m < |firsts| => all[firsts[m]]);
    forall p ensures p in places <==> CountsAt(snapshots, window, p) {
      if CountsAt(snapshots, window, p) {
        assert p in all;
        var k :| 0 <= k < |all| && all[k] == p;
        FirstCounts(snapshots, window, all, entries, k);
        var m :| 0 <= m < |firsts| && firsts[m] == k;
        assert places[m] == p;
      }
      if p in places {
        var m :| 0 <= m < |places| && places[m] == p;
        assert firsts[m] in firsts;
        FirstCounts(snapshots, window, all, entries, firsts[m]);
      }
    }
  }

  /** What remains after deduplication: the values of the places that count, in their order. */
  lemma KeptValues(snapshots: seq<Snapshot>, window: Bucket) returns (places: seq<Place>)
    ensures Ordered(places) && forall p :: p in places <==> CountsAt(snapshots, window, p)
    ensures ValuesAt(snapshots, places, EntryValues(Deduplicated(AllEntries(snapshots, window))))
  {
    var entries := AllEntries(snapshots, window);
    assert snapshots[..|snapshots|] == snapshots;
    var all := PlacesOfAll(snapshots, window, |snapshots|);
    var firsts := FirstsAreKept(entries);
    places := FirstPlaces(snapshots, window, all, entries, firsts);
    forall m | 0 <= m < |places|
      ensures Exists(snapshots, places[m])
      ensures ObservationAt(snapshots, places[m]).value == Some(EntryValues(Deduplicated(entries))[m])
    {
      assert IsEntryOf(snapshots, all[firsts[m]], entries[firsts[m]]);
    }
  }

  /**
    Whatever the snapshots hold, the rule's value is the metric of the values found at the usable
    places whose identity no earlier usable place has, in their order, each once.
  */
  lemma RawAlertValue(metric: MetricType, snapshots: seq<Snapshot>, window: Bucket)
    returns (places: seq<Place>, values: seq<real>)
    ensures Ordered(places) && forall p :: p in places <==> CountsAt(snapshots, window, p)
    ensures ValuesAt(snapshots, places, values)
    ensures Aggregate(metric, snapshots, window) == if snapshots == [] then None else MetricOf(metric, values)
  {
    places := KeptValues(snapshots, window);
    values := EntryValues(Deduplicated(AllEntries(snapshots, window)));
  }

  lemma SomethingCountsIff(snapshots: seq<Snapshot>, window: Bucket)
    ensures AllEntries(snapshots, window) == [] <==> forall p :: !Usable(snapshots, window, p)
    ensures Deduplicated(AllEntries(snapshots, window)) == [] <==> AllEntries(snapshots, window) == []
  {
    var entries := AllEntries(snapshots, window);
    assert snapshots[..|snapshots|] == snapshots;
    var all := PlacesOfAll(snapshots, window, |snapshots|);
    var firsts := FirstsAreKept(entries);
    assert entries != [] ==> all[0] in all && entries[0] in entries;
    forall p | entries == [] ensures !Usable(snapshots, window, p) {
      assert p !in all;
    }
  }

  /** A rule has nothing to evaluate without snapshots, for another metric, or without a usable value. */
  lemma NothingToEvaluateIff(metric: MetricType, snapshots: seq<Snapshot>, window: Bucket)
    ensures Aggregate(metric, snapshots, window) == None <==>
              snapshots == [] || metric.OtherMetric?
              || (!metric.DeploymentFrequency? && forall p :: !Usable(snapshots, window, p))
  {
    SomethingCountsIff(snapshots, window);
  }

  /** A count of zero is a value: a frequency rule always has one once there is a snapshot. */
  lemma NoObservationsCountZero(snapshots: seq<Snapshot>, window: Bucket)
    requires snapshots != [] && forall p :: !Usable(snapshots, window, p)
    ensures Aggregate(DeploymentFrequency, snapshots, window) == Some(0.0)
  {
    SomethingCountsIff(snapshots, window);
  }
}
