/** The rolling-window value of an alert equals the metric computed directly from the raw events. */
module AlertTheorems {
  import opened Prelude
  import opened Jobs
  import opened Calendar
  import opened Periods
  import opened Buckets
  import opened Percentiles
  import opened Metrics
  import opened Alerts

  ghost predicate DistinctKeys(entries: seq<Entry>) {
    forall i, j | 0 <= i < j < |entries| :: entries[i].key != entries[j].key
  }

  /** The same key always comes with the same value. */
  ghost predicate Consistent(entries: seq<Entry>) {
    forall e, f | e in entries && f in entries && e.key == f.key :: e == f
  }

  lemma {:induction false} DeduplicatedIsDistinct(entries: seq<Entry>)
    ensures DistinctKeys(Deduplicated(entries))
  {
    if entries != [] {
      var (known, last) := (Deduplicated(entries[..|entries| - 1]), entries[|entries| - 1]);
      DeduplicatedIsDistinct(entries[..|entries| - 1]);
      assert forall i | 0 <= i < |known| :: known[i].key in Keys(known);
    }
  }

  lemma {:induction false} DeduplicatedMembers(entries: seq<Entry>, e: Entry)
    requires Consistent(entries)
    ensures e in Deduplicated(entries) <==> e in entries
  {
    if entries != [] {
      var (rest, last) := (entries[..|entries| - 1], entries[|entries| - 1]);
      assert entries == rest + [last];
      DeduplicatedMembers(rest, e);
      var known := Deduplicated(rest);
      if last.key in Keys(known) {
        var f :| f in known && f.key == last.key;
        DeduplicatedMembers(rest, f);
        assert f == last;
      }
    }
  }

  lemma {:induction false} DistinctCount(entries: seq<Entry>, e: Entry)
    requires DistinctKeys(entries)
    ensures multiset(entries)[e] == if e in entries then 1 else 0
  {
    if entries != [] {
      var (rest, last) := (entries[..|entries| - 1], entries[|entries| - 1]);
      assert entries == rest + [last];
      DistinctCount(rest, e);
      assert forall i | 0 <= i < |rest| :: rest[i] == entries[i] && rest[i].key != last.key;
    }
  }

  lemma SameMembersSameBag(s: seq<Entry>, t: seq<Entry>)
    requires DistinctKeys(s) && DistinctKeys(t) && forall e :: e in s <==> e in t
    ensures multiset(s) == multiset(t)
  {
    forall e ensures multiset(s)[e] == multiset(t)[e] {
      DistinctCount(s, e);
      DistinctCount(t, e);
    }
  }

  function Without<T>(s: seq<T>, k: nat): seq<T>
    requires k < |s|
  {
    s[..k] + s[k + 1..]
  }

  lemma RemoveOne<T>(s: seq<T>, k: nat)
    requires k < |s|
    ensures multiset(s) == multiset(Without(s, k)) + multiset{s[k]}
    ensures multiset(Without(s, k)) == multiset(s) - multiset{s[k]}
  {
    assert s == s[..k] + [s[k]] + s[k + 1..];
  }

  lemma FindInBag<T>(t: seq<T>, x: T) returns (k: nat)
    requires x in multiset(t)
    ensures k < |t| && t[k] == x
  {
    k :| 0 <= k < |t| && t[k] == x;
  }

  lemma ValuesWithout(s: seq<Entry>, k: nat)
    requires k < |s|
    ensures multiset(EntryValues(s)) == multiset(EntryValues(Without(s, k))) + multiset{s[k].value}
  {
    RemoveOne(EntryValues(s), k);
    assert EntryValues(Without(s, k)) == Without(EntryValues(s), k);
  }

  /** Two listings of the same entries carry the same values. */
  lemma {:induction false} ValuesForgetOrder(s: seq<Entry>, t: seq<Entry>)
    requires multiset(s) == multiset(t)
    ensures multiset(EntryValues(s)) == multiset(EntryValues(t))
    decreases |s|
  {
    assert |multiset(s)| == |s| && |multiset(t)| == |t|;
    if s != [] {
      assert s[0] in multiset(s);
      var k := FindInBag(t, s[0]);
      RemoveOne(s, 0);
      RemoveOne(t, k);
      ValuesForgetOrder(Without(s, 0), Without(t, k));
      ValuesWithout(s, 0);
      ValuesWithout(t, k);
    }
  }

  lemma {:induction false} CountFailedSplits(a: seq<real>, b: seq<real>)
    ensures CountFailed(a + b) == CountFailed(a) + CountFailed(b)
  {
    if b == [] {
      assert a + b == a;
    } else {
      CountFailedSplits(a, b[..|b| - 1]);
      assert (a + b)[..|a + b| - 1] == a + b[..|b| - 1];
    }
  }

  lemma CountFailedOne(v: real)
    ensures CountFailed([v]) == if v >= 0.5 then 1 else 0
  {
    assert [v][..0] == [];
  }

  lemma CountFailedInsert(s: seq<real>, left: seq<real>, v: real, right: seq<real>)
    requires s == left + ([v] + right)
    ensures CountFailed(s) == CountFailed(left + right) + (if v >= 0.5 then 1 else 0)
  {
    CountFailedSplits(left, right);
    CountFailedSplits(left, [v] + right);
    CountFailedSplits([v], right);
    CountFailedOne(v);
  }

  lemma SplitAround<T>(s: seq<T>, k: nat)
    requires k < |s|
    ensures s == s[..k] + ([s[k]] + s[k + 1..])
  {
  }

  lemma CountFailedWithout(s: seq<real>, k: nat)
    requires k < |s|
    ensures CountFailed(s) == CountFailed(Without(s, k)) + (if s[k] >= 0.5 then 1 else 0)
  {
    SplitAround(s, k);
    CountFailedInsert(s, s[..k], s[k], s[k + 1..]);
  }

  lemma {:induction false} CountFailedForgetsOrder(s: seq<real>, t: seq<real>)
    requires multiset(s) == multiset(t)
    ensures CountFailed(s) == CountFailed(t)
    decreases |s|
  {
    assert |multiset(s)| == |s| && |multiset(t)| == |t|;
    if s != [] {
      assert s[0] in multiset(s);
      var k := FindInBag(t, s[0]);
      RemoveOne(s, 0);
      RemoveOne(t, k);
      CountFailedForgetsOrder(Without(s, 0), Without(t, k));
      CountFailedWithout(s, 0);
      CountFailedWithout(t, k);
    }
  }

  /** Every metric is a function of the bag of measurements. */
  lemma MetricForgetsOrder(metric: MetricType, s: seq<real>, t: seq<real>)
    requires multiset(s) == multiset(t)
    ensures MetricOf(metric, s) == MetricOf(metric, t)
  {
    assert |multiset(s)| == |s| && |multiset(t)| == |t|;
    CountFailedForgetsOrder(s, t);
    SortingForgetsOrder(s, t);
  }

  lemma {:induction false} DirectKeysDistinct(events: seq<Observation>, window: Bucket)
    requires ProperKeys(events)
    ensures DistinctKeys(DirectEntries(events, window))
  {
    if events != [] {
      var (rest, last) := (events[..|events| - 1], events[|events| - 1]);
      DirectKeysDistinct(rest, window);
      var before := DirectEntries(rest, window);
      assert DirectEntries(events, window)
          == before + (if InPeriod(last.at, window) then [DirectEntry(last)] else []);
      forall i | 0 <= i < |before| ensures before[i].key != DirectEntry(last).key {
        var o := InBucket(rest, window)[i];
        InBucketMembers(rest, window, o);
        var j :| 0 <= j < |rest| && rest[j] == o;
        assert events[j].key != events[|events| - 1].key;
      }
    }
  }

  lemma DirectMembers(events: seq<Observation>, window: Bucket, e: Entry)
    ensures e in DirectEntries(events, window) <==>
              exists o | o in events :: InPeriod(o.at, window) && e == DirectEntry(o)
  {
    var inside := InBucket(events, window);
    forall o ensures o in inside <==> o in events && InPeriod(o.at, window) {
      InBucketMembers(events, window, o);
    }
    if e in DirectEntries(events, window) {
      var i :| 0 <= i < |inside| && e == DirectEntry(inside[i]);
      assert inside[i] in inside;
    }
    if exists o | o in events :: InPeriod(o.at, window) && e == DirectEntry(o) {
      var o :| o in events && InPeriod(o.at, window) && e == DirectEntry(o);
      assert o in inside;
      var i :| 0 <= i < |inside| && inside[i] == o;
      assert DirectEntries(events, window)[i] == e;
    }
  }

  /** The entries found through the snapshots are exactly those of the events in the window. */
  lemma FoundAreDirect(family: seq<Snapshot>, events: seq<Observation>, window: Bucket, e: Entry)
    requires ProperKeys(events) && (forall s | s in family :: BuiltFrom(s, events)) && CoversWindow(family, window)
    ensures e in AllEntries(Selected(family, window), window) <==> e in DirectEntries(events, window)
  {
    SelectedEntries(family, events, window, e);
    DirectMembers(events, window, e);
    if exists o | o in events :: InPeriod(o.at, window) && e == DirectEntry(o) {
      var o :| o in events && InPeriod(o.at, window) && e == DirectEntry(o);
      var s :| s in family && InPeriod(o.at, s.bucket);
    }
  }

  lemma {:induction false} SomethingSelected(family: seq<Snapshot>, s: Snapshot, window: Bucket)
    requires s in family && Overlaps(s.bucket, window)
    ensures Selected(family, window) != []
  {
    var (rest, last) := (family[..|family| - 1], family[|family| - 1]);
    assert family == rest + [last];
    if s in rest {
      SomethingSelected(rest, s, window);
    }
  }

  /**
    For any family of DAY snapshots that covers the window, tiling it or overlapping, and that was
    built from raw events with distinct identities: selecting the overlapping snapshots, filtering by
    time and keeping the first entry of each key yields the same count, failure ratio or median as
    filtering the raw events directly.
  */
  lemma AlertEqualsDirect(metric: MetricType, family: seq<Snapshot>, events: seq<Observation>, window: Bucket)
    requires window.start < window.end
    requires ProperKeys(events) && (forall s | s in family :: BuiltFrom(s, events)) && CoversWindow(family, window)
    ensures Aggregate(metric, Selected(family, window), window) == MetricOf(metric, Values(InBucket(events, window)))
  {
    var found := AllEntries(Selected(family, window), window);
    var direct := DirectEntries(events, window);
    forall e ensures e in found <==> e in direct {
      FoundAreDirect(family, events, window, e);
    }
    DirectKeysDistinct(events, window);
    assert Consistent(found);
    forall e ensures e in Deduplicated(found) <==> e in direct {
      DeduplicatedMembers(found, e);
    }
    DeduplicatedIsDistinct(found);
    SameMembersSameBag(Deduplicated(found), direct);
    ValuesForgetOrder(Deduplicated(found), direct);
    assert EntryValues(direct) == Values(InBucket(events, window));
    MetricForgetsOrder(metric, EntryValues(Deduplicated(found)), Values(InBucket(events, window)));
    assert InPeriod(window.start, window);
    var s :| s in family && InPeriod(window.start, s.bucket);
    SomethingSelected(family, s, window);
  }

  lemma {:induction false} FailingIsCountFailed(observations: seq<Observation>)
    ensures CountFailed(Values(observations)) == Failing(observations)
  {
    if observations != [] {
      var rest := observations[..|observations| - 1];
      FailingIsCountFailed(rest);
      assert Values(observations)[..|observations| - 1] == Values(rest);
    }
  }

  /** What the calculator of a metric reports for a bucket with these observations. */
  function Reported(metric: MetricType, observations: seq<Observation>): Option<real>
    requires observations != []
  {
    match metric
    case DeploymentFrequency => Some(|observations| as real)
    case ChangeFailureRate => Some(Failing(observations) as real / |observations| as real * 100.0)
    case OtherMetric => None
    case _ => Some(MedianOrZero(observations))
  }

  /** The alert multiplies before it divides, the calculator after. */
  lemma PercentEitherWay(failed: real, total: real)
    requires 0.0 < total
    ensures failed * 100.0 / total == failed / total * 100.0
  {
    var ratio := failed / total;
    assert ratio * total == failed;
    assert (ratio * 100.0) * total == failed * 100.0;
  }

  lemma RateIsReported(observations: seq<Observation>)
    requires observations != []
    ensures MetricOf(ChangeFailureRate, Values(observations)) == Reported(ChangeFailureRate, observations)
  {
    FailingIsCountFailed(observations);
    PercentEitherWay(Failing(observations) as real, |observations| as real);
  }

  lemma MedianIsReported(metric: MetricType, observations: seq<Observation>)
    requires observations != [] && (metric.ChangeLeadTime? || metric.RecoveryTime?)
    ensures MetricOf(metric, Values(observations)) == Reported(metric, observations)
  {
    MedianIsP50(Values(observations));
  }

  /** On any measurements the alert's metrics are what the calculators report. */
  lemma MetricIsReported(metric: MetricType, observations: seq<Observation>)
    requires observations != []
    ensures MetricOf(metric, Values(observations)) == Reported(metric, observations)
  {
    match metric
    case ChangeFailureRate => RateIsReported(observations);
    case DeploymentFrequency =>
    case OtherMetric =>
    case _ => MedianIsReported(metric, observations);
  }

  /**
    The rule's value is what the calculators report for the window taken as one bucket: the count,
    the failure percentage or the interpolated p50 of the observations they store for it.
  */
  lemma AlertEqualsCalculators(metric: MetricType, family: seq<Snapshot>, events: seq<Observation>, window: Bucket)
    requires window.start < window.end && InBucket(events, window) != []
    requires ProperKeys(events) && (forall s | s in family :: BuiltFrom(s, events)) && CoversWindow(family, window)
    ensures Aggregate(metric, Selected(family, window), window) == Reported(metric, InBucket(events, window))
  {
    AlertEqualsDirect(metric, family, events, window);
    MetricIsReported(metric, InBucket(events, window));
  }

  /** Snapshots of all DAY buckets that `get_period_buckets` yields for the window cover it. */
  lemma DayBucketsCover(zone: Zone, window: Bucket, days: seq<Bucket>, family: seq<Snapshot>)
    requires ZoneOk(zone) && Tiles(zone, Day, window.start, window.end, days)
    requires forall b | b in days :: exists s | s in family :: s.bucket == b
    ensures CoversWindow(family, window)
  {
    forall t | InPeriod(t, window) ensures exists s | s in family :: InPeriod(t, s.bucket) {
      PeriodsLeaveNoGap(Boundaries(zone, Day), FirstPeriod(zone, Day, window.start), days, t);
      var b :| b in days && b.start <= t < b.end;
      var s :| s in family && s.bucket == b;
    }
  }
}
