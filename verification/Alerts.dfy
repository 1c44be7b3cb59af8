/** Alert rules rebuild a rolling-window metric from the observations that DAY snapshots store. */
module Alerts {
  import opened Prelude
  import opened Jobs
  import opened Periods
  import opened Percentiles
  import opened Metrics

  datatype MetricType = DeploymentFrequency | ChangeFailureRate | ChangeLeadTime | RecoveryTime | OtherMetric

  /** An observation as read back from JSON: any part may be missing or unparsable. */
  datatype RawObservation = RawObservation(key: Option<string>, at: Option<Instant>, value: Option<real>)

  datatype Snapshot = Snapshot(id: nat, bucket: Bucket, observations: seq<RawObservation>)

  /** The deduplication key: the stored one, or the position of an observation without one. */
  datatype Key = Named(text: string) | Positional(snapshot: nat, index: nat)

  datatype Entry = Entry(key: Key, value: real)

  function KeyOf(raw: RawObservation, snapshot: nat, index: nat): Key {
    var text := if raw.key.Some? then Strip(raw.key.value) else "";
    if text == "" then Positional(snapshot, index) else Named(text)
  }

  /** The usable entry of an observation, if it has one. */
  function EntryAt(snapshot: Snapshot, window: Bucket, index: nat): seq<Entry>
    requires index < |snapshot.observations|
  {
    var raw := snapshot.observations[index];
    if raw.at.Some? && InPeriod(raw.at.value, window) && raw.value.Some?
    then [Entry(KeyOf(raw, snapshot.id, index), raw.value.value)] else []
  }

  /** The usable observations of a snapshot inside the window, up to index `n`. */
  function Entries(snapshot: Snapshot, window: Bucket, n: nat): seq<Entry>
    requires n <= |snapshot.observations|
  {
    if n == 0 then []
    else Entries(snapshot, window, n - 1) + EntryAt(snapshot, window, n - 1)
  }

  function AllEntries(snapshots: seq<Snapshot>, window: Bucket): seq<Entry> {
    if snapshots == [] then []
    else
      var last := snapshots[|snapshots| - 1];
      AllEntries(snapshots[..|snapshots| - 1], window) + Entries(last, window, |last.observations|)
  }

  function Keys(entries: seq<Entry>): set<Key> {
    set e | e in entries :: e.key
  }

  /** `setdefault`: an entry is added only if its key is new. */
  function SetDefault(known: seq<Entry>, e: Entry): seq<Entry> {
    if e.key in Keys(known) then known else known + [e]
  }

  /** The dictionary after `setdefault` of some more entries. */
  function AddAll(known: seq<Entry>, entries: seq<Entry>): seq<Entry> {
    if entries == [] then known
    else SetDefault(AddAll(known, entries[..|entries| - 1]), entries[|entries| - 1])
  }

  /** The dictionary, in insertion order, after all entries. */
  function Deduplicated(entries: seq<Entry>): seq<Entry> {
    AddAll([], entries)
  }

  function EntryValues(entries: seq<Entry>): seq<real> {
    seq(|entries|, i requires 0 <= i < |entries| => entries[i].value)
  }

  function CountFailed(values: seq<real>): nat {
    if values == [] then 0
    else CountFailed(values[..|values| - 1]) + (if values[|values| - 1] >= 0.5 then 1 else 0)
  }

  /** The metric of a list of measurements, before rounding. */
  function MetricOf(metric: MetricType, values: seq<real>): Option<real> {
    match metric
    case DeploymentFrequency => Some(|values| as real)
    case ChangeFailureRate =>
      if values == [] then None else Some(CountFailed(values) as real * 100.0 / |values| as real)
    case OtherMetric => None
    case _ => if values == [] then None else Some(Median(values))
  }

  /** What a rule evaluates to; `None` when there is nothing to evaluate. */
  function Aggregate(metric: MetricType, snapshots: seq<Snapshot>, window: Bucket): Option<real> {
    if snapshots == [] then None
    else MetricOf(metric, EntryValues(Deduplicated(AllEntries(snapshots, window))))
  }

  lemma AddAtMostOne(known: seq<Entry>, entries: seq<Entry>, one: seq<Entry>)
    requires |one| <= 1
    ensures AddAll(known, entries + one)
         == if one == [] then AddAll(known, entries) else SetDefault(AddAll(known, entries), one[0])
  {
    if one == [] {
      assert entries + one == entries;
    } else {
      assert (entries + one)[..|entries + one| - 1] == entries;
    }
  }

  /** Filling the dictionary snapshot by snapshot is deduplicating the list of all their entries. */
  lemma {:induction false} AddingIsDeduplicating(before: seq<Entry>, entries: seq<Entry>)
    ensures AddAll(Deduplicated(before), entries) == Deduplicated(before + entries)
  {
    if entries == [] {
      assert before + entries == before;
    } else {
      AddingIsDeduplicating(before, entries[..|entries| - 1]);
      assert (before + entries)[..|before + entries| - 1] == before + entries[..|entries| - 1];
    }
  }

  /** The inner loop: one snapshot's observations go into the dictionary. */
  method AddSnapshot(known: seq<Entry>, snapshot: Snapshot, window: Bucket) returns (observations: seq<Entry>)
    ensures observations == AddAll(known, Entries(snapshot, window, |snapshot.observations|))
  {
    observations := known;
    for index := 0 to |snapshot.observations|
      invariant observations == AddAll(known, Entries(snapshot, window, index))
    {
      var usable := EntryAt(snapshot, window, index);
      AddAtMostOne(known, Entries(snapshot, window, index), usable);
      if usable != [] {
        observations := SetDefault(observations, usable[0]);
      }
    }
  }

  method CountFailures(values: seq<real>) returns (failed: nat)
    ensures failed == CountFailed(values)
  {
    failed := 0;
    for i := 0 to |values|
      invariant failed == CountFailed(values[..i])
    {
      assert values[..i + 1][..i] == values[..i];
      if values[i] >= 0.5 {
        failed := failed + 1;
      }
    }
    assert values[..|values|] == values;
  }

  method AggregateDoraMetric(metric: MetricType, snapshots: seq<Snapshot>, window: Bucket)
    returns (actual: Option<real>)
    ensures actual == Aggregate(metric, snapshots, window)
  {
    if snapshots == [] {
      return None;
    }
    var observations: seq<Entry> := [];
    for i := 0 to |snapshots|
      invariant observations == Deduplicated(AllEntries(snapshots[..i], window))
    {
      AddingIsDeduplicating(AllEntries(snapshots[..i], window),
                            Entries(snapshots[i], window, |snapshots[i].observations|));
      observations := AddSnapshot(observations, snapshots[i], window);
      assert snapshots[..i + 1][..i] == snapshots[..i];
    }
    assert snapshots[..|snapshots|] == snapshots;
    var values := EntryValues(observations);
    match metric {
      case DeploymentFrequency =>
        actual := Some(|values| as real);
      case ChangeFailureRate =>
        if values == [] {
          actual := None;
        } else {
          var failed := CountFailures(values);
          actual := Some(failed as real * 100.0 / |values| as real);
        }
      case ChangeLeadTime => actual := if values == [] then None else Some(Median(values));
      case RecoveryTime => actual := if values == [] then None else Some(Median(values));
      case OtherMetric => actual := None;
    }
  }

  // ----- agreement with the raw events ---------------------------------------------------------

  /** An observation as a snapshot stores it. */
  function Stored(o: Observation): RawObservation {
    RawObservation(Some(o.key), Some(o.at), Some(o.value))
  }

  function StoredAll(observations: seq<Observation>): seq<RawObservation> {
    seq(|observations|, i requires 0 <= i < |observations| => Stored(observations[i]))
  }

  /** A snapshot of the events: its observations are those of its own bucket. */
  ghost predicate BuiltFrom(snapshot: Snapshot, events: seq<Observation>) {
    snapshot.observations == StoredAll(InBucket(events, snapshot.bucket))
  }

  /** Identities as the calculators produce them: distinct, and not changed by stripping. */
  ghost predicate ProperKeys(events: seq<Observation>) {
    && (forall o | o in events :: o.key != "" && Strip(o.key) == o.key)
    && (forall i, j | 0 <= i < j < |events| :: events[i].key != events[j].key)
  }

  /** The snapshots a rule reads: those overlapping its window. */
  predicate Overlaps(bucket: Bucket, window: Bucket) {
    bucket.end > window.start && bucket.start < window.end
  }

  function Selected(family: seq<Snapshot>, window: Bucket): seq<Snapshot> {
    if family == [] then []
    else
      var last := family[|family| - 1];
      Selected(family[..|family| - 1], window) + (if Overlaps(last.bucket, window) then [last] else [])
  }

  /** A rule reads the snapshots that end after its window starts and start before it ends, in order. */
  lemma {:induction false} SelectedAreOverlapping(family: seq<Snapshot>, window: Bucket) returns (chosen: seq<nat>)
    ensures forall j, k | 0 <= j < k < |chosen| :: chosen[j] < chosen[k]
    ensures forall i: nat :: i in chosen <==>
              i < |family| && window.start < family[i].bucket.end && family[i].bucket.start < window.end
    ensures |Selected(family, window)| == |chosen|
    ensures forall k | 0 <= k < |chosen| :: chosen[k] < |family| && Selected(family, window)[k] == family[chosen[k]]
  {
    if family == [] {
      chosen := [];
    } else {
      var n := |family| - 1;
      var before := SelectedAreOverlapping(family[..n], window);
      chosen := before + if Overlaps(family[n].bucket, window) then [n as nat] else [];
    }
  }

  ghost predicate CoversWindow(family: seq<Snapshot>, window: Bucket) {
    forall t | InPeriod(t, window) :: exists s | s in family :: InPeriod(t, s.bucket)
  }

  function DirectEntry(o: Observation): Entry {
    Entry(Named(o.key), o.value)
  }

  function DirectEntries(events: seq<Observation>, window: Bucket): seq<Entry> {
    var inside := InBucket(events, window);
    seq(|inside|, i requires 0 <= i < |inside| => DirectEntry(inside[i]))
  }

  lemma {:induction false} InBucketMembers(events: seq<Observation>, bucket: Bucket, o: Observation)
    ensures o in InBucket(events, bucket) <==> o in events && InPeriod(o.at, bucket)
  {
    if events != [] {
      InBucketMembers(events[..|events| - 1], bucket, o);
      assert events == events[..|events| - 1] + [events[|events| - 1]];
    }
  }

  lemma {:induction false} EntriesMembers(snapshot: Snapshot, events: seq<Observation>, window: Bucket, n: nat,
                                          e: Entry)
    requires BuiltFrom(snapshot, events) && ProperKeys(events) && n <= |snapshot.observations|
    ensures e in Entries(snapshot, window, n) <==>
              exists i | 0 <= i < n :: InPeriod(InBucket(events, snapshot.bucket)[i].at, window)
                                       && e == DirectEntry(InBucket(events, snapshot.bucket)[i])
  {
    if 0 < n {
      EntriesMembers(snapshot, events, window, n - 1, e);
      var o := InBucket(events, snapshot.bucket)[n - 1];
      InBucketMembers(events, snapshot.bucket, o);
      assert snapshot.observations[n - 1] == Stored(o);
    }
  }

  lemma SnapshotEntries(snapshot: Snapshot, events: seq<Observation>, window: Bucket, e: Entry)
    requires BuiltFrom(snapshot, events) && ProperKeys(events)
    ensures e in Entries(snapshot, window, |snapshot.observations|) <==>
              exists o | o in events :: InPeriod(o.at, snapshot.bucket) && InPeriod(o.at, window) && e == DirectEntry(o)
  {
    var inside := InBucket(events, snapshot.bucket);
    EntriesMembers(snapshot, events, window, |snapshot.observations|, e);
    forall o ensures o in inside <==> o in events && InPeriod(o.at, snapshot.bucket) {
      InBucketMembers(events, snapshot.bucket, o);
    }
    if exists o | o in events :: InPeriod(o.at, snapshot.bucket) && InPeriod(o.at, window) && e == DirectEntry(o) {
      var o :| o in events && InPeriod(o.at, snapshot.bucket) && InPeriod(o.at, window) && e == DirectEntry(o);
      assert o in inside;
      var i :| 0 <= i < |inside| && inside[i] == o;
    }
  }

  /** Selecting overlapping snapshots of a covering family finds every event of the window, and no other. */
  lemma {:induction false} SelectedEntries(family: seq<Snapshot>, events: seq<Observation>, window: Bucket, e: Entry)
    requires ProperKeys(events) && forall s | s in family :: BuiltFrom(s, events)
    ensures e in AllEntries(Selected(family, window), window) <==>
              exists o, s | o in events && s in family ::
                InPeriod(o.at, s.bucket) && InPeriod(o.at, window) && e == DirectEntry(o)
  {
    if family != [] {
      var (rest, last) := (family[..|family| - 1], family[|family| - 1]);
      assert family == rest + [last];
      assert last in family;
      SelectedEntries(rest, events, window, e);
      SnapshotEntries(last, events, window, e);
      var before := Selected(rest, window);
      assert (before + [last])[..|before|] == before;
      assert before + [] == before;
      assert Overlaps(last.bucket, window)
          || !exists o | o in events :: InPeriod(o.at, last.bucket) && InPeriod(o.at, window);
    }
  }
}
