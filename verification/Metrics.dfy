/** The four DORA calculations over one bucket, and how their counts add up over buckets. */
module Metrics {
  import opened Prelude
  import opened Jobs
  import opened Calendar
  import opened Periods
  import opened Buckets
  import opened Percentiles

  datatype RunStatus = Success | Failure | OtherStatus

  datatype DeploymentItem = DeploymentItem(
    id: string, isProduction: bool, status: RunStatus, finishedAt: Option<Instant>, hasIncident: bool)

  /** A pull request with its earliest linked successful production deployment. */
  datatype LeadItem = LeadItem(
    deploymentId: string, pullRequestId: string, isProduction: bool, status: RunStatus,
    finishedAt: Option<Instant>, firstCommitAt: Option<Instant>)

  datatype IncidentItem = IncidentItem(
    id: string, recoveryFinishedAt: Option<Instant>, resolvedAt: Option<Instant>,
    detectedAt: Option<Instant>, createdAt: Option<Instant>)

  /** What a snapshot stores of one event: its identity, its instant and its measurement. */
  datatype Observation = Observation(key: string, at: Instant, value: real)

  function Hours(duration: int): real {
    duration as real / 3_600_000_000.0
  }

  function FrequencyOf(d: DeploymentItem): Option<Observation> {
    if d.isProduction && d.status.Success? && d.finishedAt.Some?
    then Some(Observation(d.id, d.finishedAt.value, 1.0)) else None
  }

  function FailureRateOf(d: DeploymentItem): Option<Observation> {
    if d.isProduction && d.finishedAt.Some?
    then Some(Observation(d.id, d.finishedAt.value, if d.status.Failure? || d.hasIncident then 1.0 else 0.0)) else None
  }

  function LeadTimeOf(item: LeadItem): Option<Observation> {
    if item.isProduction && item.status.Success? && item.finishedAt.Some? && item.firstCommitAt.Some?
       && item.finishedAt.value >= item.firstCommitAt.value
    then Some(Observation(item.deploymentId + ":" + item.pullRequestId, item.finishedAt.value,
                          Hours(item.finishedAt.value - item.firstCommitAt.value)))
    else None
  }

  function RecoveryOf(incident: IncidentItem): Option<Observation> {
    var resolved := OrElse(incident.recoveryFinishedAt, incident.resolvedAt);
    var detected := OrElse(incident.detectedAt, incident.createdAt);
    if resolved.Some? && detected.Some? && resolved.value >= detected.value
    then Some(Observation(incident.id, resolved.value, Hours(resolved.value - detected.value))) else None
  }

  /** An hour is an hour, and durations add up. */
  lemma HoursAddUp(x: int, y: int)
    ensures Hours(x + y) == Hours(x) + Hours(y) && Hours(60 * 60 * SECOND) == 1.0 && Hours(0) == 0.0
  {
  }

  /** What is measured as lead time: from the first commit to the end of a production success, never backwards. */
  lemma LeadTimeMeans(item: LeadItem, from: Instant, until: Instant)
    requires item.firstCommitAt == Some(from) && item.finishedAt == Some(until)
    ensures LeadTimeOf(item).Some? <==> item.isProduction && item.status == Success && from <= until
    ensures LeadTimeOf(item).Some? ==>
              && LeadTimeOf(item).value.at == until
              && LeadTimeOf(item).value.value * 3_600_000_000.0 == (until - from) as real
              && LeadTimeOf(item).value.key == item.deploymentId + ":" + item.pullRequestId
  {
  }

  lemma LeadTimeNeedsBothEnds(item: LeadItem)
    requires item.firstCommitAt.None? || item.finishedAt.None?
    ensures LeadTimeOf(item).None?
  {
  }

  /**
    What is measured as recovery: from detection, or else creation, to the end of the recovering
    deployment, or else the resolution, never backwards.
  */
  lemma RecoveryMeans(incident: IncidentItem, detected: Instant, resolved: Instant)
    requires incident.detectedAt == Some(detected)
             || (incident.detectedAt.None? && incident.createdAt == Some(detected))
    requires incident.recoveryFinishedAt == Some(resolved)
             || (incident.recoveryFinishedAt.None? && incident.resolvedAt == Some(resolved))
    ensures RecoveryOf(incident).Some? <==> detected <= resolved
    ensures RecoveryOf(incident).Some? ==>
              && RecoveryOf(incident).value.at == resolved && RecoveryOf(incident).value.key == incident.id
              && RecoveryOf(incident).value.value * 3_600_000_000.0 == (resolved - detected) as real
  {
  }

  lemma RecoveryNeedsBothEnds(incident: IncidentItem)
    requires (incident.detectedAt.None? && incident.createdAt.None?)
             || (incident.recoveryFinishedAt.None? && incident.resolvedAt.None?)
    ensures RecoveryOf(incident).None?
  {
  }

  /** What is counted: production successes, and of all finished production deployments the failed ones. */
  lemma CountedDeployments(d: DeploymentItem)
    ensures FrequencyOf(d).Some? <==> d.isProduction && d.status == Success && d.finishedAt.Some?
    ensures FrequencyOf(d).Some? ==> FrequencyOf(d).value == Observation(d.id, d.finishedAt.value, 1.0)
    ensures FailureRateOf(d).Some? <==> d.isProduction && d.finishedAt.Some?
    ensures FailureRateOf(d).Some? ==>
              && FailureRateOf(d).value.key == d.id && FailureRateOf(d).value.at == d.finishedAt.value
              && (FailureRateOf(d).value.value >= 0.5 <==> d.status == RunStatus.Failure || d.hasIncident)
  {
  }

  /** All observations of a list of events, whenever they happened. */
  function Observed<T>(items: seq<T>, observe: T -> Option<Observation>): seq<Observation> {
    if items == [] then []
    else
      var last := observe(items[|items| - 1]);
      Observed(items[..|items| - 1], observe) + (if last.Some? then [last.value] else [])
  }

  predicate InPeriod(at: Instant, bucket: Bucket) {
    bucket.start <= at < bucket.end
  }

  function InBucket(observations: seq<Observation>, bucket: Bucket): seq<Observation> {
    if observations == [] then []
    else
      var last := observations[|observations| - 1];
      InBucket(observations[..|observations| - 1], bucket) + (if InPeriod(last.at, bucket) then [last] else [])
  }

  function Failing(observations: seq<Observation>): nat {
    if observations == [] then 0
    else Failing(observations[..|observations| - 1]) + (if observations[|observations| - 1].value >= 0.5 then 1 else 0)
  }

  function Values(observations: seq<Observation>): seq<real> {
    seq(|observations|, i requires 0 <= i < |observations| => observations[i].value)
  }

  /** One more event, seen through the bucket. */
  lemma OneMore<T>(items: seq<T>, i: nat, observe: T -> Option<Observation>, bucket: Bucket)
    requires i < |items|
    ensures var (before, after) := (InBucket(Observed(items[..i], observe), bucket),
                                    InBucket(Observed(items[..i + 1], observe), bucket));
            var o := observe(items[i]);
            && after == before + (if o.Some? && InPeriod(o.value.at, bucket) then [o.value] else [])
            && Failing(after) == Failing(before)
                 + (if o.Some? && InPeriod(o.value.at, bucket) && o.value.value >= 0.5 then 1 else 0)
  {
    assert items[..i + 1][..i] == items[..i];
    var (before, o) := (Observed(items[..i], observe), observe(items[i]));
    if o.Some? {
      assert (before + [o.value])[..|before|] == before;
      var kept := InBucket(before, bucket);
      FailingSnoc(kept, o.value);
      assert kept + [] == kept;
    } else {
      assert before + [] == before;
    }
  }

  method CalculateDeploymentFrequency(bucket: Bucket, deployments: seq<DeploymentItem>)
    returns (count: nat, observations: seq<Observation>)
    ensures observations == InBucket(Observed(deployments, FrequencyOf), bucket)
    ensures count == |observations|
  {
    count, observations := 0, [];
    for i := 0 to |deployments|
      invariant observations == InBucket(Observed(deployments[..i], FrequencyOf), bucket)
      invariant count == |observations|
    {
      OneMore(deployments, i, FrequencyOf, bucket);
      var d := deployments[i];
      if d.isProduction && d.status.Success? && d.finishedAt.Some? && bucket.start <= d.finishedAt.value < bucket.end {
        count := count + 1;
        observations := observations + [Observation(d.id, d.finishedAt.value, 1.0)];
      }
    }
    assert deployments[..|deployments|] == deployments;
  }

  method CalculateChangeFailureRate(bucket: Bucket, deployments: seq<DeploymentItem>)
    returns (total: nat, failed: nat, percent: real, observations: seq<Observation>)
    ensures observations == InBucket(Observed(deployments, FailureRateOf), bucket)
    ensures total == |observations| && failed == Failing(observations)
    ensures percent == if total == 0 then 0.0 else failed as real / total as real * 100.0
  {
    total, failed, observations := 0, 0, [];
    for i := 0 to |deployments|
      invariant observations == InBucket(Observed(deployments[..i], FailureRateOf), bucket)
      invariant total == |observations| && failed == Failing(observations)
    {
      OneMore(deployments, i, FailureRateOf, bucket);
      var d := deployments[i];
      if d.isProduction && d.finishedAt.Some? && bucket.start <= d.finishedAt.value < bucket.end {
        total := total + 1;
        var bad := d.status.Failure? || d.hasIncident;
        if bad {
          failed := failed + 1;
        }
        observations := observations + [Observation(d.id, d.finishedAt.value, if bad then 1.0 else 0.0)];
      }
    }
    assert deployments[..|deployments|] == deployments;
    percent := if total == 0 then 0.0 else failed as real / total as real * 100.0;
  }

  /** The median of a bucket's measurements, zero when there are none. */
  function MedianOrZero(observations: seq<Observation>): real {
    var summary := ComputePercentiles(Values(observations));
    if summary.None? then 0.0 else summary.value.p50
  }

  method CalculateChangeLeadTime(bucket: Bucket, items: seq<LeadItem>)
    returns (hours: real, observations: seq<Observation>)
    ensures observations == InBucket(Observed(items, LeadTimeOf), bucket)
    ensures hours == MedianOrZero(observations)
  {
    observations := [];
    for i := 0 to |items|
      invariant observations == InBucket(Observed(items[..i], LeadTimeOf), bucket)
    {
      OneMore(items, i, LeadTimeOf, bucket);
      var item := items[i];
      if item.isProduction && item.status.Success? && item.finishedAt.Some? && item.firstCommitAt.Some?
         && bucket.start <= item.finishedAt.value < bucket.end
      {
        var lead := item.finishedAt.value - item.firstCommitAt.value;
        if lead >= 0 {
          observations := observations
            + [Observation(item.deploymentId + ":" + item.pullRequestId, item.finishedAt.value, Hours(lead))];
        }
      }
    }
    assert items[..|items|] == items;
    hours := MedianOrZero(observations);
  }

  method CalculateRecoveryTime(bucket: Bucket, incidents: seq<IncidentItem>)
    returns (hours: real, observations: seq<Observation>)
    ensures observations == InBucket(Observed(incidents, RecoveryOf), bucket)
    ensures hours == MedianOrZero(observations)
  {
    observations := [];
    for i := 0 to |incidents|
      invariant observations == InBucket(Observed(incidents[..i], RecoveryOf), bucket)
    {
      OneMore(incidents, i, RecoveryOf, bucket);
      var incident := incidents[i];
      var resolved := OrElse(incident.recoveryFinishedAt, incident.resolvedAt);
      var detected := OrElse(incident.detectedAt, incident.createdAt);
      if resolved.Some? && detected.Some? && bucket.start <= resolved.value < bucket.end {
        var recovery := resolved.value - detected.value;
        if recovery >= 0 {
          observations := observations + [Observation(incident.id, resolved.value, Hours(recovery))];
        }
      }
    }
    assert incidents[..|incidents|] == incidents;
    hours := MedianOrZero(observations);
  }

  // ----- sums over buckets ---------------------------------------------------------------------

  lemma {:induction false} CountsSplit(observations: seq<Observation>, a: Instant, b: Instant, c: Instant)
    requires a <= b <= c
    ensures var (left, right, all) := (InBucket(observations, Bucket(a, b)), InBucket(observations, Bucket(b, c)),
                                       InBucket(observations, Bucket(a, c)));
            |left| + |right| == |all| && Failing(left) + Failing(right) == Failing(all)
  {
    if observations != [] {
      var rest := observations[..|observations| - 1];
      var last := observations[|observations| - 1];
      CountsSplit(rest, a, b, c);
      FailingSnoc(InBucket(rest, Bucket(a, b)), last);
      FailingSnoc(InBucket(rest, Bucket(b, c)), last);
      FailingSnoc(InBucket(rest, Bucket(a, c)), last);
    }
  }

  lemma FailingSnoc(observations: seq<Observation>, last: Observation)
    ensures Failing(observations + [last]) == Failing(observations) + (if last.value >= 0.5 then 1 else 0)
    ensures Failing(observations + []) == Failing(observations)
  {
    assert (observations + [last])[..|observations|] == observations;
    assert observations + [] == observations;
  }

  /** Totals and failures of n consecutive periods, summed. */
  function SumOver(observations: seq<Observation>, bound: Bounds, first: int, n: nat): (nat, nat) {
    if n == 0 then (0, 0)
    else
      var (total, failed) := SumOver(observations, bound, first, n - 1);
      var here := InBucket(observations, Period(bound, first + n - 1));
      (total + |here|, failed + Failing(here))
  }

  /** Over any tiling, totals and failures of the buckets sum to those of their hull. */
  lemma {:induction false} BucketsAddUp(observations: seq<Observation>, bound: Bounds, first: int, n: nat)
    requires Rising(bound)
    ensures var hull := InBucket(observations, Bucket(bound(first), bound(first + n)));
            SumOver(observations, bound, first, n) == (|hull|, Failing(hull))
  {
    if n == 0 {
      EmptyPeriod(observations, bound(first));
    } else {
      BucketsAddUp(observations, bound, first, n - 1);
      assert n > 1 ==> bound(first) <= bound(first + n - 1);
      assert bound(first + n - 1) <= bound(first + n);
      CountsSplit(observations, bound(first), bound(first + n - 1), bound(first + n));
    }
  }

  lemma {:induction false} EmptyPeriod(observations: seq<Observation>, t: Instant)
    ensures InBucket(observations, Bucket(t, t)) == []
  {
    if observations != [] {
      EmptyPeriod(observations[..|observations| - 1], t);
    }
  }

  /** A week's deployments, totals and failures are those of its seven days, across clock changes. */
  lemma WeekIsItsDays(zone: Zone, week: int, observations: seq<Observation>)
    requires ZoneOk(zone)
    ensures var whole := InBucket(observations, Period(Boundaries(zone, Week), week));
            SumOver(observations, Boundaries(zone, Day), 7 * week + 1, 7) == (|whole|, Failing(whole))
  {
    BoundariesRise(zone, Day);
    BucketsAddUp(observations, Boundaries(zone, Day), 7 * week + 1, 7);
  }
}
