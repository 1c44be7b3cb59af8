/** Consecutive periods cut by a rising sequence of boundaries, and the ones a range touches. */
module Periods {
  import opened Prelude
  import opened Jobs

  datatype Bucket = Bucket(start: Instant, end: Instant)

  type Bounds = int -> Instant

  /** Boundaries never go back; a period may be empty, but two in a row are not. */
  ghost predicate Rising(bound: Bounds) {
    forall j, k | j < k :: bound(j) <= bound(k) && (j + 1 < k ==> bound(j) < bound(k))
  }

  function Period(bound: Bounds, k: int): Bucket {
    Bucket(bound(k), bound(k + 1))
  }

  /** `count` consecutive periods from period `first` on. */
  function PeriodsFrom(bound: Bounds, first: int, count: nat): (buckets: seq<Bucket>)
    ensures |buckets| == count
    ensures forall i | 0 <= i < count :: buckets[i] == Period(bound, first + i)
  {
    seq(count, i => Period(bound, first + i))
  }

  lemma OneMorePeriod(bound: Bounds, first: int, count: nat)
    ensures PeriodsFrom(bound, first, count) + [Period(bound, first + count)] == PeriodsFrom(bound, first, count + 1)
  {
  }

  lemma EndsOfPeriods(bound: Bounds, first: int, buckets: seq<Bucket>)
    requires buckets != [] && buckets == PeriodsFrom(bound, first, |buckets|)
    ensures buckets[0].start == bound(first) && buckets[|buckets| - 1].end == bound(first + |buckets|)
  {
    assert buckets[|buckets| - 1] == Period(bound, first + (|buckets| - 1));
  }

  /** Boundaries grow without end: two periods on, at least one instant later. */
  lemma {:induction false} BoundariesGrow(bound: Bounds, first: int, n: nat)
    requires Rising(bound)
    ensures bound(first) + n <= bound(first + 2 * n)
  {
    if 0 < n {
      BoundariesGrow(bound, first, n - 1);
      assert bound(first + 2 * (n - 1)) < bound(first + 2 * n);
    }
  }

  /** No period from `goal` on starts before `until`. */
  ghost predicate PastAll(bound: Bounds, goal: int, until: Instant) {
    forall k | bound(k) < until :: k < goal
  }

  lemma EndInSight(bound: Bounds, until: Instant) returns (goal: int)
    requires Rising(bound)
    ensures PastAll(bound, goal, until)
  {
    var n := Max(0, until - bound(0));
    BoundariesGrow(bound, 0, n);
    goal := 2 * n;
    forall k | bound(k) < until ensures k < goal {
      assert goal < k ==> bound(goal) <= bound(k);
    }
  }

  /** Period k touches [from, until]. */
  ghost predicate Touches(bound: Bounds, k: int, from: Instant, until: Instant) {
    bound(k + 1) > from && bound(k) <= until
  }

  /** `affected` lists, in order, the touched ones among periods first, first + 1, ..., first + n - 1. */
  ghost predicate TouchedIndexes(bound: Bounds, from: Instant, until: Instant, first: int, n: nat, affected: seq<int>) {
    && (forall x :: x in affected <==> 0 <= x < n && Touches(bound, first + x, from, until))
    && (forall x, y | 0 <= x < y < |affected| :: affected[x] < affected[y])
  }

  lemma TouchedGrows(bound: Bounds, from: Instant, until: Instant, first: int, n: nat, affected: seq<int>)
    requires TouchedIndexes(bound, from, until, first, n, affected)
    ensures TouchedIndexes(bound, from, until, first, n + 1,
                           if Touches(bound, first + n, from, until) then affected + [n] else affected)
  {
    var grown := if Touches(bound, first + n, from, until) then affected + [n] else affected;
    assert forall x | 0 <= x < |affected| :: affected[x] in affected && grown[x] == affected[x];
    forall x ensures x in grown <==> 0 <= x < n + 1 && Touches(bound, first + x, from, until) {
      assert x in grown <==> x in affected || (x == n && Touches(bound, first + n, from, until));
    }
  }

  /** What padding the range before cutting the candidates guarantees. */
  ghost predicate WellPadded(bound: Bounds, from: Instant, until: Instant, first: int, n: nat, padding: int) {
    && Rising(bound) && from <= until && 0 < padding
    && bound(first) <= from - padding && bound(first + 1) <= bound(first) + padding
    && until + padding <= bound(first + n)
  }

  /**
    When the candidates start a padding before the range and end a padding after it, and the first
    of them is no longer than the padding, every touched period is a candidate other than the first.
  */
  lemma TouchedAreCandidates(bound: Bounds, from: Instant, until: Instant, first: int, n: nat, padding: int, k: int)
    requires WellPadded(bound, from, until, first, n, padding) && Touches(bound, k, from, until)
    ensures first < k < first + n
  {
    assert k <= first ==> k == first || bound(k + 1) <= bound(first + 1);
    assert first + n <= k ==> k == first + n || bound(first + n) <= bound(k);
  }

  lemma TouchedIsConvex(bound: Bounds, from: Instant, until: Instant, p: int, k: int, q: int)
    requires Rising(bound) && p <= k <= q
    requires Touches(bound, p, from, until) && Touches(bound, q, from, until)
    ensures Touches(bound, k, from, until)
  {
    assert p < k ==> bound(p + 1) <= bound(k + 1);
    assert k < q ==> bound(k) <= bound(q);
  }

  /** Some period of the candidates contains `from`. */
  lemma {:induction false} SomethingTouched(bound: Bounds, from: Instant, until: Instant, first: int, n: nat)
    requires from <= until && bound(first) <= from < bound(first + n)
    ensures exists k | first <= k < first + n :: Touches(bound, k, from, until)
    decreases n
  {
    if bound(first + n - 1) <= from {
      assert Touches(bound, first + n - 1, from, until);
    } else {
      SomethingTouched(bound, from, until, first, n - 1);
    }
  }

  /** A touched period is one of the listed candidates, so it lies between the first and the last listed. */
  lemma TouchedIsListed(bound: Bounds, from: Instant, until: Instant, first: int, n: nat, affected: seq<int>, k: int)
    requires TouchedIndexes(bound, from, until, first, n, affected)
    requires first <= k < first + n && Touches(bound, k, from, until)
    ensures affected != [] && first + affected[0] <= k <= first + affected[|affected| - 1]
  {
    assert first + (k - first) == k;
    assert k - first in affected;
    var i :| 0 <= i < |affected| && affected[i] == k - first;
  }

  /** The touched candidates are all the touched periods, one unbroken run that skips the first candidate. */
  lemma RangeIsTouched(bound: Bounds, from: Instant, until: Instant, first: int, n: nat, padding: int,
                       affected: seq<int>)
    requires WellPadded(bound, from, until, first, n, padding)
    requires TouchedIndexes(bound, from, until, first, n, affected)
    ensures affected != [] && 1 <= affected[0] <= affected[|affected| - 1] < n
    ensures forall k :: Touches(bound, k, from, until) <==> first + affected[0] <= k <= first + affected[|affected| - 1]
  {
    SomethingTouched(bound, from, until, first, n);
    var some :| first <= some < first + n && Touches(bound, some, from, until);
    TouchedIsListed(bound, from, until, first, n, affected, some);
    var (low, high) := (first + affected[0], first + affected[|affected| - 1]);
    assert affected[0] in affected && affected[|affected| - 1] in affected;
    TouchedAreCandidates(bound, from, until, first, n, padding, low);
    forall k ensures Touches(bound, k, from, until) <==> low <= k <= high {
      if Touches(bound, k, from, until) {
        TouchedAreCandidates(bound, from, until, first, n, padding, k);
        TouchedIsListed(bound, from, until, first, n, affected, k);
      }
      if low <= k <= high {
        TouchedIsConvex(bound, from, until, low, k, high);
      }
    }
  }

  /** Consecutive periods leave no instant between their ends uncovered. */
  lemma PeriodsLeaveNoGap(bound: Bounds, first: int, buckets: seq<Bucket>, t: Instant)
    requires buckets != [] && buckets == PeriodsFrom(bound, first, |buckets|)
    requires buckets[0].start <= t < buckets[|buckets| - 1].end
    ensures exists b | b in buckets :: b.start <= t < b.end
  {
    EndsOfPeriods(bound, first, buckets);
    SomethingTouched(bound, t, t, first, |buckets|);
    var k :| first <= k < first + |buckets| && Touches(bound, k, t, t);
    var b := buckets[k - first];
    assert b == Period(bound, first + (k - first));
    assert b in buckets;
  }

  /** The touched periods p..q and nothing else, with the one before them. */
  ghost predicate TouchedAndPreceding(bound: Bounds, from: Instant, until: Instant, p: int, q: int,
                                      buckets: seq<Bucket>)
  {
    && p <= q && buckets == PeriodsFrom(bound, p - 1, q - p + 2)
    && forall k :: Touches(bound, k, from, until) <==> p <= k <= q
  }

  lemma {:induction false} SliceIsExact(bound: Bounds, from: Instant, until: Instant, first: int, padding: int,
                                        candidates: seq<Bucket>, affected: seq<int>)
    requires WellPadded(bound, from, until, first, |candidates|, padding)
    requires candidates == PeriodsFrom(bound, first, |candidates|)
    requires TouchedIndexes(bound, from, until, first, |candidates|, affected)
    ensures affected != [] && 1 <= affected[0] <= affected[|affected| - 1] < |candidates|
    ensures TouchedAndPreceding(bound, from, until, first + affected[0], first + affected[|affected| - 1],
                                candidates[Max(0, affected[0] - 1)..affected[|affected| - 1] + 1])
  {
    RangeIsTouched(bound, from, until, first, |candidates|, padding, affected);
    assert candidates[affected[0] - 1..affected[|affected| - 1] + 1]
        == PeriodsFrom(bound, first + affected[0] - 1, affected[|affected| - 1] - affected[0] + 2);
  }

  /** Candidates that reach a padding beyond both ends of the range are well padded. */
  lemma ReachingBothEnds(bound: Bounds, from: Instant, until: Instant, first: int, padding: int,
                         candidates: seq<Bucket>)
    requires Rising(bound) && from <= until && 0 < padding && bound(first + 1) <= bound(first) + padding
    requires candidates != [] && candidates == PeriodsFrom(bound, first, |candidates|)
    requires candidates[0].start <= from - padding && until + padding <= candidates[|candidates| - 1].end
    ensures WellPadded(bound, from, until, first, |candidates|, padding)
  {
    EndsOfPeriods(bound, first, candidates);
  }

  method AffectedIndexes(candidates: seq<Bucket>, from: Instant, until: Instant, ghost bound: Bounds, ghost first: int)
    returns (affected: seq<int>)
    requires candidates == PeriodsFrom(bound, first, |candidates|)
    ensures TouchedIndexes(bound, from, until, first, |candidates|, affected)
  {
    affected := [];
    for i := 0 to |candidates|
      invariant TouchedIndexes(bound, from, until, first, i, affected)
    {
      TouchedGrows(bound, from, until, first, i, affected);
      assert candidates[i] == Period(bound, first + i);
      if candidates[i].end > from && candidates[i].start <= until {
        affected := affected + [i];
      }
    }
  }

  /** The touched candidates, widened by one to the left (never below index 0), as a slice. */
  method SliceTouched(candidates: seq<Bucket>, from: Instant, until: Instant,
                      ghost bound: Bounds, ghost first: int, ghost padding: int)
    returns (buckets: seq<Bucket>, ghost p: int, ghost q: int)
    requires WellPadded(bound, from, until, first, |candidates|, padding)
    requires candidates == PeriodsFrom(bound, first, |candidates|)
    ensures TouchedAndPreceding(bound, from, until, p, q, buckets)
  {
    var affected := AffectedIndexes(candidates, from, until, bound, first);
    SliceIsExact(bound, from, until, first, padding, candidates, affected);
    p, q := first + affected[0], first + affected[|affected| - 1];
    buckets := candidates[Max(0, affected[0] - 1)..affected[|affected| - 1] + 1];
  }
}
