/** Interpolated percentiles and the separately written alert median, over exact reals, before rounding. */
module Percentiles {
  import opened Prelude

  predicate Ascending(s: seq<real>) {
    forall i, j | 0 <= i < j < |s| :: s[i] <= s[j]
  }

  function Insert(x: real, s: seq<real>): seq<real> {
    if s == [] || x <= s[0] then [x] + s else [s[0]] + Insert(x, s[1..])
  }

  function Sorted(s: seq<real>): seq<real> {
    if s == [] then [] else Insert(s[0], Sorted(s[1..]))
  }

  lemma {:induction false} InsertAdds(x: real, s: seq<real>)
    ensures multiset(Insert(x, s)) == multiset(s) + multiset{x}
  {
    if s != [] && x > s[0] {
      InsertAdds(x, s[1..]);
      assert s == [s[0]] + s[1..];
    }
  }

  lemma HeadBelow(x: real, s: seq<real>)
    requires Ascending(s) && forall y | y in multiset(s) :: x <= y
    ensures Ascending([x] + s)
  {
    assert forall i | 0 <= i < |s| :: s[i] in multiset(s);
  }

  lemma {:induction false} InsertKeepsOrder(x: real, s: seq<real>)
    requires Ascending(s)
    ensures Ascending(Insert(x, s))
  {
    if s == [] || x <= s[0] {
      HeadBelow(x, s);
    } else {
      InsertKeepsOrder(x, s[1..]);
      InsertAdds(x, s[1..]);
      assert forall y | y in multiset(s[1..]) :: s[0] <= y;
      HeadBelow(s[0], Insert(x, s[1..]));
    }
  }

  lemma {:induction false} SortedKeepsElements(s: seq<real>)
    ensures multiset(Sorted(s)) == multiset(s)
  {
    if s != [] {
      SortedKeepsElements(s[1..]);
      InsertAdds(s[0], Sorted(s[1..]));
      assert s == [s[0]] + s[1..];
    }
  }

  lemma {:induction false} SortedIsAscending(s: seq<real>)
    ensures Ascending(Sorted(s)) && multiset(Sorted(s)) == multiset(s) && |Sorted(s)| == |s|
  {
    SortedKeepsElements(s);
    if s != [] {
      SortedIsAscending(s[1..]);
      InsertKeepsOrder(s[0], Sorted(s[1..]));
    }
    assert |multiset(Sorted(s))| == |Sorted(s)| && |multiset(s)| == |s|;
  }

  lemma FirstIsLeast(s: seq<real>, x: real)
    requires s != [] && Ascending(s) && x in multiset(s)
    ensures s[0] <= x
  {
  }

  lemma TailOf(s: seq<real>)
    requires s != []
    ensures multiset(s[1..]) == multiset(s) - multiset{s[0]}
  {
    assert s == [s[0]] + s[1..];
  }

  lemma HeadsAgree(s: seq<real>, t: seq<real>)
    requires s != [] && t != [] && Ascending(s) && Ascending(t) && multiset(s) == multiset(t)
    ensures s[0] == t[0] && multiset(s[1..]) == multiset(t[1..])
  {
    assert s[0] in multiset(s) && t[0] in multiset(t);
    FirstIsLeast(s, t[0]);
    FirstIsLeast(t, s[0]);
    TailOf(s);
    TailOf(t);
  }

  lemma SameLength(s: seq<real>, t: seq<real>)
    requires multiset(s) == multiset(t)
    ensures |s| == |t|
  {
    assert |multiset(s)| == |s| && |multiset(t)| == |t|;
  }

  /** An ascending listing is determined by its elements. */
  lemma {:induction false} AscendingIsUnique(s: seq<real>, t: seq<real>)
    requires Ascending(s) && Ascending(t) && multiset(s) == multiset(t)
    ensures s == t
    decreases |s|
  {
    SameLength(s, t);
    if s != [] {
      HeadsAgree(s, t);
      AscendingIsUnique(s[1..], t[1..]);
      assert s == [s[0]] + s[1..] && t == [t[0]] + t[1..];
    }
  }

  lemma SortingForgetsOrder(s: seq<real>, t: seq<real>)
    requires multiset(s) == multiset(t)
    ensures Sorted(s) == Sorted(t)
  {
    SortedIsAscending(s);
    SortedIsAscending(t);
    AscendingIsUnique(Sorted(s), Sorted(t));
  }

  function Lerp(a: real, b: real, weight: real): real {
    a * (1.0 - weight) + b * weight
  }

  /** The value at a fractional rank between 0 and the last index. */
  function AtRank(sorted: seq<real>, rank: real): real
    requires sorted != [] && 0.0 <= rank <= (|sorted| - 1) as real
  {
    var lower := rank.Floor;
    Lerp(sorted[lower], sorted[Min(lower + 1, |sorted| - 1)], rank - lower as real)
  }

  function Scaled(p: real, k: real): real {
    p * k
  }

  lemma ScaledRises(p: real, q: real, k: real)
    requires p <= q && 0.0 <= k
    ensures Scaled(p, k) <= Scaled(q, k)
    ensures Scaled(0.0, k) == 0.0 && Scaled(0.5, k) == k / 2.0 && Scaled(1.0, k) == k
    ensures Scaled(0.75, k) == 3.0 * k / 4.0 && Scaled(0.9, k) == 9.0 * k / 10.0
  {
    assert Scaled(q, k) - Scaled(p, k) == (q - p) * k;
  }

  function Rank(p: real, n: int): (rank: real)
    requires 0.0 <= p <= 1.0 && 1 <= n
    ensures 0.0 <= rank <= (n - 1) as real
  {
    ScaledRises(0.0, p, (n - 1) as real);
    ScaledRises(p, 1.0, (n - 1) as real);
    Scaled(p, (n - 1) as real)
  }

  /** `_percentile` on a sorted, non-empty list. */
  function Percentile(sorted: seq<real>, p: real): real
    requires sorted != [] && 0.0 <= p <= 1.0
  {
    if |sorted| == 1 then sorted[0] else AtRank(sorted, Rank(p, |sorted|))
  }

  lemma LerpBetween(a: real, b: real, v: real, w: real)
    requires a <= b && 0.0 <= v <= w <= 1.0
    ensures a <= Lerp(a, b, v) <= Lerp(a, b, w) <= b
  {
    assert Lerp(a, b, v) == a + Scaled(v, b - a);
    assert Lerp(a, b, w) == a + Scaled(w, b - a);
    ScaledRises(0.0, v, b - a);
    ScaledRises(v, w, b - a);
    assert Lerp(a, b, w) == b - Scaled(1.0 - w, b - a);
    ScaledRises(0.0, 1.0 - w, b - a);
  }

  lemma RankBetween(sorted: seq<real>, rank: real)
    requires sorted != [] && Ascending(sorted) && 0.0 <= rank <= (|sorted| - 1) as real
    ensures sorted[rank.Floor] <= AtRank(sorted, rank) <= sorted[Min(rank.Floor + 1, |sorted| - 1)]
  {
    LerpBetween(sorted[rank.Floor], sorted[Min(rank.Floor + 1, |sorted| - 1)], rank - rank.Floor as real, 1.0);
  }

  lemma RankMonotone(sorted: seq<real>, r: real, t: real)
    requires sorted != [] && Ascending(sorted) && 0.0 <= r <= t <= (|sorted| - 1) as real
    ensures AtRank(sorted, r) <= AtRank(sorted, t)
  {
    var (low, high) := (r.Floor, t.Floor);
    if low == high {
      LerpBetween(sorted[low], sorted[Min(low + 1, |sorted| - 1)], r - low as real, t - low as real);
    } else {
      RankBetween(sorted, r);
      RankBetween(sorted, t);
      assert sorted[low + 1] <= sorted[high];
    }
  }

  lemma RankBounds(sorted: seq<real>, rank: real)
    requires sorted != [] && Ascending(sorted) && 0.0 <= rank <= (|sorted| - 1) as real
    ensures sorted[0] <= AtRank(sorted, rank) <= sorted[|sorted| - 1]
  {
    RankBetween(sorted, rank);
  }

  lemma RankRises(p: real, q: real, n: int)
    requires 0.0 <= p <= q <= 1.0 && 1 <= n
    ensures Rank(p, n) <= Rank(q, n)
  {
    ScaledRises(p, q, (n - 1) as real);
  }

  /** Percentiles rise with p and stay between the least and the greatest value. */
  lemma PercentileMonotone(sorted: seq<real>, p: real, q: real)
    requires sorted != [] && Ascending(sorted) && 0.0 <= p <= q <= 1.0
    ensures sorted[0] <= Percentile(sorted, p) <= Percentile(sorted, q) <= sorted[|sorted| - 1]
  {
    var n := |sorted|;
    RankRises(p, q, n);
    RankMonotone(sorted, Rank(p, n), Rank(q, n));
    RankBounds(sorted, Rank(p, n));
    RankBounds(sorted, Rank(q, n));
  }

  /** The value at a rank from k up to k + 1 lies on the line between the two values there. */
  predicate OnLine(sorted: seq<real>, rank: real, value: real, k: nat) {
    k < |sorted| && k as real <= rank < k as real + 1.0
    && if k + 1 < |sorted| then value - sorted[k] == (rank - k as real) * (sorted[k + 1] - sorted[k])
       else value == sorted[k]
  }

  ghost predicate Interpolates(sorted: seq<real>, rank: real, value: real) {
    exists k: nat :: OnLine(sorted, rank, value, k)
  }

  lemma LerpIsOnLine(a: real, b: real, w: real)
    ensures Lerp(a, b, w) - a == Scaled(w, b - a)
  {
  }

  lemma PercentileInterpolates(sorted: seq<real>, p: real)
    requires sorted != [] && 0.0 <= p <= 1.0
    ensures Interpolates(sorted, Scaled(p, (|sorted| - 1) as real), Percentile(sorted, p))
  {
    var rank := Rank(p, |sorted|);
    var k := rank.Floor;
    LerpIsOnLine(sorted[k], sorted[Min(k + 1, |sorted| - 1)], rank - k as real);
    assert rank == Scaled(p, (|sorted| - 1) as real) && k < |sorted|;
    assert k + 1 == |sorted| ==> rank == k as real;
    assert OnLine(sorted, rank, Percentile(sorted, p), k);
  }

  datatype Summary = Summary(p50: real, p75: real, p90: real)

  /** `compute_percentiles`, before rounding and without the mean. */
  function ComputePercentiles(values: seq<real>): Option<Summary> {
    if values == [] then None
    else
      SortedIsAscending(values);
      var sorted := Sorted(values);
      Some(Summary(Percentile(sorted, 0.5), Percentile(sorted, 0.75), Percentile(sorted, 0.9)))
  }

  /** The middle value, or the mean of the two middle ones. */
  function Middle(sorted: seq<real>): real
    requires sorted != []
  {
    var middle := |sorted| / 2;
    if |sorted| % 2 == 1 then sorted[middle] else (sorted[middle - 1] + sorted[middle]) / 2.0
  }

  /** `_median` of the alert evaluator. */
  function Median(values: seq<real>): real
    requires values != []
  {
    SortedIsAscending(values);
    Middle(Sorted(values))
  }

  /** The summary interpolates the sorted values at half, three quarters and nine tenths of the last index. */
  lemma SummaryInterpolates(values: seq<real>)
    requires values != []
    ensures |Sorted(values)| == |values|
    ensures var (s, last) := (ComputePercentiles(values).value, (|values| - 1) as real);
            && Interpolates(Sorted(values), Scaled(0.5, last), s.p50)
            && Interpolates(Sorted(values), Scaled(0.75, last), s.p75)
            && Interpolates(Sorted(values), Scaled(0.9, last), s.p90)
  {
    SortedIsAscending(values);
    assert |multiset(values)| == |values| && |multiset(Sorted(values))| == |Sorted(values)|;
    PercentileInterpolates(Sorted(values), 0.5);
    PercentileInterpolates(Sorted(values), 0.75);
    PercentileInterpolates(Sorted(values), 0.9);
  }

  /** Percentiles do not depend on the order of the values, are in order, and stay within the values. */
  lemma PercentilesAreSound(values: seq<real>, shuffled: seq<real>)
    requires values != [] && multiset(values) == multiset(shuffled)
    ensures ComputePercentiles(values) == ComputePercentiles(shuffled)
    ensures var s := ComputePercentiles(values).value;
            && s.p50 <= s.p75 <= s.p90
            && (exists least | least in values :: least <= s.p50 && forall v | v in values :: least <= v)
            && (exists greatest | greatest in values :: s.p90 <= greatest && forall v | v in values :: v <= greatest)
  {
    SortingForgetsOrder(values, shuffled);
    assert |multiset(values)| == |multiset(shuffled)|;
    SortedIsAscending(values);
    var sorted := Sorted(values);
    SortedAreSound(sorted);
    EndsBound(values, sorted);
  }

  lemma SortedAreSound(sorted: seq<real>)
    requires sorted != [] && Ascending(sorted)
    ensures sorted[0] <= Percentile(sorted, 0.5) <= Percentile(sorted, 0.75) <= Percentile(sorted, 0.9)
         <= sorted[|sorted| - 1]
  {
    PercentileMonotone(sorted, 0.5, 0.75);
    PercentileMonotone(sorted, 0.75, 0.9);
  }

  lemma EndsBound(values: seq<real>, sorted: seq<real>)
    requires sorted != [] && Ascending(sorted) && multiset(sorted) == multiset(values)
    ensures sorted[0] in values && forall v | v in values :: sorted[0] <= v
    ensures sorted[|sorted| - 1] in values && forall v | v in values :: v <= sorted[|sorted| - 1]
  {
    assert sorted[0] in multiset(sorted) && sorted[|sorted| - 1] in multiset(sorted);
    forall v | v in values ensures sorted[0] <= v <= sorted[|sorted| - 1] {
      assert v in multiset(sorted);
    }
  }

  /** The interpolated p50 and the alert median are the same number. */
  lemma MedianIsP50(values: seq<real>)
    requires values != []
    ensures ComputePercentiles(values) == Some(ComputePercentiles(values).value.(p50 := Median(values)))
  {
    SortedIsAscending(values);
    MiddleIsP50(Sorted(values));
  }

  lemma MiddleIsP50(sorted: seq<real>)
    requires sorted != []
    ensures Percentile(sorted, 0.5) == Middle(sorted)
  {
    var n := |sorted|;
    var rank := Rank(0.5, n);
    if n % 2 == 1 {
      assert n - 1 == 2 * (n / 2);
      assert rank == (n / 2) as real;
    } else {
      assert n - 1 == 2 * (n / 2 - 1) + 1;
      assert rank == (n / 2 - 1) as real + 0.5;
      assert rank.Floor == n / 2 - 1;
    }
  }
}
