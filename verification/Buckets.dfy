/**
  Calendar buckets as UTC instants. The workspace time zone is any map from local days to the
  instants of their midnights that never goes back, in which no local day is longer than 48 hours and
  no two days in a row are empty. A zone that crosses the date line may skip one local day.
*/
module Buckets {
  import opened Prelude
  import opened Jobs
  import opened Calendar
  import opened Periods

  const DAY_LENGTH: int := 86_400_000_000

  /** `midnight(d)` is the instant at which local day d begins; `localDate(t)` the local date of t. */
  datatype Zone = Zone(midnight: int -> Instant, localDate: Instant -> Date)

  ghost predicate ZoneOk(zone: Zone) {
    && (forall d, e | d < e ::
          && 0 <= zone.midnight(e) - zone.midnight(d) <= 172_800_000_000 * (e - d)
          && (d + 1 < e ==> zone.midnight(d) < zone.midnight(e)))
    && (forall t :: ValidDate(zone.localDate(t)) && zone.midnight(Ordinal(zone.localDate(t))) <= t)
  }

  function Boundaries(zone: Zone, granularity: Granularity): Bounds {
    (k: int) => zone.midnight(PeriodDay(granularity, k))
  }

  function FirstPeriod(zone: Zone, granularity: Granularity, t: Instant): int
    requires ValidDate(zone.localDate(t))
  {
    PeriodOf(granularity, zone.localDate(t))
  }

  /** 2, 14 or 62 days. */
  function Padding(granularity: Granularity): int {
    match granularity
    case Day => 2 * DAY_LENGTH
    case Week => 14 * DAY_LENGTH
    case Month => 62 * DAY_LENGTH
  }

  lemma BoundariesRise(zone: Zone, granularity: Granularity)
    requires ZoneOk(zone)
    ensures Rising(Boundaries(zone, granularity))
  {
    var bound := Boundaries(zone, granularity);
    forall j, k | j < k ensures bound(j) <= bound(k) && (j + 1 < k ==> bound(j) < bound(k)) {
      PeriodsIncrease(granularity, j, k);
    }
  }

  /** The padding is at least the longest period: its number of days, each of up to 48 hours. */
  lemma PeriodFitsPadding(zone: Zone, granularity: Granularity, k: int)
    requires ZoneOk(zone)
    ensures Boundaries(zone, granularity)(k + 1) <= Boundaries(zone, granularity)(k) + Padding(granularity)
  {
    PeriodLength(granularity, k);
    DaysFit(zone, PeriodDay(granularity, k), PeriodDay(granularity, k + 1), LongestPeriod(granularity));
  }

  lemma DaysFit(zone: Zone, d: int, e: int, days: int)
    requires ZoneOk(zone) && d < e <= d + days
    ensures zone.midnight(e) - zone.midnight(d) <= 172_800_000_000 * days
  {
  }

  lemma FirstPeriodStartsBefore(zone: Zone, granularity: Granularity, t: Instant)
    requires ZoneOk(zone)
    ensures Boundaries(zone, granularity)(FirstPeriod(zone, granularity, t)) <= t
  {
    var date := zone.localDate(t);
    DateInItsPeriod(granularity, date);
    MidnightOrder(zone, PeriodDay(granularity, PeriodOf(granularity, date)), Ordinal(date));
    assert zone.midnight(Ordinal(date)) <= t;
  }

  lemma MidnightOrder(zone: Zone, d: int, e: int)
    requires ZoneOk(zone) && d <= e
    ensures zone.midnight(d) <= zone.midnight(e)
  {
  }

  /**
    The buckets covering [from, until): consecutive calendar periods, each ending where the next
    starts, the first starting at or before `from`, the last one being the first to reach `until`.
  */
  ghost predicate Tiles(zone: Zone, granularity: Granularity, from: Instant, until: Instant, buckets: seq<Bucket>)
    requires ZoneOk(zone)
  {
    && buckets == PeriodsFrom(Boundaries(zone, granularity), FirstPeriod(zone, granularity, from), |buckets|)
    && (buckets == [] <==> from >= until)
    && (buckets != [] ==> buckets[0].start <= from && until <= buckets[|buckets| - 1].end)
    && (forall b | b in buckets :: b.start < until)
  }

  /** The loops' invariant: the buckets so far, and the local midnight to go on from. */
  ghost predicate Filling(bound: Bounds, first: int, until: Instant, buckets: seq<Bucket>, current: Instant) {
    && buckets == PeriodsFrom(bound, first, |buckets|)
    && current == bound(first + |buckets|)
    && (forall b | b in buckets :: b.start < until)
  }

  lemma FillOne(bound: Bounds, first: int, until: Instant, buckets: seq<Bucket>, current: Instant, next: Instant)
    requires Filling(bound, first, until, buckets, current) && current < until
    requires next == bound(first + |buckets| + 1)
    ensures Filling(bound, first, until, buckets + [Bucket(current, next)], next)
  {
    OneMorePeriod(bound, first, |buckets|);
  }

  /** A period that no loop passes. */
  lemma Goal(zone: Zone, granularity: Granularity, until: Instant) returns (goal: int)
    requires ZoneOk(zone)
    ensures PastAll(Boundaries(zone, granularity), goal, until)
  {
    BoundariesRise(zone, granularity);
    goal := EndInSight(Boundaries(zone, granularity), until);
  }

  lemma Filled(zone: Zone, granularity: Granularity, from: Instant, until: Instant, buckets: seq<Bucket>,
               current: Instant)
    requires ZoneOk(zone) && from < until <= current
    requires Filling(Boundaries(zone, granularity), FirstPeriod(zone, granularity, from), until, buckets, current)
    ensures Tiles(zone, granularity, from, until, buckets)
  {
    FirstPeriodStartsBefore(zone, granularity, from);
  }

  method GetPeriodBuckets(zone: Zone, from: Instant, until: Instant, granularity: Granularity)
    returns (buckets: seq<Bucket>)
    requires ZoneOk(zone)
    ensures Tiles(zone, granularity, from, until, buckets)
  {
    if from >= until {
      return [];
    }
    match granularity {
      case Day => buckets := DayBuckets(zone, from, until);
      case Week => buckets := WeekBuckets(zone, from, until);
      case Month => buckets := MonthBuckets(zone, from, until);
    }
  }

  method DayBuckets(zone: Zone, from: Instant, until: Instant) returns (buckets: seq<Bucket>)
    requires ZoneOk(zone) && from < until
    ensures Tiles(zone, Day, from, until, buckets)
  {
    ghost var goal := Goal(zone, Day, until);
    var today := Ordinal(zone.localDate(from));
    buckets := FillDays(zone, today, until, Boundaries(zone, Day), goal);
    Filled(zone, Day, from, until, buckets, Boundaries(zone, Day)(today + |buckets|));
  }

  lemma DayStart(zone: Zone, day: int)
    ensures Boundaries(zone, Day)(day) == zone.midnight(day)
  {
    assert PeriodDay(Day, day) == day;
  }

  /** The loop over days. */
  method FillDays(zone: Zone, today: int, until: Instant, ghost bound: Bounds, ghost goal: int)
    returns (buckets: seq<Bucket>)
    requires bound == Boundaries(zone, Day) && PastAll(bound, goal, until)
    ensures Filling(bound, today, until, buckets, bound(today + |buckets|)) && until <= bound(today + |buckets|)
  {
    var current := today;
    buckets := [];
    DayStart(zone, today);
    while zone.midnight(current) < until
      invariant current == today + |buckets| && Filling(bound, today, until, buckets, zone.midnight(current))
      decreases goal - today - |buckets|
    {
      var nextDay := current + 1;
      DayStart(zone, nextDay);
      FillOne(bound, today, until, buckets, zone.midnight(current), zone.midnight(nextDay));
      buckets := buckets + [Bucket(zone.midnight(current), zone.midnight(nextDay))];
      current := nextDay;
    }
  }

  method WeekBuckets(zone: Zone, from: Instant, until: Instant) returns (buckets: seq<Bucket>)
    requires ZoneOk(zone) && from < until
    ensures Tiles(zone, Week, from, until, buckets)
  {
    ghost var first := FirstPeriod(zone, Week, from);
    ghost var goal := Goal(zone, Week, until);
    var today := Ordinal(zone.localDate(from));
    DateInItsPeriod(Week, zone.localDate(from));
    buckets := FillWeeks(zone, today - Weekday(today), until, Boundaries(zone, Week), first, goal);
    Filled(zone, Week, from, until, buckets, Boundaries(zone, Week)(first + |buckets|));
  }

  /** The loop over weeks, from a Monday. */
  method FillWeeks(zone: Zone, monday: int, until: Instant, ghost bound: Bounds, ghost first: int, ghost goal: int)
    returns (buckets: seq<Bucket>)
    requires monday == PeriodDay(Week, first)
    requires bound == Boundaries(zone, Week) && PastAll(bound, goal, until)
    ensures Filling(bound, first, until, buckets, bound(first + |buckets|)) && until <= bound(first + |buckets|)
  {
    var current := monday;
    buckets := [];
    while zone.midnight(current) < until
      invariant current == PeriodDay(Week, first + |buckets|)
      invariant Filling(bound, first, until, buckets, zone.midnight(current))
      decreases goal - first - |buckets|
    {
      var nextMonday := current + 7;
      assert PeriodDay(Week, first + |buckets| + 1) == nextMonday;
      FillOne(bound, first, until, buckets, zone.midnight(current), zone.midnight(nextMonday));
      buckets := buckets + [Bucket(zone.midnight(current), zone.midnight(nextMonday))];
      current := nextMonday;
    }
  }

  function FirstDay(year: int, month: int): int
    requires 1 <= month <= 12
  {
    Ordinal(Date(year, month, 1))
  }

  function MonthStart(zone: Zone, year: int, month: int): Instant
    requires 1 <= month <= 12
  {
    zone.midnight(FirstDay(year, month))
  }

  lemma MonthStartIsBoundary(zone: Zone, year: int, month: int)
    requires 1 <= month <= 12
    ensures MonthStart(zone, year, month) == Boundaries(zone, Month)(MonthIndex(year, month))
  {
    assert MonthIndex(year, month) / 12 == year && MonthIndex(year, month) % 12 + 1 == month;
    assert PeriodDay(Month, MonthIndex(year, month)) == FirstDay(year, month);
  }

  method MonthBuckets(zone: Zone, from: Instant, until: Instant) returns (buckets: seq<Bucket>)
    requires ZoneOk(zone) && from < until
    ensures Tiles(zone, Month, from, until, buckets)
  {
    ghost var (bound, first) := (Boundaries(zone, Month), FirstPeriod(zone, Month, from));
    var (year, month) := (zone.localDate(from).year, zone.localDate(from).month);
    var current := MonthStart(zone, year, month);
    MonthStartIsBoundary(zone, year, month);
    ghost var goal := Goal(zone, Month, until);
    buckets := FillMonths(zone, year, month, current, until, bound, first, goal);
    Filled(zone, Month, from, until, buckets, bound(first + |buckets|));
  }

  /** The loop over months, from a month whose start is known. */
  method FillMonths(zone: Zone, year0: int, month0: int, start: Instant, until: Instant,
                    ghost bound: Bounds, ghost first: int, ghost goal: int)
    returns (buckets: seq<Bucket>)
    requires 1 <= month0 <= 12 && MonthIndex(year0, month0) == first && start == bound(first)
    requires bound == Boundaries(zone, Month) && PastAll(bound, goal, until)
    ensures Filling(bound, first, until, buckets, bound(first + |buckets|)) && until <= bound(first + |buckets|)
  {
    var (year, month, current) := (year0, month0, start);
    buckets := [];
    while current < until
      invariant 1 <= month <= 12 && MonthIndex(year, month) == first + |buckets|
      invariant Filling(bound, first, until, buckets, current)
      decreases goal - first - |buckets|
    {
      var (nextYear, nextMonth) := if month == 12 then (year + 1, 1) else (year, month + 1);
      var next := MonthStart(zone, nextYear, nextMonth);
      MonthStartIsBoundary(zone, nextYear, nextMonth);
      FillOne(bound, first, until, buckets, current, next);
      buckets := buckets + [Bucket(current, next)];
      year, month, current := nextYear, nextMonth, next;
    }
  }

  datatype BucketError = ReversedRange

  /** Exactly the calendar periods p..q touch the range; the buckets are those and the one before p. */
  ghost predicate Recalculated(zone: Zone, granularity: Granularity, from: Instant, until: Instant, p: int, q: int,
                               buckets: seq<Bucket>)
  {
    TouchedAndPreceding(Boundaries(zone, granularity), from, until, p, q, buckets)
  }

  /** The paddings of 2, 14 and 62 days always suffice. */
  lemma PaddingSuffices(zone: Zone, granularity: Granularity, from: Instant, until: Instant, candidates: seq<Bucket>)
    returns (first: int)
    requires ZoneOk(zone) && from <= until
    requires Tiles(zone, granularity, from - Padding(granularity), until + Padding(granularity), candidates)
    ensures candidates == PeriodsFrom(Boundaries(zone, granularity), first, |candidates|)
    ensures WellPadded(Boundaries(zone, granularity), from, until, first, |candidates|, Padding(granularity))
  {
    first := FirstPeriod(zone, granularity, from - Padding(granularity));
    BoundariesRise(zone, granularity);
    PeriodFitsPadding(zone, granularity, first);
    ReachingBothEnds(Boundaries(zone, granularity), from, until, first, Padding(granularity), candidates);
  }

  /**
    Every touched calendar period and the one before the first of them, whichever candidates the
    padding produced: the range found and the clamp at index 0 leave no trace in the result.
  */
  method GetRecalculationBuckets(zone: Zone, affectedFrom: Instant, affectedTo: Instant, granularity: Granularity)
    returns (r: Result<seq<Bucket>, BucketError>, ghost p: int, ghost q: int)
    requires ZoneOk(zone)
    ensures r.Err? <==> affectedFrom > affectedTo
    ensures r.Ok? ==> Recalculated(zone, granularity, affectedFrom, affectedTo, p, q, r.value)
  {
    if affectedFrom > affectedTo {
      return Err(ReversedRange), 0, 0;
    }
    var padding := Padding(granularity);
    var candidates := GetPeriodBuckets(zone, affectedFrom - padding, affectedTo + padding, granularity);
    ghost var first := PaddingSuffices(zone, granularity, affectedFrom, affectedTo, candidates);
    var buckets;
    buckets, p, q := SliceTouched(candidates, affectedFrom, affectedTo, Boundaries(zone, granularity), first, padding);
    r := Ok(buckets);
  }
}
