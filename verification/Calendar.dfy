/** The proleptic Gregorian calendar by day ordinals (day 1 is 1 January of year 1), and periods of it. */
module Calendar {
  import opened Prelude

  datatype Date = Date(year: int, month: int, day: int)

  datatype Granularity = Day | Week | Month

  predicate Leap(year: int) {
    year % 4 == 0 && (year % 100 != 0 || year % 400 == 0)
  }

  function DaysInMonth(year: int, month: int): int {
    if month == 2 then (if Leap(year) then 29 else 28)
    else if month == 4 || month == 6 || month == 9 || month == 11 then 30
    else 31
  }

  function DaysBeforeYear(year: int): int {
    (year - 1) * 365 + (year - 1) / 4 - (year - 1) / 100 + (year - 1) / 400
  }

  function DaysBeforeMonth(year: int, month: int): int
    requires 1 <= month <= 12
  {
    if month == 1 then 0 else DaysBeforeMonth(year, month - 1) + DaysInMonth(year, month - 1)
  }

  predicate ValidDate(date: Date) {
    1 <= date.month <= 12 && 1 <= date.day <= DaysInMonth(date.year, date.month)
  }

  function Ordinal(date: Date): int
    requires ValidDate(date)
  {
    DaysBeforeYear(date.year) + DaysBeforeMonth(date.year, date.month) + date.day
  }

  /** Monday is 0. */
  function Weekday(ordinal: int): int {
    (ordinal + 6) % 7
  }

  /** Months counted from January of year 0. */
  function MonthIndex(year: int, month: int): int {
    12 * year + month - 1
  }

  function FirstOfMonth(index: int): int {
    Ordinal(Date(index / 12, index % 12 + 1, 1))
  }

  /** The first day of the k-th period: days from day 0, weeks from Monday, day 1, months as above. */
  function PeriodDay(granularity: Granularity, k: int): int {
    match granularity
    case Day => k
    case Week => 7 * k + 1
    case Month => FirstOfMonth(k)
  }

  /** The period of a date. */
  function PeriodOf(granularity: Granularity, date: Date): int
    requires ValidDate(date)
  {
    match granularity
    case Day => Ordinal(date)
    case Week => (Ordinal(date) - 1) / 7
    case Month => MonthIndex(date.year, date.month)
  }

  function LongestPeriod(granularity: Granularity): int {
    match granularity
    case Day => 1
    case Week => 7
    case Month => 31
  }

  lemma YearLength(year: int)
    ensures DaysBeforeYear(year + 1) == DaysBeforeYear(year) + (if Leap(year) then 366 else 365)
  {
    assert year / 4 - (year - 1) / 4 == if year % 4 == 0 then 1 else 0;
    assert year / 100 - (year - 1) / 100 == if year % 100 == 0 then 1 else 0;
    assert year / 400 - (year - 1) / 400 == if year % 400 == 0 then 1 else 0;
    assert year % 400 == 0 ==> year % 100 == 0;
    assert year % 100 == 0 ==> year % 4 == 0;
  }

  lemma MonthsBefore(year: int)
    ensures var l := if Leap(year) then 1 else 0;
            && DaysBeforeMonth(year, 4) == 90 + l && DaysBeforeMonth(year, 8) == 212 + l
            && DaysBeforeMonth(year, 12) == 334 + l
  {
    assert DaysBeforeMonth(year, 2) == 31;
    assert DaysBeforeMonth(year, 6) == DaysBeforeMonth(year, 4) + 61;
    assert DaysBeforeMonth(year, 10) == DaysBeforeMonth(year, 8) + 61;
  }

  /** The first of the next month is one month's length later, across year ends and leap years. */
  lemma MonthLength(index: int)
    ensures FirstOfMonth(index + 1) == FirstOfMonth(index) + DaysInMonth(index / 12, index % 12 + 1)
  {
    var (year, month) := (index / 12, index % 12 + 1);
    if month == 12 {
      assert (index + 1) / 12 == year + 1 && (index + 1) % 12 == 0;
      YearLength(year);
      MonthsBefore(year);
    } else {
      assert (index + 1) / 12 == year && (index + 1) % 12 == month;
    }
  }

  /** Consecutive periods start 1 to 31 days apart. */
  lemma PeriodLength(granularity: Granularity, k: int)
    ensures 1 <= PeriodDay(granularity, k + 1) - PeriodDay(granularity, k) <= LongestPeriod(granularity)
  {
    if granularity.Month? {
      MonthLength(k);
    }
  }

  lemma {:induction false} PeriodsIncrease(granularity: Granularity, j: int, k: int)
    requires j <= k
    ensures k - j <= PeriodDay(granularity, k) - PeriodDay(granularity, j)
    decreases k - j
  {
    if j < k {
      PeriodsIncrease(granularity, j, k - 1);
      PeriodLength(granularity, k - 1);
    }
  }

  /** A date lies in its period: on or after its first day, before the next one's. */
  lemma DateInItsPeriod(granularity: Granularity, date: Date)
    requires ValidDate(date)
    ensures var k := PeriodOf(granularity, date);
            PeriodDay(granularity, k) <= Ordinal(date) < PeriodDay(granularity, k + 1)
    ensures granularity.Week? ==> PeriodDay(Week, PeriodOf(Week, date)) == Ordinal(date) - Weekday(Ordinal(date))
  {
    if granularity.Month? {
      var k := MonthIndex(date.year, date.month);
      assert k / 12 == date.year && k % 12 + 1 == date.month;
      MonthLength(k);
    }
  }

  /** Days are numbered from 1 January of year 1, with a leap day in most fourth years. */
  lemma FirstOfJanuary(year: int)
    ensures Ordinal(Date(year, 1, 1)) - 1
         == 365 * (year - 1) + (year - 1) / 4 - (year - 1) / 100 + (year - 1) / 400
  {
    assert DaysBeforeMonth(year, 1) == 0;
  }
}
