/**
 * Proleptic Gregorian calendar on day numbers: day 0 is 1970-01-01, the
 * epoch of pandas timestamps. Gives the month of a day and the labels of
 * the weekly ('W', weeks ending on Sunday) and monthly ('M', month-end)
 * period buckets.
 */
module Calendar {

  const EpochYear: int := 1970
  /** The Gregorian calendar repeats every 400 years, which hold 146097 days. */
  const DaysPer400Years: int := 146097

  predicate IsLeapYear(y: int) {
    y % 4 == 0 && (y % 100 != 0 || y % 400 == 0)
  }

  function YearLength(y: int): int {
    if IsLeapYear(y) then 366 else 365
  }

  function DaysInMonth(y: int, m: int): int
    requires 1 <= m <= 12
  {
    if m == 2 then (if IsLeapYear(y) then 29 else 28)
    else if m == 4 || m == 6 || m == 9 || m == 11 then 30
    else 31
  }

  /** Days of the year `y` before the first of month `m`. */
  function DaysBeforeMonth(y: int, m: int): (n: int)
    requires 1 <= m <= 12
    ensures n >= 0
    ensures 28 * (m - 1) <= n <= 31 * (m - 1)
  {
    if m == 1 then 0 else DaysBeforeMonth(y, m - 1) + DaysInMonth(y, m - 1)
  }

  lemma MonthsFillYear(y: int)
    ensures DaysBeforeMonth(y, 12) + DaysInMonth(y, 12) == YearLength(y)
  {
    var leap := if IsLeapYear(y) then 1 else 0;
    assert DaysBeforeMonth(y, 2) == 31;
    assert DaysBeforeMonth(y, 3) == 59 + leap;
    assert DaysBeforeMonth(y, 4) == 90 + leap;
    assert DaysBeforeMonth(y, 5) == 120 + leap;
    assert DaysBeforeMonth(y, 6) == 151 + leap;
    assert DaysBeforeMonth(y, 7) == 181 + leap;
    assert DaysBeforeMonth(y, 8) == 212 + leap;
    assert DaysBeforeMonth(y, 9) == 243 + leap;
    assert DaysBeforeMonth(y, 10) == 273 + leap;
    assert DaysBeforeMonth(y, 11) == 304 + leap;
    assert DaysBeforeMonth(y, 12) == 334 + leap;
  }

  /** Month `m1` ends no later than month `m2` starts. */
  lemma {:induction false} MonthsOrdered(y: int, m1: int, m2: int)
    requires 1 <= m1 < m2 <= 12
    ensures DaysBeforeMonth(y, m1) + DaysInMonth(y, m1) <= DaysBeforeMonth(y, m2)
    decreases m2 - m1
  {
    if m1 + 1 < m2 {
      MonthsOrdered(y, m1 + 1, m2);
    }
  }

  /** Multiples of 4, 100 and 400 up to `y`, shifted by a constant; only differences are used. */
  function LeapCount(y: int): int {
    y / 4 - y / 100 + y / 400
  }

  /** Days from 1970-01-01 to the first of January of year `y` (negative before 1970). */
  function DaysBeforeYear(y: int): int {
    365 * (y - EpochYear) + LeapCount(y - 1) - LeapCount(EpochYear - 1)
  }

  /** Passing a multiple of `k` moves `y / k` up by one; any other `y` leaves it. */
  lemma DivStep4(y: int)
    ensures y / 4 == (y - 1) / 4 + (if y % 4 == 0 then 1 else 0)
  {
  }

  lemma DivStep100(y: int)
    ensures y / 100 == (y - 1) / 100 + (if y % 100 == 0 then 1 else 0)
  {
  }

  lemma DivStep400(y: int)
    ensures y / 400 == (y - 1) / 400 + (if y % 400 == 0 then 1 else 0)
  {
  }

  /** Passing year `y` adds one to the leap count exactly when `y` is a leap year. */
  lemma LeapCountStep(y: int)
    ensures LeapCount(y) == LeapCount(y - 1) + (if IsLeapYear(y) then 1 else 0)
  {
    DivStep4(y);
    DivStep100(y);
    DivStep400(y);
    if y % 100 == 0 {
      Divides100(y);
    }
    if y % 400 == 0 {
      Divides400(y);
    }
  }

  lemma Divides100(y: int)
    requires y % 100 == 0
    ensures y % 4 == 0
  {
    assert y == 4 * (25 * (y / 100));
  }

  lemma Divides400(y: int)
    requires y % 400 == 0
    ensures y % 100 == 0
  {
    assert y == 100 * (4 * (y / 400));
  }

  /** Each year adds its own length. */
  lemma YearStep(y: int)
    ensures DaysBeforeYear(y + 1) == DaysBeforeYear(y) + YearLength(y)
  {
    LeapCountStep(y);
  }

  /** Every 400 years from 1970 hold exactly 146097 days. */
  lemma Era(q: int)
    ensures DaysBeforeYear(EpochYear + 400 * q) == DaysPer400Years * q
  {
    var y := EpochYear + 400 * q - 1;
    assert y == 4 * (492 + 100 * q) + 1;
    assert y / 4 == 492 + 100 * q;
    assert y == 100 * (19 + 4 * q) + 69;
    assert y / 100 == 19 + 4 * q;
    assert y == 400 * (4 + q) + 369;
    assert y / 400 == 4 + q;
  }

  /** A year ends no later than any later year starts. */
  lemma {:induction false} YearsOrdered(a: int, b: int)
    requires a < b
    ensures DaysBeforeYear(a) + YearLength(a) <= DaysBeforeYear(b)
    decreases b - a
  {
    YearStep(a);
    if a + 1 < b {
      YearsOrdered(a + 1, b);
    }
  }

  /** A calendar date; `month` and `day` count from 1. */
  datatype Civil = Civil(year: int, month: int, day: int)

  predicate ValidCivil(c: Civil) {
    1 <= c.month <= 12 && 1 <= c.day <= DaysInMonth(c.year, c.month)
  }

  /** Walks whole years forward from `y` until `rem` falls inside one. */
  function YearWalk(y: int, rem: nat): (r: (int, nat))
    ensures r.1 < YearLength(r.0)
    ensures DaysBeforeYear(r.0) + r.1 == DaysBeforeYear(y) + rem
    decreases rem
  {
    if rem < YearLength(y) then (y, rem)
    else
      YearStep(y);
      YearWalk(y + 1, rem - YearLength(y))
  }

  /** Walks the months of year `y` from month `m` until day-of-year offset `rem` falls inside one. */
  function MonthWalk(y: int, m: int, rem: nat): (c: Civil)
    requires 1 <= m <= 12
    requires rem < YearLength(y) - DaysBeforeMonth(y, m)
    ensures ValidCivil(c) && c.year == y
    ensures DaysBeforeMonth(y, c.month) + c.day - 1 == DaysBeforeMonth(y, m) + rem
    decreases 12 - m
  {
    MonthsFillYear(y);
    if rem < DaysInMonth(y, m) then Civil(y, m, rem + 1)
    else MonthWalk(y, m + 1, rem - DaysInMonth(y, m))
  }

  /** The calendar date of a day number. */
  function CivilFromDays(days: int): (c: Civil)
    ensures ValidCivil(c)
  {
    var yd := YearWalk(EpochYear + 400 * (days / DaysPer400Years), days % DaysPer400Years);
    MonthWalk(yd.0, 1, yd.1)
  }

  /** The day number of a calendar date: the inverse of `CivilFromDays`. */
  function DaysFromCivil(c: Civil): int
    requires 1 <= c.month <= 12
  {
    DaysBeforeYear(c.year) + DaysBeforeMonth(c.year, c.month) + c.day - 1
  }

  /** Every day number is the day number of its calendar date. */
  lemma DaysFromCivilFromDays(days: int)
    ensures DaysFromCivil(CivilFromDays(days)) == days
  {
    Era(days / DaysPer400Years);
  }

  /** A valid date lies within its year. */
  lemma DayOfYearBound(c: Civil)
    requires ValidCivil(c)
    ensures DaysBeforeMonth(c.year, c.month) + c.day - 1 < YearLength(c.year)
  {
    MonthsFillYear(c.year);
    if c.month < 12 {
      MonthsOrdered(c.year, c.month, 12);
    }
  }

  /** Distinct valid dates have distinct day numbers. */
  lemma DaysFromCivilInjective(a: Civil, b: Civil)
    requires ValidCivil(a) && ValidCivil(b) && DaysFromCivil(a) == DaysFromCivil(b)
    ensures a == b
  {
    DayOfYearBound(a);
    DayOfYearBound(b);
    if a.year < b.year {
      YearsOrdered(a.year, b.year);
      assert false;
    } else if b.year < a.year {
      YearsOrdered(b.year, a.year);
      assert false;
    } else if a.month < b.month {
      MonthsOrdered(a.year, a.month, b.month);
      assert false;
    } else if b.month < a.month {
      MonthsOrdered(a.year, b.month, a.month);
      assert false;
    }
  }

  /** Every valid date is the calendar date of its day number. */
  lemma CivilFromDaysToDays(c: Civil)
    requires ValidCivil(c)
    ensures CivilFromDays(DaysFromCivil(c)) == c
  {
    var d := DaysFromCivil(c);
    DaysFromCivilFromDays(d);
    DaysFromCivilInjective(CivilFromDays(d), c);
  }

  /** The date after a valid date: the next day, the first of the next month, or New Year. */
  function NextDay(c: Civil): (n: Civil)
    requires ValidCivil(c)
    ensures ValidCivil(n)
  {
    if c.day < DaysInMonth(c.year, c.month) then Civil(c.year, c.month, c.day + 1)
    else if c.month < 12 then Civil(c.year, c.month + 1, 1)
    else Civil(c.year + 1, 1, 1)
  }

  /** Consecutive day numbers are consecutive calendar dates. */
  lemma CivilFromDaysNext(days: int)
    ensures CivilFromDays(days + 1) == NextDay(CivilFromDays(days))
  {
    var c := CivilFromDays(days);
    DaysFromCivilFromDays(days);
    assert DaysFromCivil(c) == days;
    NextOfCivil(c);
  }

  /** The day after a valid date is its next date. */
  lemma NextOfCivil(c: Civil)
    requires ValidCivil(c)
    ensures CivilFromDays(DaysFromCivil(c) + 1) == NextDay(c)
  {
    DaysFromCivilNext(c);
    CivilFromDaysToDays(NextDay(c));
  }

  /** The next date has the next day number. */
  lemma DaysFromCivilNext(c: Civil)
    requires ValidCivil(c)
    ensures DaysFromCivil(NextDay(c)) == DaysFromCivil(c) + 1
  {
    if c.day == DaysInMonth(c.year, c.month) && c.month == 12 {
      YearStep(c.year);
      MonthsFillYear(c.year);
    }
  }

  /** pandas `Series.dt.month`. */
  function MonthOf(days: int): (m: int)
    ensures 1 <= m <= 12
  {
    CivilFromDays(days).month
  }

  /** Day of the week, Monday = 0 ... Sunday = 6; 1970-01-01 was a Thursday. */
  function Weekday(days: int): (w: int)
    ensures 0 <= w < 7
  {
    (days + 3) % 7
  }

  /** The label of the 'W' bucket of a day: the Sunday that ends its week. */
  function WeekEnd(days: int): (w: int)
    ensures days <= w <= days + 6
    ensures Weekday(w) == 6
  {
    days + (6 - Weekday(days))
  }

  /** The week-end label is the only Sunday among the day and the six that follow it. */
  lemma WeekEndUnique(days: int, w: int)
    requires days <= w <= days + 6 && Weekday(w) == 6
    ensures w == WeekEnd(days)
  {
    var e := WeekEnd(days);
    var q1, q2 := (w + 3) / 7, (e + 3) / 7;
    assert w + 3 == 7 * q1 + 6;
    assert e + 3 == 7 * q2 + 6;
    assert -6 <= 7 * (q1 - q2) <= 6;
    assert q1 == q2;
  }

  /** The label of the 'M' bucket of a day: the last day of its month. */
  function MonthEnd(days: int): (e: int)
    ensures days <= e <= days + 30
    ensures var c := CivilFromDays(days); CivilFromDays(e) == Civil(c.year, c.month, DaysInMonth(c.year, c.month))
    ensures CivilFromDays(e + 1).day == 1
  {
    var c := CivilFromDays(days);
    DaysFromCivilFromDays(days);
    MonthEndOfCivil(c);
    DaysFromCivil(Civil(c.year, c.month, DaysInMonth(c.year, c.month)))
  }

  /** The last day of a valid date's month: no more than 30 days on, followed by a first. */
  lemma MonthEndOfCivil(c: Civil)
    requires ValidCivil(c)
    ensures var last := Civil(c.year, c.month, DaysInMonth(c.year, c.month));
            && 0 <= DaysFromCivil(last) - DaysFromCivil(c) <= 30
            && CivilFromDays(DaysFromCivil(last)) == last
            && CivilFromDays(DaysFromCivil(last) + 1).day == 1
  {
    var last := Civil(c.year, c.month, DaysInMonth(c.year, c.month));
    assert ValidCivil(last);
    CivilFromDaysToDays(last);
    NextOfCivil(last);
    assert NextDay(last).day == 1;
  }

  /** The month of a date's day number is that date's month. */
  lemma MonthOfCivil(c: Civil)
    requires ValidCivil(c)
    ensures MonthOf(DaysFromCivil(c)) == c.month
  {
    CivilFromDaysToDays(c);
  }

  /** Day 0 is Thursday 1970-01-01, and its week ends on day 3. */
  lemma EpochAnchor()
    ensures CivilFromDays(0) == Civil(1970, 1, 1)
    ensures Weekday(0) == 3 && WeekEnd(0) == 3
  {
    assert YearWalk(1970, 0) == (1970, 0);
  }

  /** Day 59 is 1970-03-01: January and February of a common year hold 59 days. */
  lemma MarchAnchor()
    ensures CivilFromDays(59) == Civil(1970, 3, 1)
  {
    assert YearWalk(1970, 59) == (1970, 59);
  }

  /** Day 365 is 1971-01-01: 1970 is a common year. */
  lemma NewYearAnchor()
    ensures CivilFromDays(365) == Civil(1971, 1, 1)
  {
    assert YearWalk(1970, 365) == (1971, 0);
  }

  /** Day 789 is 1972-02-29, the first leap day after the epoch. */
  lemma LeapDayAnchor()
    ensures CivilFromDays(789) == Civil(1972, 2, 29)
  {
    assert YearWalk(1970, 789) == (1972, 59);
  }
}
