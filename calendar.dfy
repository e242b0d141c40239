/** The proleptic Gregorian calendar over day ordinals (ordinal 1 is 0001-01-01,
    a Monday, as in Python's `date.toordinal`), the ISO 8601 week calendar
    (weeks run Monday to Sunday; week 1 of an ISO year is the week holding
    that year's first Thursday), and calendar-month arithmetic as done by
    `dateutil.relativedelta`. */
module Calendar {

  datatype Date = Date(year: int, month: int, day: int)

  /** An ISO 8601 (year, week number) pair, as `isocalendar()` reports it. */
  datatype IsoWeek = IsoWeek(year: int, week: int)

  datatype YearMonth = YearMonth(year: int, month: int)

  predicate IsLeap(y: int)
  {
    y % 4 == 0 && (y % 100 != 0 || y % 400 == 0)
  }

  function DaysInYear(y: int): int
  {
    if IsLeap(y) then 366 else 365
  }

  function DaysInMonth(y: int, m: int): int
  {
    if m == 2 then (if IsLeap(y) then 29 else 28)
    else if m == 4 || m == 6 || m == 9 || m == 11 then 30
    else 31
  }

  predicate ValidDate(d: Date)
  {
    d.year >= 1 && 1 <= d.month <= 12 && 1 <= d.day <= DaysInMonth(d.year, d.month)
  }

  /** Number of days in the years 1 .. y - 1. */
  function DaysBeforeYear(y: int): int
    requires y >= 1
  {
    var p := y - 1;
    p * 365 + p / 4 - p / 100 + p / 400
  }

  /** Number of days in year y before the first day of month m (m == 13 gives the whole year). */
  function DaysBeforeMonth(y: int, m: int): int
    requires 1 <= m <= 13
  {
    [0, 31, 59, 90, 120, 151, 181, 212, 243, 273, 304, 334, 365][m - 1]
      + (if m > 2 && IsLeap(y) then 1 else 0)
  }

  function Ordinal(d: Date): int
    requires ValidDate(d)
  {
    DaysBeforeYear(d.year) + DaysBeforeMonth(d.year, d.month) + d.day
  }

  /** Dividing p + 1 by a constant step k: the quotient grows by one exactly at multiples of k. */
  lemma DivStep4(p: int)
    ensures (p + 1) / 4 == p / 4 + (if (p + 1) % 4 == 0 then 1 else 0)
  {
  }

  lemma DivStep100(p: int)
    ensures (p + 1) / 100 == p / 100 + (if (p + 1) % 100 == 0 then 1 else 0)
  {
  }

  lemma DivStep400(p: int)
    ensures (p + 1) / 400 == p / 400 + (if (p + 1) % 400 == 0 then 1 else 0)
  {
  }

  lemma CenturyIsLeapCandidate(y: int)
    ensures y % 100 == 0 ==> y % 4 == 0
    ensures y % 400 == 0 ==> y % 100 == 0
  {
  }

  /** Consecutive years: the closed form for DaysBeforeYear adds the length of one year. */
  lemma YearStep(y: int)
    requires y >= 1
    ensures DaysBeforeYear(y + 1) == DaysBeforeYear(y) + DaysInYear(y)
  {
    DivStep4(y - 1);
    DivStep100(y - 1);
    DivStep400(y - 1);
    CenturyIsLeapCandidate(y);
  }

  lemma {:induction false} DaysBeforeYearMonotone(a: int, b: int)
    requires 1 <= a <= b
    ensures DaysBeforeYear(a) + 365 * (b - a) <= DaysBeforeYear(b)
    decreases b - a
  {
    if a < b {
      DaysBeforeYearMonotone(a, b - 1);
      YearStep(b - 1);
    }
  }

  /** The year, searched upward from y, whose days contain ordinal n. */
  function YearFrom(n: int, y: int): (r: int)
    requires y >= 1 && DaysBeforeYear(y) < n
    ensures r >= y && DaysBeforeYear(r) < n <= DaysBeforeYear(r + 1)
    decreases n - DaysBeforeYear(y)
  {
    YearStep(y);
    if n <= DaysBeforeYear(y + 1) then y else YearFrom(n, y + 1)
  }

  /** The calendar year holding day ordinal n. */
  function YearOf(n: int): (r: int)
    requires n >= 1
    ensures r >= 1 && DaysBeforeYear(r) < n <= DaysBeforeYear(r + 1)
  {
    YearFrom(n, 1)
  }

  /** A year is determined by any day it contains. */
  lemma YearUnique(n: int, y: int)
    requires n >= 1 && y >= 1 && DaysBeforeYear(y) < n <= DaysBeforeYear(y + 1)
    ensures YearOf(n) == y
  {
    var r := YearOf(n);
    if r < y {
      DaysBeforeYearMonotone(r + 1, y);
    } else if y < r {
      DaysBeforeYearMonotone(y + 1, r);
    }
  }

  lemma YearOfMonotone(a: int, b: int)
    requires 1 <= a <= b
    ensures YearOf(a) <= YearOf(b)
  {
    if YearOf(b) < YearOf(a) {
      DaysBeforeYearMonotone(YearOf(b) + 1, YearOf(a));
    }
  }

  /** The month, searched upward from m, holding day-of-year doy. */
  function MonthFrom(y: int, doy: int, m: int): (r: int)
    requires 1 <= m <= 12 && DaysBeforeMonth(y, m) < doy <= DaysInYear(y)
    ensures m <= r <= 12 && DaysBeforeMonth(y, r) < doy <= DaysBeforeMonth(y, r + 1)
    decreases 12 - m
  {
    if doy <= DaysBeforeMonth(y, m + 1) then m else MonthFrom(y, doy, m + 1)
  }

  /** The calendar date of day ordinal n (Python's `date.fromordinal`). */
  function FromOrdinal(n: int): (d: Date)
    requires n >= 1
    ensures ValidDate(d) && Ordinal(d) == n
  {
    var y := YearOf(n);
    YearStep(y);
    var doy := n - DaysBeforeYear(y);
    var m := MonthFrom(y, doy, 1);
    Date(y, m, doy - DaysBeforeMonth(y, m))
  }

  /** Month m of year y spans the days after DaysBeforeMonth(y, m), for DaysInMonth(y, m) days. */
  lemma MonthLength(y: int, m: int)
    requires 1 <= m <= 12
    ensures DaysBeforeMonth(y, m + 1) == DaysBeforeMonth(y, m) + DaysInMonth(y, m)
  {
  }

  lemma {:induction false} DaysBeforeMonthMonotone(y: int, a: int, b: int)
    requires 1 <= a <= b <= 13
    ensures DaysBeforeMonth(y, a) <= DaysBeforeMonth(y, b)
    decreases b - a
  {
    if a < b {
      MonthLength(y, a);
      DaysBeforeMonthMonotone(y, a + 1, b);
    }
  }

  /** A day of the year lies in one month only. */
  lemma MonthUnique(y: int, doy: int, r: int, m: int)
    requires 1 <= r <= 12 && 1 <= m <= 12
    requires DaysBeforeMonth(y, r) < doy <= DaysBeforeMonth(y, r + 1)
    requires DaysBeforeMonth(y, m) < doy <= DaysBeforeMonth(y, m + 1)
    ensures r == m
  {
    if r < m {
      DaysBeforeMonthMonotone(y, r + 1, m);
    } else if m < r {
      DaysBeforeMonthMonotone(y, m + 1, r);
    }
  }

  /** The other half of the round trip: every valid date comes back from its ordinal. */
  lemma FromOrdinalOrdinal(d: Date)
    requires ValidDate(d)
    ensures Ordinal(d) >= 1 && FromOrdinal(Ordinal(d)) == d
  {
    var n, y := Ordinal(d), d.year;
    YearStep(y);
    assert DaysBeforeMonth(y, d.month) < DaysBeforeMonth(y, d.month) + d.day <= DaysBeforeMonth(y, d.month + 1) by {
      MonthLength(y, d.month);
    }
    assert DaysBeforeMonth(y, d.month + 1) <= DaysInYear(y) by {
      DaysBeforeMonthMonotone(y, d.month + 1, 13);
    }
    assert YearOf(n) == y by {
      YearUnique(n, y);
    }
    var doy := n - DaysBeforeYear(y);
    var m := MonthFrom(y, doy, 1);
    assert m == d.month by {
      MonthUnique(y, doy, m, d.month);
    }
  }

  /** Monday is 0 and Sunday is 6, as Python's `date.weekday()`. */
  function Weekday(n: int): int
  {
    (n - 1) % 7
  }

  /** Index of the Monday-to-Sunday week holding ordinal n, counted from the week of 0001-01-01.
      These are also pandas' "W" (week ending Sunday) resampling bins. */
  function WeekIndex(n: int): int
  {
    (n - 1) / 7
  }

  function MondayOf(n: int): (m: int)
    ensures Weekday(m) == 0 && m <= n < m + 7 && WeekIndex(m) == WeekIndex(n)
  {
    n - Weekday(n)
  }

  /** The ISO week of the Monday-to-Sunday week number k: it is named after the
      calendar year of its Thursday, and counted from that year's first Thursday. */
  function IsoOfWeekIndex(k: int): (w: IsoWeek)
    requires k >= 0
    ensures 1 <= w.week <= 53
  {
    var thursday := 7 * k + 4;
    var y := YearOf(thursday);
    YearStep(y);
    IsoWeek(y, WeekOfYear(thursday, DaysBeforeYear(y)))
  }

  /** Week number, counted from 1, of a Thursday t in a year that starts after day `before`. */
  function WeekOfYear(t: int, before: int): int
  {
    (t - before - 1) / 7 + 1
  }

  lemma WeekOfYearShift(t: int, before: int, m: int)
    ensures WeekOfYear(t + 7 * m, before) == WeekOfYear(t, before) + m
  {
    assert t + 7 * m - before - 1 == (t - before - 1) + 7 * m;
  }

  /** ISO 8601 (year, week) of day ordinal n, as `isocalendar()` gives it. */
  function IsoCalendar(n: int): (w: IsoWeek)
    requires n >= 1
    ensures 1 <= w.week <= 53
  {
    IsoOfWeekIndex(WeekIndex(n))
  }

  /** Lexicographic order of ISO weeks, i.e. chronological order. */
  predicate IsoBefore(a: IsoWeek, b: IsoWeek)
  {
    a.year < b.year || (a.year == b.year && a.week < b.week)
  }

  lemma IsoOfWeekIndexMonotone(j: int, k: int)
    requires 0 <= j <= k
    ensures IsoOfWeekIndex(j) == IsoOfWeekIndex(k) || IsoBefore(IsoOfWeekIndex(j), IsoOfWeekIndex(k))
    ensures j < k ==> IsoBefore(IsoOfWeekIndex(j), IsoOfWeekIndex(k))
  {
    var tj, tk := 7 * j + 4, 7 * k + 4;
    YearOfMonotone(tj, tk);
    if YearOf(tj) == YearOf(tk) {
      assert tk == tj + 7 * (k - j);
      WeekOfYearShift(tj, DaysBeforeYear(YearOf(tj)), k - j);
    }
  }

  /** The Thursday a week later in the same calendar year is in the next ISO week of that year. */
  lemma IsoNextSameYear(k: nat)
    requires YearOf(7 * k + 11) == YearOf(7 * k + 4)
    ensures IsoOfWeekIndex(k + 1) == IsoWeek(IsoOfWeekIndex(k).year, IsoOfWeekIndex(k).week + 1)
  {
    assert 7 * (k + 1) + 4 == 7 * k + 11;
    WeekOfYearShift(7 * k + 4, DaysBeforeYear(YearOf(7 * k + 4)), 1);
  }

  /** A day in the first seven days of a year is in that year's week 1. */
  lemma WeekOfYearFirst(t: int, before: int)
    requires before < t <= before + 7
    ensures WeekOfYear(t, before) == 1
  {
  }

  /** A day a week later that falls in another year falls in the first week of the next. */
  lemma WeekLaterNewYear(t: int)
    requires t >= 1 && YearOf(t + 7) != YearOf(t)
    ensures YearOf(t + 7) == YearOf(t) + 1
    ensures DaysBeforeYear(YearOf(t) + 1) < t + 7 <= DaysBeforeYear(YearOf(t) + 1) + 7
  {
    var y := YearOf(t);
    if t + 7 <= DaysBeforeYear(y + 1) {
      YearUnique(t + 7, y);
    }
    YearStep(y + 1);
    YearUnique(t + 7, y + 1);
  }

  /** The Thursday a week later in another calendar year is in week 1 of the next year. */
  lemma IsoNextNewYear(k: nat)
    requires YearOf(7 * k + 11) != YearOf(7 * k + 4)
    ensures IsoOfWeekIndex(k + 1) == IsoWeek(IsoOfWeekIndex(k).year + 1, 1)
  {
    var t := 7 * k + 4;
    assert 7 * (k + 1) + 4 == t + 7;
    WeekLaterNewYear(t);
    WeekOfYearFirst(t + 7, DaysBeforeYear(YearOf(t) + 1));
  }

  /** ISO weeks are numbered without gaps: the week after week w of a year is week
      w + 1 of the same year, or else week 1 of the next year. */
  lemma IsoNext(k: nat)
    ensures var a, b := IsoOfWeekIndex(k), IsoOfWeekIndex(k + 1);
      (b.year == a.year ==> b.week == a.week + 1) && (b.year != a.year ==> b == IsoWeek(a.year + 1, 1))
  {
    if YearOf(7 * k + 11) == YearOf(7 * k + 4) {
      IsoNextSameYear(k);
    } else {
      IsoNextNewYear(k);
    }
  }

  /** Two days share an ISO (year, week) exactly when they share a Monday-to-Sunday week. */
  lemma IsoSameWeekIff(a: int, b: int)
    requires a >= 1 && b >= 1
    ensures IsoCalendar(a) == IsoCalendar(b) <==> WeekIndex(a) == WeekIndex(b)
  {
    if WeekIndex(a) < WeekIndex(b) {
      IsoOfWeekIndexMonotone(WeekIndex(a), WeekIndex(b));
    } else if WeekIndex(b) < WeekIndex(a) {
      IsoOfWeekIndexMonotone(WeekIndex(b), WeekIndex(a));
    }
  }

  /** ISO weeks follow the days: a later day never has an earlier ISO week. */
  lemma IsoCalendarMonotone(a: int, b: int)
    requires 1 <= a <= b
    ensures IsoCalendar(a) == IsoCalendar(b) || IsoBefore(IsoCalendar(a), IsoCalendar(b))
  {
    IsoOfWeekIndexMonotone(WeekIndex(a), WeekIndex(b));
  }

  /** The equivalent ISO 8601 rule: week 1 of every year is the week holding 4 January. */
  lemma FourthOfJanuaryInWeekOne(y: int)
    requires y >= 1
    ensures ValidDate(Date(y, 1, 4)) && IsoCalendar(Ordinal(Date(y, 1, 4))) == IsoWeek(y, 1)
  {
    var n := Ordinal(Date(y, 1, 4));
    var thursday := 7 * WeekIndex(n) + 4;
    YearStep(y);
    assert DaysBeforeYear(y) < thursday <= DaysBeforeYear(y + 1);
    YearUnique(thursday, y);
  }

  /** A Monday whose Thursday is among the first seven days of year y starts ISO week 1 of y. */
  lemma IsoWeekOneMonday(n: int, y: int)
    requires n >= 1 && y >= 1 && Weekday(n) == 0
    requires DaysBeforeYear(y) < n + 3 <= DaysBeforeYear(y) + 7
    ensures IsoCalendar(n) == IsoWeek(y, 1)
  {
    assert 7 * WeekIndex(n) + 4 == n + 3;
    YearStep(y);
    YearUnique(n + 3, y);
  }

  /** A valid Monday whose Thursday falls in the first days of the next year keeps its calendar
      year but starts ISO week 1 of the next year. */
  lemma LastMondayInNextIsoYear(d: Date)
    requires ValidDate(d) && Weekday(Ordinal(d)) == 0
    requires DaysBeforeYear(d.year + 1) < Ordinal(d) + 3 <= DaysBeforeYear(d.year + 1) + 7
    ensures FromOrdinal(Ordinal(d)).year == d.year
    ensures IsoCalendar(Ordinal(d)) == IsoWeek(d.year + 1, 1)
  {
    FromOrdinalOrdinal(d);
    IsoWeekOneMonday(Ordinal(d), d.year + 1);
  }

  /** 30 December 2024 is day 739250. */
  lemma OrdinalOfLateDecember()
    ensures ValidDate(Date(2024, 12, 30)) && Ordinal(Date(2024, 12, 30)) == 739250
  {
    assert 2023 * 365 == 738395 && 2023 / 4 == 505 && 2023 / 100 == 20 && 2023 / 400 == 5;
    assert DaysBeforeYear(2024) == 738885;
    assert DaysBeforeMonth(2024, 12) == 335;
  }

  /** The years 1 to 2024 hold 739251 days. */
  lemma StartOf2025()
    ensures DaysBeforeYear(2025) == 739251
  {
    assert 2024 * 365 == 738760 && 2024 / 4 == 506 && 2024 / 100 == 20 && 2024 / 400 == 5;
  }

  /** 30 December 2024 is a Monday of calendar year 2024 that belongs to ISO week 1 of 2025. */
  lemma LateDecemberInNextIsoYear(d: Date)
    requires d == Date(2024, 12, 30)
    ensures ValidDate(d)
    ensures FromOrdinal(Ordinal(d)).year == 2024
    ensures Weekday(Ordinal(d)) == 0
    ensures IsoCalendar(Ordinal(d)) == IsoWeek(2025, 1)
  {
    OrdinalOfLateDecember();
    StartOf2025();
    LastMondayInNextIsoYear(d);
  }

  /** Months counted from January of year 0. */
  function MonthIndex(ym: YearMonth): int
  {
    ym.year * 12 + ym.month - 1
  }

  function MonthOfIndex(i: int): (ym: YearMonth)
    ensures 1 <= ym.month <= 12 && MonthIndex(ym) == i
  {
    YearMonth(i / 12, i % 12 + 1)
  }

  function YearMonthOf(d: Date): YearMonth
  {
    YearMonth(d.year, d.month)
  }

  /** `d - relativedelta(months=k)`: move k months back and clip the day to the
      length of the month reached; the time of day is kept by the caller. */
  function SubtractMonths(d: Date, k: nat): (r: Date)
    requires ValidDate(d)
    requires MonthIndex(YearMonthOf(d)) - k >= 12
    ensures ValidDate(r)
    ensures MonthIndex(YearMonthOf(r)) == MonthIndex(YearMonthOf(d)) - k
    ensures r.day == if d.day <= DaysInMonth(r.year, r.month) then d.day else DaysInMonth(r.year, r.month)
  {
    var ym := MonthOfIndex(MonthIndex(YearMonthOf(d)) - k);
    var last := DaysInMonth(ym.year, ym.month);
    Date(ym.year, ym.month, if d.day <= last then d.day else last)
  }
}
