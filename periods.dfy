/** `TransactionPeriod` (personal_dashboard/backend/financial_analysis.py): the frame of
    transactions indexed by time, from which the dashboard selects one ISO week or one
    calendar month and builds the (bucket x category) table of summed spending. */
module Periods {
  import opened Outcomes
  import opened Calendar
  import opened Numerals
  import opened Ledger
  import opened Spending
  import opened Pivots

  /** The ISO (year, week) of an instant, as `DatetimeIndex.isocalendar()` gives it. */
  function IsoWeekOf(t: Instant): IsoWeek
  {
    IsoCalendar(DayOf(t))
  }

  /** The rows of one ISO week. */
  function InIsoWeek(w: IsoWeek): Transaction -> bool
  {
    (x: Transaction) => IsoWeekOf(x.time) == w
  }

  function WeekRows(rows: seq<Transaction>, w: IsoWeek): seq<Transaction>
  {
    Filter(rows, InIsoWeek(w))
  }

  /** An ISO week runs from its Monday 00:00:00 to its Sunday 23:59:59: an instant is
      in the ISO week of day n exactly when it lies in that span. */
  lemma IsoWeekSpan(n: int, t: Instant)
    requires n >= 1
    ensures var monday := MondayOf(n);
      monday >= 1 && (IsoWeekOf(t) == IsoCalendar(n) <==> StartOfDay(monday) <= t < StartOfDay(monday) + 7 * SecondsPerDay)
  {
    var k := WeekIndex(n);
    assert MondayOf(n) - 1 == 7 * k;
    IsoSameWeekIff(DayOf(t), n);
    assert WeekIndex(DayOf(t)) == t / SecondsPerDay / 7;
    WeekOfSeconds(t, k);
  }

  /** The seconds of the Monday-to-Sunday week k, counted from 0001-01-01 00:00:00. */
  lemma WeekOfSeconds(t: nat, k: int)
    ensures t / SecondsPerDay / 7 == k <==> 7 * k * SecondsPerDay <= t < (7 * k + 7) * SecondsPerDay
  {
    var d := t / SecondsPerDay;
    assert d * SecondsPerDay <= t < d * SecondsPerDay + SecondsPerDay;
    assert d / 7 == k <==> 7 * k <= d < 7 * k + 7;
    if d < 7 * k {
      assert (d + 1) * SecondsPerDay <= 7 * k * SecondsPerDay;
    }
    if d >= 7 * k + 7 {
      assert d * SecondsPerDay >= (7 * k + 7) * SecondsPerDay;
    }
  }

  /** The first and last second of a week are in it; the seconds just outside are not. */
  lemma IsoWeekEdges(monday: int)
    requires monday >= 1 && Weekday(monday) == 0
    ensures var w, start := IsoCalendar(monday), StartOfDay(monday);
      var end := start + 7 * SecondsPerDay - 1;
      && IsoWeekOf(start) == w && IsoWeekOf(end) == w && IsoWeekOf(end + 1) != w
      && (start >= 1 ==> IsoWeekOf(start - 1) != w)
  {
    assert MondayOf(monday) == monday;
    var start := StartOfDay(monday);
    var end := start + 7 * SecondsPerDay - 1;
    IsoWeekSpan(monday, start);
    IsoWeekSpan(monday, end);
    IsoWeekSpan(monday, end + 1);
    if start >= 1 {
      IsoWeekSpan(monday, start - 1);
    }
  }

  /** Weekly resampling buckets and ISO weeks group the same instants together. */
  lemma WeeklyBucketIsIsoWeek(a: Instant, b: Instant)
    ensures BucketOf(Weekly, a) == BucketOf(Weekly, b) <==> IsoWeekOf(a) == IsoWeekOf(b)
  {
    IsoSameWeekIff(DayOf(a), DayOf(b));
  }

  /** A row stamped at any time on 30 December 2024 is in ISO week 1 of 2025 (and so
      in no week of ISO year 2024), although its calendar year is 2024. */
  lemma WeekUsesIsoYear(t: Instant, d: Date)
    requires d == Date(2024, 12, 30) && DayOf(t) == Ordinal(d)
    ensures DateOf(t) == d && IsoWeekOf(t) == IsoWeek(2025, 1)
  {
    LateDecemberInNextIsoYear(d);
    FromOrdinalOrdinal(d);
  }

  /** The `year` and `week` columns `get_week_df` writes: the ISO week of each row. */
  function IsoColumn(rows: seq<Transaction>): (col: seq<IsoWeek>)
    ensures |col| == |rows|
  {
    if rows == [] then [] else [IsoWeekOf(rows[0].time)] + IsoColumn(rows[1..])
  }

  /** `df[(df["year"] == year) & (df["week"] == week)]`: the rows whose column entry is w. */
  function SelectWhere(rows: seq<Transaction>, col: seq<IsoWeek>, w: IsoWeek): seq<Transaction>
    requires |col| == |rows|
  {
    if rows == [] then [] else (if col[0] == w then [rows[0]] else []) + SelectWhere(rows[1..], col[1..], w)
  }

  /** Selecting on the written columns selects the rows of the ISO week. */
  lemma {:induction false} SelectByIsoColumn(rows: seq<Transaction>, w: IsoWeek)
    ensures SelectWhere(rows, IsoColumn(rows), w) == WeekRows(rows, w)
    decreases |rows|
  {
    if rows != [] {
      SelectByIsoColumn(rows[1..], w);
    }
  }

  /** `strftime("%Y-%m")`: four-digit year, dash, two-digit month. */
  function MonthKey(ym: YearMonth): string
    requires ym.year >= 0 && ym.month >= 0
  {
    Padded(ym.year, 4) + "-" + Padded(ym.month, 2)
  }

  /** Reads a "YYYY-MM" key as `loc` reads a month string; anything else is not a key. */
  function ParseMonthKey(s: string): (r: Option<YearMonth>)
    ensures r.Some? ==> 1 <= r.value.month <= 12 && 0 <= r.value.year <= 9999
  {
    if |s| != 7 || s[4] != '-' || !AllDigits(s[..4]) || !AllDigits(s[5..]) then None
    else
      var y, m := ValueOf(s[..4]), ValueOf(s[5..]);
      ValueBelowPow10(s[..4]);
      assert Pow10(4) == 10000;
      if 1 <= m <= 12 then Some(YearMonth(y, m)) else None
  }

  /** Four-digit zero padding of a year up to 9999. */
  lemma FourDigits(n: nat)
    requires n < 10000
    ensures |Padded(n, 4)| == 4
  {
    assert Pow10(4) == 10000;
    DecimalShort(n, 4);
  }

  /** The rows of an ISO week are the rows of the frame stamped between that week's
      Monday 00:00:00 and the next Monday 00:00:00, in frame order. */
  lemma WeekRowsSpan(rows: seq<Transaction>, n: int)
    requires n >= 1
    ensures var start := StartOfDay(MondayOf(n));
      forall x :: x in WeekRows(rows, IsoCalendar(n)) <==> x in rows && start <= x.time < start + 7 * SecondsPerDay
  {
    var w, start := IsoCalendar(n), StartOfDay(MondayOf(n));
    FilterMembers(rows, InIsoWeek(w));
    forall x: Transaction
      ensures InIsoWeek(w)(x) <==> start <= x.time < start + 7 * SecondsPerDay
    {
      IsoWeekSpan(n, x.time);
    }
  }

  /** Month keys read back: every month of the years 0 to 9999 round-trips. */
  lemma MonthKeyRoundTrip(ym: YearMonth)
    requires 0 <= ym.year <= 9999 && 1 <= ym.month <= 12
    ensures ParseMonthKey(MonthKey(ym)) == Some(ym)
  {
    var y, m := Padded(ym.year, 4), Padded(ym.month, 2);
    FourDigits(ym.year);
    TwoDigits(ym.month);
    var s := MonthKey(ym);
    assert s[..4] == y;
    assert s[5..] == m;
  }

  /** The rows of one calendar month (`df.loc["YYYY-MM"]` on a time index). */
  function InMonth(ym: YearMonth): Transaction -> bool
  {
    (x: Transaction) => YearMonthOf(DateOf(x.time)) == ym
  }

  function MonthRows(rows: seq<Transaction>, ym: YearMonth): seq<Transaction>
  {
    Filter(rows, InMonth(ym))
  }

  /** `get_month_df`: the rows of the month a "YYYY-MM" key names; a key that does
      not name a month raises `KeyError`. */
  function MonthSelect(rows: seq<Transaction>, key: string): (r: Result<seq<Transaction>>)
    ensures r.Err? <==> ParseMonthKey(key).None?
    ensures r.Err? ==> r.error == KeyError
    ensures r.Ok? ==> forall x :: x in r.value <==> x in rows && YearMonthOf(DateOf(x.time)) == ParseMonthKey(key).value
  {
    match ParseMonthKey(key)
    case None => Err(KeyError)
    case Some(ym) =>
      FilterMembers(rows, InMonth(ym));
      Ok(MonthRows(rows, ym))
  }

  /** Monthly resampling buckets are the calendar months. */
  lemma MonthlyBucketIsMonth(t: Instant, ym: YearMonth)
    requires 1 <= ym.month <= 12
    ensures BucketOf(Monthly, t) == MonthIndex(ym) <==> YearMonthOf(DateOf(t)) == ym
  {
    var d := YearMonthOf(DateOf(t));
    if MonthIndex(d) == MonthIndex(ym) {
      assert d.year * 12 + (d.month - 1) == ym.year * 12 + (ym.month - 1);
      assert d.year == ym.year;
    }
  }

  /** `TransactionPeriod`: holds the caller's frame, indexed by transaction time, by
      reference. */
  class TransactionPeriod {
    var df: Frame

    constructor (df: Frame)
      ensures this.df == df
    {
      this.df := df;
    }

    /** `get_periodic_category_spending_df(frequency)`. */
    method PeriodicCategorySpending(freq: Frequency) returns (p: Pivot)
      requires df.timeIndexed
      ensures p == PivotOf(df.rows, BucketKey(freq))
    {
      p := PivotOf(df.rows, BucketKey(freq));
    }

    /** `get_week_df(year, week_number)`: writes the ISO `year` and `week` columns into
        the held frame (which the caller shares), then selects the rows of that week. */
    method GetWeekDf(year: int, week: int) returns (r: seq<Transaction>)
      requires df.timeIndexed
      modifies df
      ensures df.rows == old(df.rows) && df.timeIndexed
      ensures df.isoColumns == Some(IsoColumn(df.rows))
      ensures r == WeekRows(df.rows, IsoWeek(year, week))
    {
      var col := IsoColumn(df.rows);
      df.isoColumns := Some(col);
      r := SelectWhere(df.rows, col, IsoWeek(year, week));
      SelectByIsoColumn(df.rows, IsoWeek(year, week));
    }

    /** `get_month_df(year_month)`: `df.loc[year_month]`. */
    method GetMonthDf(key: string) returns (r: Result<seq<Transaction>>)
      requires df.timeIndexed
      ensures r == MonthSelect(df.rows, key)
    {
      r := MonthSelect(df.rows, key);
    }
  }
}
