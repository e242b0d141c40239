/** `PageComponents` (src/personal_dashboard/frontend/page_components.py): the weekly
    and monthly pages of the dashboard. Each picks the two latest complete periods
    before the moment the page is drawn, and computes the statistics shown on the page
    from them and from the whole frame. */
module Pages {
  import opened Outcomes
  import opened Calendar
  import opened Numerals
  import opened Ledger
  import opened Spending
  import opened Pivots
  import opened Periods

  const Holiday: string := "Holiday"

  /** The mask `df["category"] != "Holiday"`. */
  function NotHoliday(): Transaction -> bool
  {
    (x: Transaction) => x.category != Holiday
  }

  function WithoutHoliday(rows: seq<Transaction>): seq<Transaction>
  {
    Filter(rows, NotHoliday())
  }

  /** Excluding holidays keeps every other row, drops every holiday row, and lowers
      the total by exactly the holiday spend. */
  lemma HolidayExcluded(rows: seq<Transaction>)
    ensures forall x :: x in WithoutHoliday(rows) <==> x in rows && x.category != Holiday
    ensures !HasCategory(WithoutHoliday(rows), Holiday)
    ensures TotalExpense(WithoutHoliday(rows)) == TotalExpense(rows) - CategoryTotal(rows, Holiday)
  {
    var kept := WithoutHoliday(rows);
    FilterMembers(rows, NotHoliday());
    var all := (x: Transaction) => true;
    FilterAll(rows, all);
    TotalPartition(rows, all, NotHoliday(), InCategory(Holiday));
  }

  /** `Stats`: the figures shown on a page. The average is `None` where pandas gives
      NaN; amounts are in pence. */
  datatype Stats = Stats(
    averageExpense: Option<Mean>,
    totalExpense: int,
    topExpenseAmount: int,
    topExpenseDescription: string,
    diffBetweenTwoPeriods: int,
    topExpenseCategories: seq<(string, string)>)

  /** `__get_stats(period, older_period, month_or_week)` over a frame `all`: the average
      per bucket over the whole frame, and the other figures over the period. The top
      expense of an empty period raises, so there are no statistics then. */
  function StatsOf(all: seq<Transaction>, period: seq<Transaction>, older: seq<Transaction>, freq: Frequency): (r: Result<Stats>)
    requires UniqueTimes(period)
    ensures r.Err? <==> period == []
    ensures r.Err? ==> r.error == EmptyPeriod
    ensures r.Ok? ==>
      && r.value.averageExpense == AverageExpense(all, BucketKey(freq))
      && r.value.totalExpense == TotalExpense(period)
      && r.value.diffBetweenTwoPeriods == r.value.totalExpense - TotalExpense(older)
      && (exists k :: 0 <= k < |period| && IsTopRow(period, k)
            && r.value.topExpenseAmount == period[k].amountPence && r.value.topExpenseDescription == period[k].description)
      && r.value.topExpenseCategories == TopExpenseCategories(period)
      && |r.value.topExpenseCategories| <= 5
      && (forall i :: 0 <= i < |r.value.topExpenseCategories| ==>
            var (c, amount) := r.value.topExpenseCategories[i];
            HasCategory(period, c) && ParseMoney("£", amount) == Some(CategoryTotal(period, c)))
  {
    var average := AverageExpense(all, BucketKey(freq));
    var total := TotalExpense(period);
    match TopExpenseAndDescription(period)
    case Err(e) => Err(e)
    case Ok(top) =>
      Ok(Stats(average, total, top.amountPence, top.description, DiffBetweenPeriods(period, older), TopExpenseCategories(period)))
  }

  const Week: nat := 7 * SecondsPerDay

  /** The two weeks the weekly page compares are the two whole weeks before the week
      of `now`, one after the other. */
  lemma WeeklyWindows(now: Instant)
    requires now >= 2 * Week
    ensures var k := WeekIndex(DayOf(now));
      && k >= 2
      && IsoWeekOf(now) == IsoOfWeekIndex(k)
      && IsoWeekOf(now - Week) == IsoOfWeekIndex(k - 1)
      && IsoWeekOf(now - 2 * Week) == IsoOfWeekIndex(k - 2)
      && IsoBefore(IsoWeekOf(now - 2 * Week), IsoWeekOf(now - Week))
      && IsoBefore(IsoWeekOf(now - Week), IsoWeekOf(now))
  {
    var k := WeekIndex(DayOf(now));
    var t1 := now - Week;
    var t2 := t1 - Week;
    assert t2 == now - 2 * Week;
    WeekBack(now);
    WeekBack(t1);
    assert WeekIndex(DayOf(t1)) == k - 1 && WeekIndex(DayOf(t2)) == k - 2;
    assert k >= 2;
    IsoOfWeekIndexMonotone(k - 2, k - 1);
    IsoOfWeekIndexMonotone(k - 1, k);
  }

  /** A week before an instant lies in the previous Monday-to-Sunday week. */
  lemma WeekBack(t: Instant)
    requires t >= Week
    ensures DayOf(t - Week) == DayOf(t) - 7 && WeekIndex(DayOf(t - Week)) == WeekIndex(DayOf(t)) - 1
  {
  }

  /** The two months the monthly page compares: the month before the month of `now`
      and the one before that. */
  function MonthsBack(now: Instant, k: nat): (ym: YearMonth)
    requires MonthIndex(YearMonthOf(DateOf(now))) - k >= 12
    ensures 1 <= ym.month <= 12 && ym.year >= 1
    ensures MonthIndex(ym) == MonthIndex(YearMonthOf(DateOf(now))) - k
  {
    YearMonthOf(SubtractMonths(DateOf(now), k))
  }

  class PageComponents {
    var df: Frame
    var excludeHoliday: bool
    var transactionPeriod: TransactionPeriod

    /** The page's frame is the one its `TransactionPeriod` holds. */
    predicate Valid()
      reads this, transactionPeriod
    {
      transactionPeriod.df == df
    }

    /** `__init__`: with `exclude_holiday` the page works on a new frame without the
        holiday rows; otherwise it works on the caller's frame itself. */
    constructor (df: Frame, excludeHoliday: bool)
      ensures Valid()
      ensures this.excludeHoliday == excludeHoliday
      ensures excludeHoliday ==> fresh(this.df) && this.df.rows == WithoutHoliday(df.rows) && this.df.timeIndexed == df.timeIndexed
      ensures !excludeHoliday ==> this.df == df
      ensures fresh(transactionPeriod)
    {
      var frame := df;
      if excludeHoliday {
        frame := new Frame(WithoutHoliday(df.rows), df.timeIndexed);
      }
      this.df := frame;
      this.excludeHoliday := excludeHoliday;
      transactionPeriod := new TransactionPeriod(frame);
    }

    /** `__get_stats`. */
    method GetStats(period: seq<Transaction>, older: seq<Transaction>, freq: Frequency) returns (r: Result<Stats>)
      requires UniqueTimes(period)
      ensures r == StatsOf(df.rows, period, older, freq)
    {
      r := StatsOf(df.rows, period, older, freq);
    }

    /** `weekly_view` with the current time passed in: the statistics of the ISO week
        of a week ago against the ISO week of two weeks ago. */
    method WeeklyView(now: Instant) returns (r: Result<Stats>)
      requires Valid() && df.timeIndexed && UniqueTimes(df.rows)
      requires now >= 2 * Week
      modifies df
      ensures Valid() && df.rows == old(df.rows) && df.timeIndexed
      ensures df.isoColumns == Some(IsoColumn(df.rows))
      ensures UniqueTimes(WeekRows(df.rows, IsoWeekOf(now - Week)))
      ensures r == StatsOf(df.rows, WeekRows(df.rows, IsoWeekOf(now - Week)), WeekRows(df.rows, IsoWeekOf(now - 2 * Week)), Weekly)
    {
      var lastWeek := IsoWeekOf(now - Week);
      var weekRows := transactionPeriod.GetWeekDf(lastWeek.year, lastWeek.week);
      var weekBefore := IsoWeekOf(now - 2 * Week);
      var weekBeforeRows := transactionPeriod.GetWeekDf(weekBefore.year, weekBefore.week);
      FilterKeepsUniqueTimes(df.rows, InIsoWeek(lastWeek));
      r := GetStats(weekRows, weekBeforeRows, Weekly);
    }

    /** `monthly_view` with the current time passed in: the statistics of last month
        against the month before, and the month-by-category table of the whole frame.
        An empty last month raises before the table is built. */
    method MonthlyView(now: Instant) returns (r: Result<(Stats, Pivot)>)
      requires Valid() && df.timeIndexed && UniqueTimes(df.rows)
      requires MonthIndex(YearMonthOf(DateOf(now))) - 2 >= 12 && DateOf(now).year <= 9999
      ensures UniqueTimes(MonthRows(df.rows, MonthsBack(now, 1)))
      ensures var last, before := MonthRows(df.rows, MonthsBack(now, 1)), MonthRows(df.rows, MonthsBack(now, 2));
        && (r.Err? <==> last == [])
        && (r.Err? ==> r.error == EmptyPeriod)
        && (r.Ok? ==> StatsOf(df.rows, last, before, Monthly) == Ok(r.value.0))
        && (r.Ok? ==> r.value.1 == PivotOf(df.rows, BucketKey(Monthly)))
    {
      var lastMonth, monthBefore := MonthsBack(now, 1), MonthsBack(now, 2);
      MonthKeyRoundTrip(lastMonth);
      MonthKeyRoundTrip(monthBefore);
      var lastRows := transactionPeriod.GetMonthDf(MonthKey(lastMonth));
      var beforeRows := transactionPeriod.GetMonthDf(MonthKey(monthBefore));
      FilterKeepsUniqueTimes(df.rows, InMonth(lastMonth));
      var stats := StatsOf(df.rows, lastRows.value, beforeRows.value, Monthly);
      if stats.Err? {
        r := Err(stats.error);
      } else {
        var table := transactionPeriod.PeriodicCategorySpending(Monthly);
        r := Ok((stats.value, table));
      }
    }
  }
}
