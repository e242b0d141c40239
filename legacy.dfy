/** `FinancialAnalysis` (src/personal_dashboard/backend/financial_analysis.py): the earlier
    single-class form of the analysis. It indexes the caller's frame by transaction
    time in place, buckets its category table by month start, and writes category
    amounts with the prefix "Â£". */
module Legacy {
  import opened Outcomes
  import opened Calendar
  import opened Numerals
  import opened Ledger
  import opened Spending
  import opened Pivots
  import opened Periods

  /** The prefix the legacy class writes before each category amount. */
  const LegacyPrefix: string := "Â£"

  class FinancialAnalysis {
    var df: Frame

    /** `__init__`: converts `transaction_time` and moves it into the index of the
        caller's own frame (`set_index(..., inplace=True)`). Once that column has
        become the index, reading `df["transaction_time"]` for the conversion raises
        `KeyError`, so a frame can be taken only once. */
    constructor (df: Frame)
      requires !df.timeIndexed
      modifies df
      ensures this.df == df
      ensures df.rows == old(df.rows) && df.timeIndexed && df.isoColumns == old(df.isoColumns)
    {
      this.df := df;
      df.timeIndexed := true;
    }

    /** `get_monthly_category_spending_df`: the category table with calendar-month
        buckets ("MS" bins hold the same rows as "ME" bins; only their labels differ). */
    method GetMonthlyCategorySpending() returns (p: Pivot)
      requires df.timeIndexed
      ensures p == PivotOf(df.rows, BucketKey(Monthly))
    {
      p := PivotOf(df.rows, BucketKey(Monthly));
    }

    /** `get_week_df`: as in `TransactionPeriod`, writing the `year` and `week` columns
        into the held frame. */
    method GetWeekDf(year: int, week: int) returns (r: seq<Transaction>)
      requires df.timeIndexed
      modifies df
      ensures df.rows == old(df.rows) && df.timeIndexed
      ensures df.isoColumns == Some(IsoColumn(df.rows))
      ensures r == WeekRows(df.rows, IsoWeek(year, week))
    {
      var col := IsoColumn(df.rows);
      df.isoColumns := Some(col);
      r := SelectWhere(df.rows, col, IsoWeek(year, week));
      SelectByIsoColumn(df.rows, IsoWeek(year, week));
    }

    method GetMonthDf(key: string) returns (r: Result<seq<Transaction>>)
      requires df.timeIndexed
      ensures r == MonthSelect(df.rows, key)
    {
      r := MonthSelect(df.rows, key);
    }

    /** `get_total_expense(df)`: the sum of the amounts of the frame passed in. */
    method GetTotalExpense(rows: seq<Transaction>) returns (total: int)
      ensures total == TotalExpense(rows)
    {
      total := TotalExpense(rows);
    }

    method GetTopExpenseAndDescription(rows: seq<Transaction>) returns (r: Result<TopExpense>)
      requires UniqueTimes(rows)
      ensures r.Err? <==> rows == []
      ensures r.Err? ==> r.error == EmptyPeriod
      ensures r.Ok? ==> exists k :: 0 <= k < |rows| && IsTopRow(rows, k) && r.value == TopExpense(rows[k].amountPence, rows[k].description)
    {
      r := TopExpenseAndDescription(rows);
    }

    /** `get_top_expense_categories(df)` as written: the top five categories with the
        "Â£" prefix. */
    method GetTopExpenseCategories(rows: seq<Transaction>) returns (r: seq<(string, string)>)
      ensures r == TopCategoriesWithPrefix(rows, LegacyPrefix)
    {
      r := TopCategoriesWithPrefix(rows, LegacyPrefix);
    }

    /** `get_average_expense(period)`: over the whole held frame, the mean bucket sum
        with the first and last buckets dropped. */
    method GetAverageExpense(freq: Frequency) returns (r: Option<Mean>)
      requires df.timeIndexed
      ensures r == AverageExpense(df.rows, BucketKey(freq))
    {
      r := AverageExpense(df.rows, BucketKey(freq));
    }

    method GetDiffBetweenPeriods(recent: seq<Transaction>, older: seq<Transaction>) returns (d: int)
      ensures d == TotalExpense(recent) - TotalExpense(older)
    {
      var a := GetTotalExpense(recent);
      var b := GetTotalExpense(older);
      d := a - b;
    }
  }

  /** The UTF-8 encoding of a character between U+0080 and U+07FF: two bytes. */
  function Utf8TwoBytes(c: char): (bs: seq<int>)
    requires 0x80 <= c as int < 0x800
    ensures |bs| == 2 && 0xC0 <= bs[0] < 0xE0 && 0x80 <= bs[1] < 0xC0
    ensures (bs[0] - 0xC0) * 64 + (bs[1] - 0x80) == c as int
  {
    [0xC0 + c as int / 64, 0x80 + c as int % 64]
  }

  /** Bytes read as Latin-1: each byte becomes the character with that code. */
  function Latin1(bs: seq<int>): (s: string)
    requires forall i :: 0 <= i < |bs| ==> 0 <= bs[i] < 256
    ensures |s| == |bs| && forall i :: 0 <= i < |bs| ==> s[i] as int == bs[i]
  {
    seq(|bs|, i requires 0 <= i < |bs| => bs[i] as char)
  }

  /** "Â£" is the pound sign's UTF-8 bytes read back as Latin-1. */
  lemma LegacyPrefixIsMisreadPound()
    ensures Latin1(Utf8TwoBytes('£')) == LegacyPrefix
  {
    var s := Latin1(Utf8TwoBytes('£'));
    assert s[0] == 'Â' && s[1] == '£';
  }

  /** Amounts written by the legacy class do not read as pounds: under the "£" prefix
      every one of them fails to parse, whereas `Spending.TopExpenseCategories` reads
      back each category's total. */
  lemma LegacyAmountsNotPounds(rows: seq<Transaction>)
    ensures var r := TopCategoriesWithPrefix(rows, LegacyPrefix);
      forall i :: 0 <= i < |r| ==> ParseMoney("£", r[i].1) == None
  {
    var r := TopCategoriesWithPrefix(rows, LegacyPrefix);
    forall i | 0 <= i < |r|
      ensures ParseMoney("£", r[i].1) == None
    {
      assert r[i].1[..|LegacyPrefix|] == LegacyPrefix;
      assert r[i].1[..1] == "Â";
    }
  }
}
