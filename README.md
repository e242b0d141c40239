# Personal dashboard spending analytics, in Dafny

This project models the analytics core of a personal finance dashboard. The dashboard
keeps a ledger of transactions, each with a timestamp, a description, an amount in
pounds and a category. From that ledger it:

- cuts out one ISO week or one calendar month;
- builds a (period, category) table of spending;
- computes the figures shown on its weekly and monthly pages: the total, the largest
  expense and its description, the five categories with the highest spend, the
  average spend per period and the difference from the period before;
- formats the small date labels used around those pages.

The model follows the Python modules file by file:

| Dafny module | file | models |
|---|---|---|
| `Spending` (spending.dfy) | personal_dashboard/backend/financial_analysis.py | `SpendingAnalysis`: total, top expense, top categories, average, difference |
| `Pivots` (pivot.dfy) | personal_dashboard/backend/financial_analysis.py | `get_periodic_category_spending_df`: the dense bucket-by-category table |
| `Periods` (periods.dfy) | personal_dashboard/backend/financial_analysis.py | `TransactionPeriod`: ISO-week and month selection; a class, because `get_week_df` writes columns into the frame it holds |
| `Pages` (pages.dfy) | src/personal_dashboard/frontend/page_components.py | `PageComponents`: the Holiday filter, `Stats` (`__get_stats`), and the choice of the two weeks and two months each page compares |
| `Legacy` (legacy.dfy) | src/personal_dashboard/backend/financial_analysis.py | the older `FinancialAnalysis` class |
| `DateLabels` (datelabels.dfy) | src/personal_dashboard/backend/utils.py | `get_day_suffix`, `extract_first_date`, and `get_last_week_dates` with today's date as a parameter |
| `Calendar` (calendar.dfy) | — | proleptic Gregorian dates, weekdays, ISO 8601 weeks and month arithmetic, over Python's day ordinals |
| `Numerals` (numerals.dfy) | — | `str(n)`, `f"{n:02}"` and `f"{prefix}{x:,.2f}"`, with a parser that reads amounts back |
| `Ledger` (ledger.dfy) | — | transactions, instants, resampling buckets, boolean-mask selection, and the mutable `Frame` |
| `Outcomes` (outcomes.dfy) | — | `Option`, `Result` and the exceptions the code can raise (`EmptyPeriod`, `IndexError`, `KeyError`) |

**Representation choices**

- Amounts are whole pence (`int`).
- A timestamp is a count of seconds since 0001-01-01 00:00:00 (`Instant`). Its date is
  Python's day ordinal, where day 1 is a Monday.
- A pandas frame is a `Frame` object holding a sequence of rows. It also records
  whether the time column has moved into the index, and the `year`/`week` columns
  once `get_week_df` has written them. Frames are objects because the code shares
  and mutates them:
  - the page's `TransactionPeriod` holds the page's own frame;
  - without the Holiday filter, the page frame is the caller's frame;
  - the older class re-indexes the caller's frame in place.
- Weekly buckets ("W") are the Monday-to-Sunday weeks. Monthly buckets ("MS" and
  "ME") are calendar months. Buckets are numbered by consecutive integers. A bucket
  *key* (`Transaction -> int`) lets the table and average proofs work for either
  frequency.
- A mean is kept as an exact fraction `Mean(total, count)`. `None` stands for the NaN
  that pandas returns for the mean of an empty series.

**Behaviour the model takes from the code, where a reader of the class and method names might expect otherwise:**

- `get_week_df` writes `year` and `week` columns into the frame it holds. That frame
  is shared with the page, and without the Holiday filter with the caller. The
  selection layer is therefore not read-only, and `GetWeekDf` states the new state of
  the frame.
- `get_average_expense` always drops the first and last buckets (`[1:-1]`). It does
  not leave that choice to its callers.
- The pages read the wall clock. The model takes that moment as a parameter (`now`,
  `today`).
- No percentage change is computed anywhere, so no division by zero can occur. The
  difference between periods is a plain subtraction.

## Model

| member | source | states |
|---|---|---|
| Spending.TotalOrderFree | personal_dashboard/backend/financial_analysis.py:34-37 | the total of a frame does not depend on the order of its rows: frames with the same rows in any order have the same total |
| Spending.TotalPartition | personal_dashboard/backend/financial_analysis.py:34-37 | when one mask is the disjoint union of two others, the total of its selection is the sum of theirs |
| Spending.TotalExpense | personal_dashboard/backend/financial_analysis.py:34-37 | `df["amount_gbp"].sum()`, 0 for an empty frame. The function has no contract of its own; its properties are in Spending.TotalAppend (the total of two frames put together is the sum of their totals), Spending.TotalOrderFree and Spending.TotalPartition |
| Spending.TopExpenseAndDescription | personal_dashboard/backend/financial_analysis.py:39-44 | the result is an error exactly for the empty frame (`idxmax` raises). Otherwise it is the amount and description of a row with the largest amount that no earlier row equals |
| Spending.TopExpenseFirstOfTies | personal_dashboard/backend/financial_analysis.py:41 | with amounts 10, 50, 50 the first row holding 50 is reported, as `idxmax` picks the first maximum |
| Spending.DiffProperties | personal_dashboard/backend/financial_analysis.py:61-71 | the difference of a period with itself is 0; swapping the periods negates it; against an empty older period it is the recent total |
| Spending.DiffBetweenPeriods | personal_dashboard/backend/financial_analysis.py:61-71 | the recent total minus the older total. The function has no contract of its own; Spending.DiffProperties carries its properties (zero against itself, antisymmetric, equal to the recent total when the older period is empty) |
| Spending.TopRanked | personal_dashboard/backend/financial_analysis.py:48-52 | `head()` of the sorted group sums keeps min(5, number of categories) entries. They are ranked and distinct, and each is a category of the frame paired with its summed amount |
| Spending.TopCategoriesEntries | personal_dashboard/backend/financial_analysis.py:46-54 | the result lists min(5, number of categories) entries. Each entry is a category of the frame with its own summed amount, formatted with the given prefix |
| Spending.TopCategoriesOrder | personal_dashboard/backend/financial_analysis.py:48-49 | the listed categories are distinct, in non-increasing order of summed amount |
| Spending.TopCategoriesWithPrefix | personal_dashboard/backend/financial_analysis.py:50-53 | one entry per kept category, in rank order: the category paired with its summed amount formatted as money with the given prefix |
| Spending.TopCategoriesCutoff | personal_dashboard/backend/financial_analysis.py:49-52 | a category of the frame that is not listed spends no more than any listed category |
| Spending.TopExpenseCategories | personal_dashboard/backend/financial_analysis.py:46-54 | at most five entries; each names a category of the frame, and its "£" string parses back to that category's total in pence |
| Spending.AverageExpense | personal_dashboard/backend/financial_analysis.py:56-59 | the average is NaN (`None`) exactly when the frame is empty or its first and last buckets are at most one apart, i.e. when `[1:-1]` is empty |
| Spending.AverageIsInteriorMean | personal_dashboard/backend/financial_analysis.py:58 | otherwise the average is the total of the rows strictly between the first and last bucket, over the number of buckets between them, empty ones included |
| Spending.TrimmedMeanBounds | personal_dashboard/backend/financial_analysis.py:58 | `mean()` of the bucket sums that `[1:-1]` keeps lies between the smallest and the largest of them |
| Spending.Mean.Value | personal_dashboard/backend/financial_analysis.py:58 | the value of a mean is the number that, taken `count` times, gives `total` |
| Spending.BucketSumsEntry | personal_dashboard/backend/financial_analysis.py:58 | the resampled sum of each bucket is the total of that bucket's rows, and 0 for a bucket without rows |
| Pivots.PivotOf | personal_dashboard/backend/financial_analysis.py:12-17 | the table has one row per observed bucket in time order and one column per category in name order, every cell present; each cell is the summed amount of its (bucket, category) rows |
| Pivots.UnobservedCellIsZero | personal_dashboard/backend/financial_analysis.py:16 | a (bucket, category) pair that no row has reads 0 (`fill_value=0`) |
| Pivots.PivotColumnTotals | personal_dashboard/backend/financial_analysis.py:12-17 | each column of the table sums to the category's total over the whole frame |
| Pivots.PivotRowTotals | personal_dashboard/backend/financial_analysis.py:12-17 | each row of the table sums to the bucket's total over the whole frame |
| Periods.IsoWeekSpan | personal_dashboard/backend/financial_analysis.py:20-21 | an instant has the ISO week of a day exactly when it lies between that week's Monday 00:00:00 and the following Monday 00:00:00 |
| Periods.IsoWeekOf | personal_dashboard/backend/financial_analysis.py:20-21 | the ISO (year, week) of an instant, read from the ordinal of its day. The function has no contract of its own; Periods.IsoWeekSpan (the week is the Monday-to-Sunday span) and Periods.WeeklyBucketIsIsoWeek carry its properties |
| Periods.WeekRows | personal_dashboard/backend/financial_analysis.py:23-25 | the rows whose ISO week is the requested one. The function has no contract of its own; Periods.WeekRowsSpan (exactly the rows stamped between that Monday and the next) and Periods.SelectByIsoColumn carry its properties |
| Periods.IsoWeekEdges | personal_dashboard/backend/financial_analysis.py:19-26 | the first and last second of a week are in it; the second before it and the second after it are not |
| Periods.WeekRowsSpan | personal_dashboard/backend/financial_analysis.py:19-26 | the rows selected for an ISO week are exactly the rows of the frame stamped between that week's Monday and the next Monday |
| Periods.SelectByIsoColumn | personal_dashboard/backend/financial_analysis.py:23-25 | masking on the written `year`/`week` columns selects the rows of that ISO week |
| Periods.WeeklyBucketIsIsoWeek | personal_dashboard/backend/financial_analysis.py:12-17 | two instants share a weekly resampling bucket exactly when they share an ISO (year, week) |
| Periods.WeekUsesIsoYear | personal_dashboard/backend/financial_analysis.py:20-21 | a row stamped on 30 December 2024 has calendar year 2024 but ISO week 1 of 2025 |
| Periods.MonthKeyRoundTrip | personal_dashboard/backend/financial_analysis.py:28-29 | every "YYYY-MM" key written for a month of the years 0 to 9999 reads back as that month |
| Periods.MonthSelect | personal_dashboard/backend/financial_analysis.py:28-29 | a key that names no month raises `KeyError`; otherwise the result holds exactly the rows of the frame dated in that month |
| Periods.MonthlyBucketIsMonth | personal_dashboard/backend/financial_analysis.py:12-17 | an instant is in the monthly bucket of a month exactly when its date is in that month |
| Periods.TransactionPeriod.constructor | personal_dashboard/backend/financial_analysis.py:9-10 | holds the frame it is given, by reference |
| Periods.TransactionPeriod.PeriodicCategorySpending | personal_dashboard/backend/financial_analysis.py:12-17 | returns the table of `PivotOf` for the requested frequency |
| Periods.TransactionPeriod.GetWeekDf | personal_dashboard/backend/financial_analysis.py:19-26 | writes the ISO week of every row into the held frame and leaves its rows unchanged; returns the rows of the requested ISO week |
| Periods.TransactionPeriod.GetMonthDf | personal_dashboard/backend/financial_analysis.py:28-29 | returns the month selection of `MonthSelect`, `KeyError` included |
| Pages.HolidayExcluded | src/personal_dashboard/frontend/page_components.py:20-21 | without holidays the frame keeps every non-holiday row and no holiday row, and its total drops by exactly the holiday spend |
| Pages.WithoutHoliday | src/personal_dashboard/frontend/page_components.py:20-21 | the mask `df["category"] != "Holiday"`. The function has no contract of its own; Pages.HolidayExcluded carries its properties |
| Pages.StatsOf | src/personal_dashboard/frontend/page_components.py:25-47 | no statistics exactly when the period is empty (the top expense raises). Otherwise: the average over the whole frame; the period's total; a top row of the period; the difference from the older period; the top categories of `TopExpenseCategories` for the period, at most five, whose "£" amounts read back as their totals |
| Pages.WeeklyWindows | src/personal_dashboard/frontend/page_components.py:50-56 | one and two weeks before `now` are the two Monday-to-Sunday weeks just before the week of `now`, named by consecutive ISO weeks in chronological order |
| Pages.MonthsBack | src/personal_dashboard/frontend/page_components.py:89-93 | k months before `now` is a valid month whose month count is k less than that of `now` |
| Pages.PageComponents.constructor | src/personal_dashboard/frontend/page_components.py:17-23 | with `exclude_holiday` the page gets a new frame without the holiday rows; otherwise it shares the caller's frame. Its `TransactionPeriod` holds the page's frame |
| Pages.PageComponents.GetStats | src/personal_dashboard/frontend/page_components.py:25-47 | the page's statistics are `StatsOf` over the page's frame |
| Pages.PageComponents.WeeklyView | src/personal_dashboard/frontend/page_components.py:49-59 | compares the ISO week of a week ago with the ISO week of two weeks ago, averaging weekly over the page's frame; the rows are unchanged, the frame stays shared, and it is left holding the ISO `year`/`week` columns of every row |
| Pages.PageComponents.MonthlyView | src/personal_dashboard/frontend/page_components.py:88-107 | compares last month with the month before, averaging monthly over the page's frame; raises (`EmptyPeriod`, the top expense of an empty month) exactly when last month is empty; otherwise also returns the month-by-category table of the whole frame |
| Legacy.FinancialAnalysis.constructor | src/personal_dashboard/backend/financial_analysis.py:8-12 | moves the time column into the index of the caller's own frame and changes no rows; a frame already indexed is refused, since reading its `transaction_time` column for the conversion raises `KeyError` then |
| Legacy.FinancialAnalysis.GetMonthlyCategorySpending | src/personal_dashboard/backend/financial_analysis.py:14-19 | the category table bucketed by calendar month |
| Legacy.FinancialAnalysis.GetWeekDf | src/personal_dashboard/backend/financial_analysis.py:21-28 | writes the ISO week of every row into the held frame; returns the rows of the requested week |
| Legacy.FinancialAnalysis.GetMonthDf | src/personal_dashboard/backend/financial_analysis.py:30-31 | the month selection of `MonthSelect` |
| Legacy.FinancialAnalysis.GetTotalExpense | src/personal_dashboard/backend/financial_analysis.py:33-35 | the sum of the amounts of the frame passed in |
| Legacy.FinancialAnalysis.GetTopExpenseAndDescription | src/personal_dashboard/backend/financial_analysis.py:37-41 | an error exactly for an empty frame; otherwise a top row's amount and description |
| Legacy.FinancialAnalysis.GetTopExpenseCategories | src/personal_dashboard/backend/financial_analysis.py:43-50 | the top five categories with their amounts written after the prefix "Â£" |
| Legacy.FinancialAnalysis.GetAverageExpense | src/personal_dashboard/backend/financial_analysis.py:52-54 | the trimmed average over the whole held frame; the argument only picks the frequency |
| Legacy.FinancialAnalysis.GetDiffBetweenPeriods | src/personal_dashboard/backend/financial_analysis.py:56-65 | the recent total minus the older total |
| Legacy.LegacyPrefixIsMisreadPound | src/personal_dashboard/backend/financial_analysis.py:47 | "Â£" is the UTF-8 encoding of "£" read back as Latin-1 |
| Legacy.LegacyAmountsNotPounds | src/personal_dashboard/backend/financial_analysis.py:47 | no amount the legacy class writes reads as a pound amount |
| DateLabels.DaySuffix | src/personal_dashboard/backend/utils.py:15-19 | `IndexError` exactly when the day is outside 4-20 and 24-30 and its last digit is 4 or more; otherwise one of the four suffixes |
| DateLabels.DaySuffixOfCalendarDays | src/personal_dashboard/backend/utils.py:15-19 | for every day 1-31 the suffix is the English ordinal suffix (st, nd, rd, th) and nothing raises |
| DateLabels.DaySuffixOutsideMonth | src/personal_dashboard/backend/utils.py:19 | day 0 gets "rd" through the negative index, and day 34 raises `IndexError` |
| DateLabels.ExtractFirstDate | src/personal_dashboard/backend/utils.py:22-29 | "01" without a string. Nothing when no number starts a word. Otherwise the leftmost such number, taken whole, read as an integer and written with at least two digits |
| DateLabels.FirstDateOfWeekLabel | src/personal_dashboard/backend/utils.py:22-29 | reading back a week label such as "3ʳᵈ-9ᵗʰ" gives its first day, zero-padded ("03") |
| DateLabels.LastWeekIsPreviousWeek | src/personal_dashboard/backend/utils.py:8-10 | last week's start is a Monday in the week before today's, and six days later is the Sunday of the same week |
| DateLabels.LastWeekDates | src/personal_dashboard/backend/utils.py:6-12 | "DD-DD": two-digit days of the month of last week's Monday and Sunday, joined by a dash |
| Calendar.FromOrdinalOrdinal | src/personal_dashboard/frontend/page_components.py:89 | converting a valid date to its day ordinal and back gives the same date |
| Calendar.FromOrdinal | src/personal_dashboard/frontend/page_components.py:89 | the date of a day ordinal, as `date.fromordinal` gives it: a valid date whose ordinal is the one given. Calendar.FromOrdinalOrdinal proves the other direction of the round trip |
| Calendar.IsoSameWeekIff | personal_dashboard/backend/financial_analysis.py:20-21 | two days have the same ISO (year, week) exactly when they are in the same Monday-to-Sunday week |
| Calendar.IsoCalendar | personal_dashboard/backend/financial_analysis.py:20-21 | the ISO week number of a day is between 1 and 53. The rest of ISO 8601's rule is in other lemmas: Calendar.IsoSameWeekIff (weeks run Monday to Sunday), Calendar.IsoNext (numbering without gaps), Calendar.FourthOfJanuaryInWeekOne (where week 1 starts), Calendar.IsoCalendarMonotone and Calendar.LateDecemberInNextIsoYear |
| Calendar.IsoNext | personal_dashboard/backend/financial_analysis.py:20-21 | ISO weeks are numbered without gaps. The week after week w of a year is week w + 1 of the same year, or else week 1 of the next year |
| Calendar.IsoCalendarMonotone | personal_dashboard/backend/financial_analysis.py:20-21 | a later day never has an earlier ISO week |
| Calendar.FourthOfJanuaryInWeekOne | personal_dashboard/backend/financial_analysis.py:20-21 | 4 January of every year is in ISO week 1 of that year |
| Calendar.LateDecemberInNextIsoYear | personal_dashboard/backend/financial_analysis.py:20-21 | 30 December 2024 is a Monday of calendar year 2024 in ISO week 1 of 2025 |
| Calendar.SubtractMonths | src/personal_dashboard/frontend/page_components.py:89 | `relativedelta(months=k)` gives a valid date k months earlier. It keeps the day of the month when the target month has that day, and otherwise gives the target month's last day |
| Numerals.MoneyRoundTrip | personal_dashboard/backend/financial_analysis.py:51 | `f"{prefix}{amount:,.2f}"` loses nothing: the amount in pence is read back from the string |
| Numerals.UngroupThousands | personal_dashboard/backend/financial_analysis.py:51 | removing the thousands separators that `,` inserts gives back the digits |
| Numerals.FormatMoney | personal_dashboard/backend/financial_analysis.py:51 | `f"{prefix}{amount:,.2f}"` of an amount in pence: the prefix, then a string ending in a point and two digits. Numerals.MoneyRoundTrip, Numerals.CommaPlacement and Numerals.FormatMoneyExample carry the rest |
| Numerals.CommaPlacement | personal_dashboard/backend/financial_analysis.py:51 | the `,` option puts a comma at exactly the positions that are a multiple of four characters from the end of the grouped digits, and a digit at every other position |
| Numerals.FormatMoneyExample | personal_dashboard/backend/financial_analysis.py:51 | 123456789 pence is written "£1,234,567.89" |
| Numerals.ValueOfDecimal | src/personal_dashboard/backend/utils.py:28-29 | the decimal numeral of a number reads back as that number |

## Left out

- Floating point: amounts are exact pence and the average is an exact fraction. Rounding in `sum`, `mean` and `:,.2f` is not modelled. `Mean.Value` gives the mean as a real number, which Spending.TrimmedMeanBounds bounds.
- Bucket labels: pandas labels weekly bins by their Sunday, and "MS"/"ME" bins by the first or last day of the month. The model numbers buckets by integers. "MS" and "ME" hold the same rows and differ only in labels, which the model does not keep.
- `df.loc` accepts many partial date strings. Only the "YYYY-MM" month keys the pages build are modelled.
- Periods.MonthSelect: every well-formed month key gives the rows of that month, an empty selection when the month has none. On a sorted index, pandas gives that empty selection for a month inside the index's time range, but raises `KeyError` for a month lying wholly before the first or after the last row. The model takes the first case for every month; the `KeyError` of a month outside the range is not modelled.
- `\b` and `\d` in `extract_first_date` are Unicode-aware in Python. The model treats ASCII digits as digits, and ASCII letters, digits, `_` and the superscript suffix letters as word characters. These are the characters of the labels the dashboard builds.
- `strftime("%Y")` for years below 1000 is platform-dependent. Periods.MonthKeyRoundTrip covers the years 0 to 9999 with four digits, and Pages.PageComponents.MonthlyView requires a year of at most 9999.
- Dates and times have no upper or lower bound in the model. Instants are any natural number of seconds from 0001-01-01, while pandas' `datetime64[ns]` holds only 1677-09-21 to 2262-04-11. Periods.ParseMonthKey and Periods.MonthKeyRoundTrip accept the year 0, which Python's `datetime` cannot represent because its smallest year is 1. So the model covers a wider range of dates than the program does.
- `dt.now()`: the wall clock is a parameter (`now`, `today`).
- Calendar.SubtractMonths and Pages.MonthsBack require at least one earlier year. `relativedelta` raises before year 1, and the model does not reach that case.
- Spending.TopRanked: ties between equal category totals are ordered by category name, the order `groupby` produces. `sort_values` does not promise an order for ties: its default sort, numpy's quicksort, is not stable. So pandas may list tied categories in another order.
- Spending.TopExpenseAndDescription, Legacy.FinancialAnalysis.GetTopExpenseAndDescription, Pages.StatsOf, Pages.PageComponents.GetStats, Pages.PageComponents.WeeklyView and Pages.PageComponents.MonthlyView require distinct timestamps. With duplicate index labels, `df.loc[idxmax]` returns several rows and the code then reads a Series instead of a scalar. That behaviour is not modelled.
- Pages.PageComponents.constructor: the filtered frame pandas builds is a copy. The model builds it without the `year`/`week` columns that the caller's frame may already hold.
- Legacy.FinancialAnalysis.constructor: requires a frame whose time column is not yet the index. Constructing twice over one frame raises `KeyError` when the conversion reads `df["transaction_time"]`, which is by then the index and no longer a column; a constructor cannot return that error, so the model refuses that frame instead.
- `pd.to_datetime` parsing of the time column is not modelled. Rows hold instants already.
- Rendering is not modelled: metrics, tables, pie charts and bar charts (src/personal_dashboard/frontend/page_components.py:62-86, 109-112 and 117-146, and figures.py).
- The database, data loading, Telegram, authentication and the dashboard script are not part of this model.
- The page module imports `TransactionPeriod` from the older backend module and calls `get_monthly_category_spending_df`, which only the older class defines; the dashboard script passes a chosen date that the page methods do not accept. The model reads these as one version of the code: the page uses the newer `TransactionPeriod` with calendar-month buckets, and takes its time as a parameter.

## Findings

| source | as written | input that shows it | evidently intended | confidence | as-written member | corrected member |
|---|---|---|---|---|---|---|
| src/personal_dashboard/backend/financial_analysis.py:47 | amounts are written after the prefix "Â£", the UTF-8 bytes of "£" misread as Latin-1 | any frame with a category, e.g. one row of £12.00 in "Food", gives "Â£12.00" | the prefix "£", as in personal_dashboard/backend/financial_analysis.py:51 | not executed | Legacy.LegacyAmountsNotPounds | Spending.TopExpenseCategories |
