/** `SpendingAnalysis` (personal_dashboard/backend/financial_analysis.py): stateless
    statistics over a frame of transactions — the total, the top expense and its
    description, the five categories with the highest spend, the average spend per
    period with the first and last periods trimmed, and the difference between two periods. */
module Spending {
  import opened Outcomes
  import opened Calendar
  import opened Numerals
  import opened Ledger

  /** `get_total_expense`: `df["amount_gbp"].sum()`, which is 0 for an empty frame. */
  function TotalExpense(rows: seq<Transaction>): int
  {
    if rows == [] then 0 else rows[0].amountPence + TotalExpense(rows[1..])
  }

  lemma {:induction false} TotalAppend(a: seq<Transaction>, b: seq<Transaction>)
    ensures TotalExpense(a + b) == TotalExpense(a) + TotalExpense(b)
    decreases |a|
  {
    if a == [] {
      assert a + b == b;
    } else {
      TotalAppend(a[1..], b);
      assert (a + b)[1..] == a[1..] + b;
    }
  }

  /** The total does not depend on the order of the rows: two frames holding the
      same rows in any order have the same total. */
  lemma {:induction false} TotalOrderFree(a: seq<Transaction>, b: seq<Transaction>)
    requires multiset(a) == multiset(b)
    ensures TotalExpense(a) == TotalExpense(b)
    decreases |a|
  {
    if a == [] {
      assert |b| == |multiset(b)| == 0;
    } else {
      var x := a[0];
      assert x in multiset(b);
      var i :| 0 <= i < |b| && b[i] == x;
      var rest := b[..i] + b[i + 1..];
      assert b == b[..i] + ([b[i]] + b[i + 1..]);
      assert a == [x] + a[1..];
      assert multiset(rest) == multiset(b) - multiset{x};
      assert multiset(a[1..]) == multiset(a) - multiset{x};
      TotalOrderFree(a[1..], rest);
      TotalAppend(b[..i], [b[i]] + b[i + 1..]);
      TotalAppend(b[..i], b[i + 1..]);
    }
  }

  /** Rows on which p and q hold are split between the two selections, none counted twice. */
  lemma {:induction false} TotalPartition(rows: seq<Transaction>, p: Transaction -> bool, q: Transaction -> bool, r: Transaction -> bool)
    requires forall i :: 0 <= i < |rows| ==> p(rows[i]) == (q(rows[i]) || r(rows[i]))
    requires forall i :: 0 <= i < |rows| ==> !(q(rows[i]) && r(rows[i]))
    ensures TotalExpense(Filter(rows, p)) == TotalExpense(Filter(rows, q)) + TotalExpense(Filter(rows, r))
    decreases |rows|
  {
    if rows != [] {
      TotalPartition(rows[1..], p, q, r);
      var x := rows[0];
      TotalAppend(if p(x) then [x] else [], Filter(rows[1..], p));
      TotalAppend(if q(x) then [x] else [], Filter(rows[1..], q));
      TotalAppend(if r(x) then [x] else [], Filter(rows[1..], r));
    }
  }

  /** The first row of a frame counts towards a selection's total exactly when it is selected. */
  lemma FilterTotalStep(rows: seq<Transaction>, p: Transaction -> bool)
    requires rows != []
    ensures TotalExpense(Filter(rows, p)) == (if p(rows[0]) then rows[0].amountPence else 0) + TotalExpense(Filter(rows[1..], p))
  {
    TotalAppend(if p(rows[0]) then [rows[0]] else [], Filter(rows[1..], p));
  }

  /** `idxmax`: the position of the first row holding the largest amount. */
  function FirstMaxIndex(rows: seq<Transaction>): (k: nat)
    requires |rows| > 0
    ensures k < |rows|
    ensures forall i :: 0 <= i < |rows| ==> rows[i].amountPence <= rows[k].amountPence
    ensures forall i :: 0 <= i < k ==> rows[i].amountPence < rows[k].amountPence
  {
    if |rows| == 1 then 0
    else
      var k := FirstMaxIndex(rows[..|rows| - 1]);
      if rows[|rows| - 1].amountPence > rows[k].amountPence then |rows| - 1 else k
  }

  /** `df.loc[label]` for a label of the index: the position of the first row with that timestamp. */
  function IndexOfTime(rows: seq<Transaction>, t: Instant): (k: nat)
    requires exists i :: 0 <= i < |rows| && rows[i].time == t
    ensures k < |rows| && rows[k].time == t
    ensures forall j :: 0 <= j < k ==> rows[j].time != t
  {
    if rows[0].time == t then 0 else 1 + IndexOfTime(rows[1..], t)
  }

  /** Row k holds the largest amount, and no earlier row holds as much. */
  predicate IsTopRow(rows: seq<Transaction>, k: int)
    requires 0 <= k < |rows|
  {
    && (forall i :: 0 <= i < |rows| ==> rows[i].amountPence <= rows[k].amountPence)
    && (forall i :: 0 <= i < k ==> rows[i].amountPence < rows[k].amountPence)
  }

  datatype TopExpense = TopExpense(amountPence: int, description: string)

  /** `get_top_expense_and_description`: the amount and description of the row that
      `idxmax` labels; `idxmax` of an empty column raises. */
  function TopExpenseAndDescription(rows: seq<Transaction>): (r: Result<TopExpense>)
    requires UniqueTimes(rows)
    ensures r.Err? <==> rows == []
    ensures r.Err? ==> r.error == EmptyPeriod
    ensures r.Ok? ==> exists k :: 0 <= k < |rows| && IsTopRow(rows, k) && r.value == TopExpense(rows[k].amountPence, rows[k].description)
  {
    if rows == [] then Err(EmptyPeriod)
    else
      var key := rows[FirstMaxIndex(rows)].time;
      var row := rows[IndexOfTime(rows, key)];
      Ok(TopExpense(row.amountPence, row.description))
  }

  /** Three rows of 10, 50 and 50 with descriptions A, B and C: the first 50 wins. */
  lemma TopExpenseFirstOfTies()
    ensures UniqueTimes([Transaction(1, "A", 10, "x"), Transaction(2, "B", 50, "x"), Transaction(3, "C", 50, "x")])
    ensures TopExpenseAndDescription([Transaction(1, "A", 10, "x"), Transaction(2, "B", 50, "x"), Transaction(3, "C", 50, "x")])
      == Ok(TopExpense(50, "B"))
  {
    var rows := [Transaction(1, "A", 10, "x"), Transaction(2, "B", 50, "x"), Transaction(3, "C", 50, "x")];
    var r := TopExpenseAndDescription(rows);
    var k :| 0 <= k < |rows| && IsTopRow(rows, k) && r.value == TopExpense(rows[k].amountPence, rows[k].description);
    assert rows[1].amountPence == 50;
    assert k == 1;
  }

  /** `get_diff_between_periods`: the recent period's total minus the older one's. */
  function DiffBetweenPeriods(recent: seq<Transaction>, older: seq<Transaction>): int
  {
    TotalExpense(recent) - TotalExpense(older)
  }

  lemma DiffProperties(a: seq<Transaction>, b: seq<Transaction>)
    ensures DiffBetweenPeriods(a, a) == 0
    ensures DiffBetweenPeriods(a, b) == -DiffBetweenPeriods(b, a)
    ensures DiffBetweenPeriods(a, []) == TotalExpense(a)
  {
  }

  /** Python's `<=` on strings: code point by code point, a proper prefix first. */
  predicate LexLeq(a: string, b: string)
    decreases |a|
  {
    a == [] || (b != [] && (a[0] < b[0] || (a[0] == b[0] && LexLeq(a[1..], b[1..]))))
  }

  lemma {:induction false} LexTotal(a: string, b: string)
    ensures LexLeq(a, b) || LexLeq(b, a)
    decreases |a|
  {
    if a != [] && b != [] && a[0] == b[0] {
      LexTotal(a[1..], b[1..]);
    }
  }

  lemma {:induction false} LexAntisymmetric(a: string, b: string)
    requires LexLeq(a, b) && LexLeq(b, a)
    ensures a == b
    decreases |a|
  {
    if a != [] {
      LexAntisymmetric(a[1..], b[1..]);
      assert a == [a[0]] + a[1..] && b == [b[0]] + b[1..];
    }
  }

  lemma {:induction false} LexTransitive(a: string, b: string, c: string)
    requires LexLeq(a, b) && LexLeq(b, c)
    ensures LexLeq(a, c)
    decreases |a|
  {
    if a != [] && a[0] == b[0] && b[0] == c[0] {
      LexTransitive(a[1..], b[1..], c[1..]);
    }
  }

  /** One entry of `df.groupby("category")["amount_gbp"].sum()`. */
  datatype CategorySpend = CategorySpend(category: string, amountPence: int)

  /** Order of `sort_values(ascending=False)` over the group sums: larger amounts
      first; equal amounts keep the groupby order, which is ascending by category. */
  predicate RanksAbove(p: CategorySpend, q: CategorySpend)
  {
    p.amountPence > q.amountPence || (p.amountPence == q.amountPence && LexLeq(p.category, q.category))
  }

  predicate Ranked(s: seq<CategorySpend>)
  {
    forall i, j :: 0 <= i < j < |s| ==> RanksAbove(s[i], s[j])
  }

  predicate DistinctCategories(s: seq<CategorySpend>)
  {
    forall i, j :: 0 <= i < j < |s| ==> s[i].category != s[j].category
  }

  function Insert(x: CategorySpend, s: seq<CategorySpend>): (r: seq<CategorySpend>)
    ensures multiset(r) == multiset(s) + multiset{x}
  {
    if s == [] || RanksAbove(x, s[0]) then [x] + s
    else
      assert s == [s[0]] + s[1..];
      [s[0]] + Insert(x, s[1..])
  }

  lemma {:induction false} InsertKeepsRanked(x: CategorySpend, s: seq<CategorySpend>)
    requires Ranked(s)
    ensures Ranked(Insert(x, s))
    decreases |s|
  {
    if s == [] {
    } else if RanksAbove(x, s[0]) {
      forall j | 0 <= j < |s|
        ensures RanksAbove(x, s[j])
      {
        if j > 0 && s[0].amountPence == s[j].amountPence && x.amountPence == s[0].amountPence {
          LexTransitive(x.category, s[0].category, s[j].category);
        }
      }
    } else {
      InsertKeepsRanked(x, s[1..]);
      LexTotal(x.category, s[0].category);
      var r := Insert(x, s[1..]);
      forall k | 0 <= k < |r|
        ensures RanksAbove(s[0], r[k])
      {
        assert r[k] in multiset(r);
      }
    }
  }

  lemma {:induction false} InsertKeepsDistinct(x: CategorySpend, s: seq<CategorySpend>)
    requires DistinctCategories(s)
    requires forall i :: 0 <= i < |s| ==> s[i].category != x.category
    ensures DistinctCategories(Insert(x, s))
    decreases |s|
  {
    if s != [] && !RanksAbove(x, s[0]) {
      InsertKeepsDistinct(x, s[1..]);
      var r := Insert(x, s[1..]);
      forall k | 0 <= k < |r|
        ensures r[k].category != s[0].category
      {
        assert r[k] in multiset(r);
      }
    }
  }

  /** Insertion sort by `RanksAbove`. */
  function SortByRank(s: seq<CategorySpend>): (r: seq<CategorySpend>)
    ensures multiset(r) == multiset(s)
    ensures Ranked(r)
  {
    if s == [] then []
    else
      var t := SortByRank(s[1..]);
      InsertKeepsRanked(s[0], t);
      assert s == [s[0]] + s[1..];
      Insert(s[0], t)
  }

  lemma {:induction false} SortKeepsDistinct(s: seq<CategorySpend>)
    requires DistinctCategories(s)
    ensures DistinctCategories(SortByRank(s))
    decreases |s|
  {
    if s != [] {
      var t := SortByRank(s[1..]);
      SortKeepsDistinct(s[1..]);
      forall i | 0 <= i < |t|
        ensures t[i].category != s[0].category
      {
        assert t[i] in multiset(s[1..]);
      }
      InsertKeepsDistinct(s[0], t);
    }
  }

  /** Some row of the frame carries category c. */
  predicate HasCategory(rows: seq<Transaction>, c: string)
  {
    exists i :: 0 <= i < |rows| && rows[i].category == c
  }

  /** The distinct categories of the rows, in order of first appearance. */
  function Categories(rows: seq<Transaction>): (cs: seq<string>)
    ensures forall i, j :: 0 <= i < j < |cs| ==> cs[i] != cs[j]
    ensures forall c :: c in cs <==> HasCategory(rows, c)
  {
    if rows == [] then []
    else
      var init := rows[..|rows| - 1];
      var cs := Categories(init);
      var c := rows[|rows| - 1].category;
      assert forall d :: HasCategory(rows, d) <==> HasCategory(init, d) || d == c by {
        forall d | HasCategory(init, d) ensures HasCategory(rows, d) {
          var i :| 0 <= i < |init| && init[i].category == d;
          assert rows[i].category == d;
        }
        forall d | HasCategory(rows, d) && d != c ensures HasCategory(init, d) {
          var i :| 0 <= i < |rows| && rows[i].category == d;
          assert init[i].category == d;
        }
        assert rows[|rows| - 1].category == c;
      }
      if c in cs then cs else cs + [c]
  }

  /** The summed amount of one category (a cell of the group sum). */
  function CategoryTotal(rows: seq<Transaction>, c: string): int
  {
    TotalExpense(Filter(rows, InCategory(c)))
  }

  /** The mask `df["category"] == c`. */
  function InCategory(c: string): Transaction -> bool
  {
    (x: Transaction) => x.category == c
  }

  function Spends(rows: seq<Transaction>, cs: seq<string>): (r: seq<CategorySpend>)
    ensures |r| == |cs|
    ensures forall i :: 0 <= i < |r| ==> r[i] == CategorySpend(cs[i], CategoryTotal(rows, cs[i]))
  {
    if cs == [] then [] else [CategorySpend(cs[0], CategoryTotal(rows, cs[0]))] + Spends(rows, cs[1..])
  }

  /** `df.groupby("category")["amount_gbp"].sum().sort_values(ascending=False)`. */
  function RankedCategories(rows: seq<Transaction>): (r: seq<CategorySpend>)
    ensures Ranked(r)
    ensures multiset(r) == multiset(Spends(rows, Categories(rows)))
  {
    SortByRank(Spends(rows, Categories(rows)))
  }

  /** Each ranked entry is a category of the frame with its summed amount. */
  lemma RankedEntries(rows: seq<Transaction>)
    ensures var r := RankedCategories(rows);
      forall i :: 0 <= i < |r| ==> HasCategory(rows, r[i].category) && r[i].amountPence == CategoryTotal(rows, r[i].category)
  {
    var cs := Categories(rows);
    var spends := Spends(rows, cs);
    var r := RankedCategories(rows);
    forall i | 0 <= i < |r|
      ensures HasCategory(rows, r[i].category) && r[i].amountPence == CategoryTotal(rows, r[i].category)
    {
      assert r[i] in multiset(spends);
      var k :| 0 <= k < |spends| && spends[k] == r[i];
      assert cs[k] in cs;
    }
  }

  /** Every category of the frame is ranked, once. */
  lemma RankedCovers(rows: seq<Transaction>)
    ensures var r := RankedCategories(rows);
      && DistinctCategories(r)
      && |r| == |Categories(rows)|
      && (forall c :: HasCategory(rows, c) ==> exists i :: 0 <= i < |r| && r[i].category == c)
  {
    var cs := Categories(rows);
    var spends := Spends(rows, cs);
    var r := RankedCategories(rows);
    SortKeepsDistinct(spends);
    assert |r| == |multiset(r)| == |multiset(spends)| == |spends|;
    forall c | HasCategory(rows, c)
      ensures exists i :: 0 <= i < |r| && r[i].category == c
    {
      assert c in cs;
      var k :| 0 <= k < |cs| && cs[k] == c;
      assert spends[k] in multiset(r);
      var i :| 0 <= i < |r| && r[i] == spends[k];
      assert r[i].category == c;
    }
  }

  /** The ranked entries that `head()` keeps: the first five, or all when there are fewer. */
  function TopRanked(rows: seq<Transaction>): (r: seq<CategorySpend>)
    ensures |r| == if |Categories(rows)| < 5 then |Categories(rows)| else 5
    ensures Ranked(r) && DistinctCategories(r)
    ensures forall i :: 0 <= i < |r| ==> HasCategory(rows, r[i].category) && r[i].amountPence == CategoryTotal(rows, r[i].category)
  {
    var ranked := RankedCategories(rows);
    RankedEntries(rows);
    RankedCovers(rows);
    ranked[..if |ranked| < 5 then |ranked| else 5]
  }

  /** In a ranked list, every entry before position k spends at least as much as entry k. */
  lemma RankedDominates(s: seq<CategorySpend>, n: nat, k: nat)
    requires Ranked(s) && n <= k < |s|
    ensures forall i :: 0 <= i < n ==> s[k].amountPence <= s[i].amountPence
  {
    forall i | 0 <= i < n
      ensures s[k].amountPence <= s[i].amountPence
    {
      assert RanksAbove(s[i], s[k]);
    }
  }

  /** No category left out of the top entries outspends one kept. */
  lemma TopRankedCutoff(rows: seq<Transaction>, c: string)
    requires HasCategory(rows, c)
    ensures var top := TopRanked(rows);
      (forall j :: 0 <= j < |top| ==> top[j].category != c) ==>
        forall i :: 0 <= i < |top| ==> CategoryTotal(rows, c) <= top[i].amountPence
  {
    var ranked := RankedCategories(rows);
    var n := if |ranked| < 5 then |ranked| else 5;
    var top := TopRanked(rows);
    assert |top| == n && forall j :: 0 <= j < n ==> top[j] == ranked[j];
    if forall j :: 0 <= j < |top| ==> top[j].category != c {
      var k := RankOf(rows, c);
      assert k >= n;
      RankedDominates(ranked, n, k);
    }
  }

  /** Each category of the frame holds some position of the ranking, with its total. */
  lemma RankOf(rows: seq<Transaction>, c: string) returns (k: nat)
    requires HasCategory(rows, c)
    ensures k < |RankedCategories(rows)| && RankedCategories(rows)[k] == CategorySpend(c, CategoryTotal(rows, c))
  {
    var ranked := RankedCategories(rows);
    RankedCovers(rows);
    k :| 0 <= k < |ranked| && ranked[k].category == c;
    RankedEntries(rows);
  }

  /** `get_top_expense_categories` with a given currency prefix: the kept categories in
      rank order, each amount formatted as `f"{prefix}{amount:,.2f}"`. */
  function TopCategoriesWithPrefix(rows: seq<Transaction>, prefix: string): (r: seq<(string, string)>)
    ensures |r| == |TopRanked(rows)|
    ensures forall i :: 0 <= i < |r| ==> r[i] == (TopRanked(rows)[i].category, FormatMoney(prefix, TopRanked(rows)[i].amountPence))
  {
    var top := TopRanked(rows);
    seq(|top|, i requires 0 <= i < |top| => (top[i].category, FormatMoney(prefix, top[i].amountPence)))
  }

  /** At most five categories are listed, each a category of the frame shown with
      its own summed amount. */
  lemma TopCategoriesEntries(rows: seq<Transaction>, prefix: string)
    ensures var r := TopCategoriesWithPrefix(rows, prefix);
      && |r| == (if |Categories(rows)| < 5 then |Categories(rows)| else 5)
      && (forall i :: 0 <= i < |r| ==> HasCategory(rows, r[i].0) && r[i].1 == FormatMoney(prefix, CategoryTotal(rows, r[i].0)))
  {
    var r := TopCategoriesWithPrefix(rows, prefix);
    var top := TopRanked(rows);
    forall i | 0 <= i < |r|
      ensures HasCategory(rows, r[i].0) && r[i].1 == FormatMoney(prefix, CategoryTotal(rows, r[i].0))
    {
      assert r[i].0 == top[i].category;
    }
  }

  /** The listed categories are distinct and listed from the largest spend down. */
  lemma TopCategoriesOrder(rows: seq<Transaction>, prefix: string)
    ensures var r := TopCategoriesWithPrefix(rows, prefix);
      forall i, j :: 0 <= i < j < |r| ==> r[i].0 != r[j].0 && CategoryTotal(rows, r[i].0) >= CategoryTotal(rows, r[j].0)
  {
    var r := TopCategoriesWithPrefix(rows, prefix);
    var top := TopRanked(rows);
    forall i, j | 0 <= i < j < |r|
      ensures r[i].0 != r[j].0 && CategoryTotal(rows, r[i].0) >= CategoryTotal(rows, r[j].0)
    {
      assert r[i].0 == top[i].category && r[j].0 == top[j].category;
      assert RanksAbove(top[i], top[j]);
    }
  }

  /** No category of the frame left off the list outspends one listed. */
  lemma TopCategoriesCutoff(rows: seq<Transaction>, prefix: string, c: string)
    requires HasCategory(rows, c)
    ensures var r := TopCategoriesWithPrefix(rows, prefix);
      (forall j :: 0 <= j < |r| ==> r[j].0 != c) ==>
        forall i :: 0 <= i < |r| ==> CategoryTotal(rows, c) <= CategoryTotal(rows, r[i].0)
  {
    var r := TopCategoriesWithPrefix(rows, prefix);
    var top := TopRanked(rows);
    assert forall j :: 0 <= j < |r| ==> r[j].0 == top[j].category;
    TopRankedCutoff(rows, c);
  }

  /** `get_top_expense_categories`: at most five categories, largest spend first,
      each with its summed amount written as `£1,234.56`. */
  function TopExpenseCategories(rows: seq<Transaction>): (r: seq<(string, string)>)
    ensures |r| <= 5
    ensures forall i :: 0 <= i < |r| ==> HasCategory(rows, r[i].0) && ParseMoney("£", r[i].1) == Some(CategoryTotal(rows, r[i].0))
  {
    var r := TopCategoriesWithPrefix(rows, "£");
    forall i | 0 <= i < |r|
      ensures ParseMoney("£", r[i].1) == Some(CategoryTotal(rows, r[i].0))
    {
      MoneyRoundTrip("£", CategoryTotal(rows, r[i].0));
    }
    r
  }

  /** The rows whose bucket key lies in lo, lo + 1, ..., hi - 1. */
  function InSpan(key: Transaction -> int, lo: int, hi: int): Transaction -> bool
  {
    (x: Transaction) => lo <= key(x) < hi
  }

  /** The summed amount of the rows in buckets lo .. hi - 1. */
  function SpanTotal(rows: seq<Transaction>, key: Transaction -> int, lo: int, hi: int): int
  {
    TotalExpense(Filter(rows, InSpan(key, lo, hi)))
  }

  /** The earliest bucket holding a row (the first bin `resample` produces). */
  function FirstBucket(rows: seq<Transaction>, key: Transaction -> int): (b: int)
    requires rows != []
    ensures forall i :: 0 <= i < |rows| ==> b <= key(rows[i])
    ensures exists i :: 0 <= i < |rows| && b == key(rows[i])
  {
    if |rows| == 1 then key(rows[0])
    else
      var rest := FirstBucket(rows[1..], key);
      assert forall i :: 1 <= i < |rows| ==> rows[i] == rows[1..][i - 1];
      if key(rows[0]) <= rest then key(rows[0]) else rest
  }

  /** The latest bucket holding a row (the last bin `resample` produces). */
  function LastBucket(rows: seq<Transaction>, key: Transaction -> int): (b: int)
    requires rows != []
    ensures forall i :: 0 <= i < |rows| ==> key(rows[i]) <= b
    ensures exists i :: 0 <= i < |rows| && b == key(rows[i])
  {
    if |rows| == 1 then key(rows[0])
    else
      var rest := LastBucket(rows[1..], key);
      assert forall i :: 1 <= i < |rows| ==> rows[i] == rows[1..][i - 1];
      if key(rows[0]) >= rest then key(rows[0]) else rest
  }

  /** The sums of n consecutive buckets starting at lo. */
  function BucketSums(rows: seq<Transaction>, key: Transaction -> int, lo: int, n: nat): (s: seq<int>)
    ensures |s| == n
  {
    if n == 0 then [] else BucketSums(rows, key, lo, n - 1) + [SpanTotal(rows, key, lo + n - 1, lo + n)]
  }

  /** Entry i of the bucket sums is the total of bucket lo + i; a bucket without rows sums to 0. */
  lemma {:induction false} BucketSumsEntry(rows: seq<Transaction>, key: Transaction -> int, lo: int, n: nat, i: nat)
    requires i < n
    ensures BucketSums(rows, key, lo, n)[i] == SpanTotal(rows, key, lo + i, lo + i + 1)
    ensures (forall k :: 0 <= k < |rows| ==> key(rows[k]) != lo + i) ==> BucketSums(rows, key, lo, n)[i] == 0
    decreases n
  {
    if i < n - 1 {
      BucketSumsEntry(rows, key, lo, n - 1, i);
    }
    if forall k :: 0 <= k < |rows| ==> key(rows[k]) != lo + i {
      FilterNone(rows, InSpan(key, lo + i, lo + i + 1));
    }
  }

  function SumOf(s: seq<int>): int
  {
    if s == [] then 0 else SumOf(s[..|s| - 1]) + s[|s| - 1]
  }

  /** `get_average_expense`, for the frequency whose buckets `key` numbers (`BucketKey`):
      `df.resample(freq)["amount_gbp"].sum()` gives one sum per bucket from the first
      bucket holding a row to the last, empty buckets in between included (nothing for
      an empty frame), and the mean is taken with the first and last sums dropped
      (`[1:-1].mean()`). `None` stands for the NaN that the mean of an empty series
      gives, which happens when there are at most two buckets. */
  function AverageExpense(rows: seq<Transaction>, key: Transaction -> int): (r: Option<Mean>)
    ensures r.None? <==> rows == [] || LastBucket(rows, key) - FirstBucket(rows, key) <= 1
  {
    if |rows| == 0 then None
    else
      var lo := FirstBucket(rows, key);
      TrimmedMean(BucketSums(rows, key, lo, LastBucket(rows, key) - lo + 1))
  }

  /** `s[1:-1].mean()`, `None` for the NaN of an empty slice. */
  function TrimmedMean(s: seq<int>): (r: Option<Mean>)
    ensures r.None? <==> |s| <= 2
  {
    if |s| <= 2 then None else Some(Mean(SumOf(s[1..|s| - 1]), |s| - 2))
  }

  /** The arithmetic mean of `count` values adding up to `total`, held exactly as the
      fraction total / count. */
  datatype Mean = Mean(total: int, count: nat)
  {
    /** The mean as a number: the value that, taken `count` times, makes up `total`. */
    function Value(): (r: real)
      requires count > 0
      ensures r * count as real == total as real
    {
      total as real / count as real
    }
  }

  /** Values between lo and hi add up to between |s| * lo and |s| * hi. */
  lemma {:induction false} SumOfBounds(s: seq<int>, lo: int, hi: int)
    requires forall i :: 0 <= i < |s| ==> lo <= s[i] <= hi
    ensures |s| * lo <= SumOf(s) <= |s| * hi
    decreases |s|
  {
    if s != [] {
      SumOfBounds(s[..|s| - 1], lo, hi);
      assert |s| * lo == (|s| - 1) * lo + lo && |s| * hi == (|s| - 1) * hi + hi;
    }
  }

  /** A mean lies between the smallest and the largest of the values averaged: when
      every bucket sum that `[1:-1]` keeps is between lo and hi, so is the average. */
  lemma TrimmedMeanBounds(s: seq<int>, lo: int, hi: int)
    requires |s| > 2 && forall i :: 1 <= i < |s| - 1 ==> lo <= s[i] <= hi
    ensures TrimmedMean(s).Some? && lo as real <= TrimmedMean(s).value.Value() <= hi as real
  {
    var inner := s[1..|s| - 1];
    assert forall i :: 0 <= i < |inner| ==> inner[i] == s[i + 1];
    SumOfBounds(inner, lo, hi);
    var m := TrimmedMean(s).value;
    var n := |inner| as real;
    assert m == Mean(SumOf(inner), |inner|);
    assert n * (lo as real) <= SumOf(inner) as real <= n * (hi as real);
    assert m.Value() * n == SumOf(inner) as real;
  }

  /** Adding the next bucket to a span adds that bucket's rows, and no other. */
  lemma SpanSplit(rows: seq<Transaction>, key: Transaction -> int, lo: int, hi: int)
    requires lo <= hi
    ensures SpanTotal(rows, key, lo, hi + 1) == SpanTotal(rows, key, lo, hi) + SpanTotal(rows, key, hi, hi + 1)
  {
    TotalPartition(rows, InSpan(key, lo, hi + 1), InSpan(key, lo, hi), InSpan(key, hi, hi + 1));
  }

  /** The bucket sums add up to the total of the rows in the span they cover. */
  lemma {:induction false} SumOfBucketSums(rows: seq<Transaction>, key: Transaction -> int, lo: int, n: nat, hi: int)
    requires hi == lo + n
    ensures SumOf(BucketSums(rows, key, lo, n)) == SpanTotal(rows, key, lo, hi)
    decreases n
  {
    var s := BucketSums(rows, key, lo, n);
    if n == 0 {
      FilterNone(rows, InSpan(key, lo, hi));
    } else {
      var init := BucketSums(rows, key, lo, n - 1);
      assert s == init + [SpanTotal(rows, key, hi - 1, hi)];
      assert s[..n - 1] == init;
      SumOfBucketSums(rows, key, lo, n - 1, hi - 1);
      SpanSplit(rows, key, lo, hi - 1);
    }
  }

  /** Dropping the first and last of the sums of buckets lo .. lo + n - 1 leaves the sums of the buckets between. */
  lemma TrimBucketSums(rows: seq<Transaction>, key: Transaction -> int, lo: int, n: nat)
    requires n >= 2
    ensures BucketSums(rows, key, lo, n)[1..n - 1] == BucketSums(rows, key, lo + 1, n - 2)
  {
    var s := BucketSums(rows, key, lo, n);
    var t := BucketSums(rows, key, lo + 1, n - 2);
    forall i | 0 <= i < n - 2
      ensures s[1..n - 1][i] == t[i]
    {
      BucketSumsEntry(rows, key, lo, n, i + 1);
      BucketSumsEntry(rows, key, lo + 1, n - 2, i);
    }
  }

  /** The trimmed mean of n consecutive bucket sums is the total of the buckets strictly
      between the end ones, over the number of those buckets. */
  lemma TrimmedMeanOfSpan(rows: seq<Transaction>, key: Transaction -> int, lo: int, n: nat, hi: int)
    requires n >= 3 && hi == lo + n - 1
    ensures TrimmedMean(BucketSums(rows, key, lo, n)) == Some(Mean(SpanTotal(rows, key, lo + 1, hi), n - 2))
  {
    TrimBucketSums(rows, key, lo, n);
    SumOfBucketSums(rows, key, lo + 1, n - 2, hi);
  }

  /** The average is the total of the rows strictly after the first bucket and strictly
      before the last, divided by the number of buckets between them, empty ones included. */
  lemma AverageIsInteriorMean(rows: seq<Transaction>, key: Transaction -> int)
    requires rows != [] && LastBucket(rows, key) - FirstBucket(rows, key) > 1
    ensures var lo, hi := FirstBucket(rows, key), LastBucket(rows, key);
      AverageExpense(rows, key) == Some(Mean(SpanTotal(rows, key, lo + 1, hi), hi - lo - 1))
  {
    var lo, hi := FirstBucket(rows, key), LastBucket(rows, key);
    TrimmedMeanOfSpan(rows, key, lo, hi - lo + 1, hi);
  }
}
