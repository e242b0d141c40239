/** `get_periodic_category_spending_df`: amounts grouped by (time bucket, category),
    summed, and spread into a dense table with one row per observed bucket, one column
    per observed category, and 0 in every cell whose pair does not occur. */
module Pivots {
  import opened Ledger
  import opened Spending

  /** Some row of the frame falls in bucket b. */
  predicate HasBucket(rows: seq<Transaction>, key: Transaction -> int, b: int)
  {
    exists i :: 0 <= i < |rows| && key(rows[i]) == b
  }

  predicate Ascending(s: seq<int>)
  {
    forall i, j :: 0 <= i < j < |s| ==> s[i] < s[j]
  }

  /** The observed buckets among lo, lo + 1, ..., lo + n - 1, in order. */
  function ObservedFrom(rows: seq<Transaction>, key: Transaction -> int, lo: int, n: nat): (r: seq<int>)
    ensures Ascending(r)
    ensures forall b :: b in r <==> lo <= b < lo + n && HasBucket(rows, key, b)
    decreases n
  {
    if n == 0 then []
    else
      var rest := ObservedFrom(rows, key, lo + 1, n - 1);
      assert forall k :: 0 <= k < |rest| ==> rest[k] in rest;
      (if HasBucket(rows, key, lo) then [lo] else []) + rest
  }

  /** The row index of the table: every bucket holding a row, ascending (the group
      keys of `groupby` come out sorted). */
  function ObservedBuckets(rows: seq<Transaction>, key: Transaction -> int): (r: seq<int>)
    ensures Ascending(r)
    ensures forall b :: b in r <==> HasBucket(rows, key, b)
  {
    if rows == [] then []
    else
      var lo, hi := FirstBucket(rows, key), LastBucket(rows, key);
      ObservedFrom(rows, key, lo, hi - lo + 1)
  }

  /** Strictly increasing in Python's string order. */
  predicate StrictlySorted(s: seq<string>)
  {
    forall i, j :: 0 <= i < j < |s| ==> LexLeq(s[i], s[j]) && s[i] != s[j]
  }

  function InsertString(x: string, s: seq<string>): (r: seq<string>)
    ensures multiset(r) == multiset(s) + multiset{x}
  {
    if s == [] || LexLeq(x, s[0]) then [x] + s
    else
      assert s == [s[0]] + s[1..];
      [s[0]] + InsertString(x, s[1..])
  }

  lemma {:induction false} InsertStringSorted(x: string, s: seq<string>)
    requires StrictlySorted(s) && x !in s
    ensures StrictlySorted(InsertString(x, s))
    decreases |s|
  {
    if s == [] {
    } else if LexLeq(x, s[0]) {
      forall j | 0 <= j < |s|
        ensures LexLeq(x, s[j]) && x != s[j]
      {
        if j > 0 {
          LexTransitive(x, s[0], s[j]);
        }
      }
    } else {
      InsertStringSorted(x, s[1..]);
      LexTotal(x, s[0]);
      var r := InsertString(x, s[1..]);
      forall k | 0 <= k < |r|
        ensures LexLeq(s[0], r[k]) && s[0] != r[k]
      {
        assert r[k] in multiset(r);
      }
    }
  }

  /** Insertion sort of distinct strings into Python's string order. */
  function SortStrings(s: seq<string>): (r: seq<string>)
    requires forall i, j :: 0 <= i < j < |s| ==> s[i] != s[j]
    ensures multiset(r) == multiset(s)
    ensures StrictlySorted(r)
  {
    if s == [] then []
    else
      assert s == [s[0]] + s[1..];
      var t := SortStrings(s[1..]);
      assert s[0] !in multiset(s[1..]);
      InsertStringSorted(s[0], t);
      InsertString(s[0], t)
  }

  /** The column index of the table: every category of the frame, in ascending order. */
  function Columns(rows: seq<Transaction>): (r: seq<string>)
    ensures StrictlySorted(r)
    ensures forall c :: c in r <==> HasCategory(rows, c)
  {
    var cs := Categories(rows);
    var r := SortStrings(cs);
    assert forall c :: c in r <==> c in multiset(cs);
    r
  }

  /** The rows of one cell: bucket b and category c. */
  function InCell(key: Transaction -> int, b: int, c: string): Transaction -> bool
  {
    (x: Transaction) => key(x) == b && x.category == c
  }

  /** The summed amount of the rows of one cell; 0 when there are none. */
  function CellTotal(rows: seq<Transaction>, key: Transaction -> int, b: int, c: string): int
  {
    TotalExpense(Filter(rows, InCell(key, b, c)))
  }

  /** The unstacked table: `cells[i][j]` is the cell of `buckets[i]` and `categories[j]`. */
  datatype Pivot = Pivot(buckets: seq<int>, categories: seq<string>, cells: seq<seq<int>>)

  /** The table for the buckets given by `key`. It is dense: one row per observed
      bucket in time order, one column per category in name order, and each cell
      holds the summed amount of its rows. */
  function PivotOf(rows: seq<Transaction>, key: Transaction -> int): (p: Pivot)
    ensures Ascending(p.buckets) && (forall b :: b in p.buckets <==> HasBucket(rows, key, b))
    ensures StrictlySorted(p.categories) && (forall c :: c in p.categories <==> HasCategory(rows, c))
    ensures |p.cells| == |p.buckets|
    ensures forall i :: 0 <= i < |p.cells| ==> |p.cells[i]| == |p.categories|
    ensures forall i, j :: 0 <= i < |p.buckets| && 0 <= j < |p.categories| ==>
      p.cells[i][j] == CellTotal(rows, key, p.buckets[i], p.categories[j])
  {
    var bs, cs := ObservedBuckets(rows, key), Columns(rows);
    Pivot(bs, cs, seq(|bs|, i requires 0 <= i < |bs| => PivotRow(rows, key, bs[i], cs)))
  }

  /** One row of the table: the cells of bucket b for the categories cs. */
  function PivotRow(rows: seq<Transaction>, key: Transaction -> int, b: int, cs: seq<string>): (row: seq<int>)
    ensures |row| == |cs| && forall j :: 0 <= j < |cs| ==> row[j] == CellTotal(rows, key, b, cs[j])
  {
    seq(|cs|, j requires 0 <= j < |cs| => CellTotal(rows, key, b, cs[j]))
  }

  /** `unstack(fill_value=0)`: a (bucket, category) pair that no row has reads 0. */
  lemma UnobservedCellIsZero(rows: seq<Transaction>, key: Transaction -> int, b: int, c: string)
    requires forall i :: 0 <= i < |rows| ==> !(key(rows[i]) == b && rows[i].category == c)
    ensures CellTotal(rows, key, b, c) == 0
  {
    FilterNone(rows, InCell(key, b, c));
  }

  /** The cells of category c down the buckets bs. */
  function ColumnSum(rows: seq<Transaction>, key: Transaction -> int, bs: seq<int>, c: string): int
  {
    if bs == [] then 0 else CellTotal(rows, key, bs[0], c) + ColumnSum(rows, key, bs[1..], c)
  }

  /** The cells of bucket b across the categories cs. */
  function RowSum(rows: seq<Transaction>, key: Transaction -> int, b: int, cs: seq<string>): int
  {
    if cs == [] then 0 else CellTotal(rows, key, b, cs[0]) + RowSum(rows, key, b, cs[1..])
  }

  lemma {:induction false} ColumnSumEmpty(key: Transaction -> int, bs: seq<int>, c: string)
    ensures ColumnSum([], key, bs, c) == 0
    decreases |bs|
  {
    if bs != [] {
      ColumnSumEmpty(key, bs[1..], c);
    }
  }

  lemma {:induction false} RowSumEmpty(key: Transaction -> int, b: int, cs: seq<string>)
    ensures RowSum([], key, b, cs) == 0
    decreases |cs|
  {
    if cs != [] {
      RowSumEmpty(key, b, cs[1..]);
    }
  }

  /** Down distinct buckets, the first row counts once if its bucket is among them. */
  lemma {:induction false} ColumnSumStep(rows: seq<Transaction>, key: Transaction -> int, bs: seq<int>, c: string)
    requires rows != []
    requires forall i, j :: 0 <= i < j < |bs| ==> bs[i] != bs[j]
    ensures ColumnSum(rows, key, bs, c)
      == (if rows[0].category == c && key(rows[0]) in bs then rows[0].amountPence else 0) + ColumnSum(rows[1..], key, bs, c)
    decreases |bs|
  {
    if bs != [] {
      ColumnSumStep(rows, key, bs[1..], c);
      FilterTotalStep(rows, InCell(key, bs[0], c));
      assert bs == [bs[0]] + bs[1..];
      assert bs[0] !in bs[1..];
    }
  }

  /** Across distinct categories, the first row counts once if its category is among them. */
  lemma {:induction false} RowSumStep(rows: seq<Transaction>, key: Transaction -> int, b: int, cs: seq<string>)
    requires rows != []
    requires forall i, j :: 0 <= i < j < |cs| ==> cs[i] != cs[j]
    ensures RowSum(rows, key, b, cs)
      == (if key(rows[0]) == b && rows[0].category in cs then rows[0].amountPence else 0) + RowSum(rows[1..], key, b, cs)
    decreases |cs|
  {
    if cs != [] {
      RowSumStep(rows, key, b, cs[1..]);
      FilterTotalStep(rows, InCell(key, b, cs[0]));
      assert cs == [cs[0]] + cs[1..];
      assert cs[0] !in cs[1..];
    }
  }

  /** Summing a category's cells over distinct buckets that hold every row gives the
      category's total. */
  lemma {:induction false} ColumnSumIsCategoryTotal(rows: seq<Transaction>, key: Transaction -> int, bs: seq<int>, c: string)
    requires forall i, j :: 0 <= i < j < |bs| ==> bs[i] != bs[j]
    requires forall i :: 0 <= i < |rows| ==> key(rows[i]) in bs
    ensures ColumnSum(rows, key, bs, c) == CategoryTotal(rows, c)
    decreases |rows|
  {
    if rows == [] {
      ColumnSumEmpty(key, bs, c);
    } else {
      ColumnSumStep(rows, key, bs, c);
      ColumnSumIsCategoryTotal(rows[1..], key, bs, c);
      FilterTotalStep(rows, InCategory(c));
    }
  }

  /** Summing a bucket's cells over distinct categories that hold every row gives the
      bucket's total (the value `resample(...).sum()` has for that bucket). */
  lemma {:induction false} RowSumIsBucketTotal(rows: seq<Transaction>, key: Transaction -> int, b: int, cs: seq<string>)
    requires forall i, j :: 0 <= i < j < |cs| ==> cs[i] != cs[j]
    requires forall i :: 0 <= i < |rows| ==> rows[i].category in cs
    ensures RowSum(rows, key, b, cs) == SpanTotal(rows, key, b, b + 1)
    decreases |rows|
  {
    if rows == [] {
      RowSumEmpty(key, b, cs);
    } else {
      RowSumStep(rows, key, b, cs);
      RowSumIsBucketTotal(rows[1..], key, b, cs);
      FilterTotalStep(rows, InSpan(key, b, b + 1));
    }
  }

  /** Every column of the table sums to its category's total: no row is lost or
      counted twice across the buckets. */
  lemma PivotColumnTotals(rows: seq<Transaction>, key: Transaction -> int, c: string)
    ensures ColumnSum(rows, key, PivotOf(rows, key).buckets, c) == CategoryTotal(rows, c)
  {
    var bs := ObservedBuckets(rows, key);
    assert forall i :: 0 <= i < |rows| ==> HasBucket(rows, key, key(rows[i]));
    ColumnSumIsCategoryTotal(rows, key, bs, c);
  }

  /** Every row of the table sums to its bucket's total: no row is lost or counted
      twice across the categories. */
  lemma PivotRowTotals(rows: seq<Transaction>, key: Transaction -> int, b: int)
    ensures RowSum(rows, key, b, PivotOf(rows, key).categories) == SpanTotal(rows, key, b, b + 1)
  {
    var cs := Columns(rows);
    assert forall i :: 0 <= i < |rows| ==> HasCategory(rows, rows[i].category);
    RowSumIsBucketTotal(rows, key, b, cs);
  }
}
