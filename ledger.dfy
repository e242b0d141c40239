/** Transactions as the analytics code reads them: a timezone-naive timestamp
    (second precision), a description, the amount in GBP (held exactly, in pence)
    and a category; plus the ordered, order-keeping row selection that pandas'
    boolean masks perform, and the mutable data frame that holds the rows. */
module Ledger {
  import opened Outcomes
  import opened Calendar

  /** Seconds since 0001-01-01 00:00:00. */
  type Instant = nat

  const SecondsPerDay: nat := 86400

  /** Day ordinal of an instant (its date; the time of day is dropped). */
  function DayOf(t: Instant): (n: int)
    ensures n >= 1
  {
    t / SecondsPerDay + 1
  }

  /** The instant 00:00:00 of day ordinal n. */
  function StartOfDay(n: int): (t: Instant)
    requires n >= 1
    ensures DayOf(t) == n
  {
    (n - 1) * SecondsPerDay
  }

  function DateOf(t: Instant): Date
  {
    FromOrdinal(DayOf(t))
  }

  datatype Transaction = Transaction(time: Instant, description: string, amountPence: int, category: string)

  /** The store keys rows by `transaction_time`, so no two rows share a timestamp. */
  predicate UniqueTimes(rows: seq<Transaction>)
  {
    forall i, j :: 0 <= i < j < |rows| ==> rows[i].time != rows[j].time
  }

  /** The two resampling frequencies the dashboard uses: pandas "W" (weeks
      ending Sunday) and "ME"/"MS" (calendar months). */
  datatype Frequency = Weekly | Monthly

  /** The bucket an instant falls in, numbered so that consecutive buckets are consecutive integers. */
  function BucketOf(freq: Frequency, t: Instant): int
  {
    match freq
    case Weekly => WeekIndex(DayOf(t))
    case Monthly => MonthIndex(YearMonthOf(DateOf(t)))
  }

  /** The bucket a row falls in at the given frequency. */
  function BucketKey(freq: Frequency): Transaction -> int
  {
    (x: Transaction) => BucketOf(freq, x.time)
  }

  /** The rows satisfying p, in their original order (a pandas boolean-mask selection). */
  function Filter<T(!new)>(s: seq<T>, p: T -> bool): (r: seq<T>)
    ensures |r| <= |s|
  {
    if s == [] then [] else (if p(s[0]) then [s[0]] else []) + Filter(s[1..], p)
  }

  /** The selection holds exactly the rows of s that satisfy p. */
  lemma {:induction false} FilterMembers<T(!new)>(s: seq<T>, p: T -> bool)
    ensures forall x :: x in Filter(s, p) <==> x in s && p(x)
    decreases |s|
  {
    if s != [] {
      FilterMembers(s[1..], p);
      assert s == [s[0]] + s[1..];
    }
  }

  lemma {:induction false} FilterAppend<T(!new)>(a: seq<T>, b: seq<T>, p: T -> bool)
    ensures Filter(a + b, p) == Filter(a, p) + Filter(b, p)
    decreases |a|
  {
    if a == [] {
      assert a + b == b;
    } else {
      var head := if p(a[0]) then [a[0]] else [];
      assert (a + b)[0] == a[0];
      assert (a + b)[1..] == a[1..] + b;
      calc {
        Filter(a + b, p);
        head + Filter(a[1..] + b, p);
        { FilterAppend(a[1..], b, p); }
        head + (Filter(a[1..], p) + Filter(b, p));
        (head + Filter(a[1..], p)) + Filter(b, p);
        Filter(a, p) + Filter(b, p);
      }
    }
  }

  /** Selecting with two masks that agree on every row of s gives the same rows. */
  lemma {:induction false} FilterSameMask<T(!new)>(s: seq<T>, p: T -> bool, q: T -> bool)
    requires forall i :: 0 <= i < |s| ==> p(s[i]) == q(s[i])
    ensures Filter(s, p) == Filter(s, q)
    decreases |s|
  {
    if s != [] {
      FilterSameMask(s[1..], p, q);
    }
  }

  /** A mask that keeps every row keeps the frame as it is. */
  lemma {:induction false} FilterAll<T(!new)>(s: seq<T>, p: T -> bool)
    requires forall i :: 0 <= i < |s| ==> p(s[i])
    ensures Filter(s, p) == s
    decreases |s|
  {
    if s != [] {
      FilterAll(s[1..], p);
    }
  }

  /** A mask that drops every row gives an empty frame. */
  lemma {:induction false} FilterNone<T(!new)>(s: seq<T>, p: T -> bool)
    requires forall i :: 0 <= i < |s| ==> !p(s[i])
    ensures Filter(s, p) == []
    decreases |s|
  {
    if s != [] {
      FilterNone(s[1..], p);
    }
  }

  /** A selection of a frame whose timestamps are distinct has distinct timestamps. */
  lemma {:induction false} FilterKeepsUniqueTimes(rows: seq<Transaction>, p: Transaction -> bool)
    requires UniqueTimes(rows)
    ensures UniqueTimes(Filter(rows, p))
    decreases |rows|
  {
    if rows != [] {
      var rest := Filter(rows[1..], p);
      FilterKeepsUniqueTimes(rows[1..], p);
      FilterMembers(rows[1..], p);
      forall j | 0 <= j < |rest|
        ensures rest[j].time != rows[0].time
      {
        assert rest[j] in rows[1..];
      }
    }
  }

  /** A pandas DataFrame of transactions as the code holds it: a mutable object
      shared by reference between the caller and the analysis objects. */
  class Frame {
    var rows: seq<Transaction>
    /** Whether `transaction_time` has been moved from a column into the index. */
    var timeIndexed: bool
    /** The `year` and `week` columns written by `get_week_df`, one entry per row, once written. */
    var isoColumns: Option<seq<IsoWeek>>

    constructor (rows: seq<Transaction>, timeIndexed: bool)
      ensures this.rows == rows && this.timeIndexed == timeIndexed && isoColumns == None
    {
      this.rows := rows;
      this.timeIndexed := timeIndexed;
      isoColumns := None;
    }
  }
}
