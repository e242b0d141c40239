/** The date helpers of src/personal_dashboard/backend/utils.py: the English ordinal
    suffix of a day of the month, the first day number of a week label, and the
    day-of-month range of last week. */
module DateLabels {
  import opened Outcomes
  import opened Numerals
  import opened Calendar

  /** The superscript suffixes the dashboard prints after a day number. */
  const Th: string := "\U{1D57}\U{02B0}"
  const St: string := "\U{02E2}\U{1D57}"
  const Nd: string := "\U{207F}\U{1D48}"
  const Rd: string := "\U{02B3}\U{1D48}"

  /** Python's `list[i]`: a negative index counts from the end; outside the list it
      raises `IndexError`. */
  function PyIndex<T>(s: seq<T>, i: int): (r: Result<T>)
    ensures r.Ok? <==> -|s| <= i < |s|
    ensures r.Err? ==> r.error == IndexError
  {
    if 0 <= i < |s| then Ok(s[i])
    else if -|s| <= i < 0 then Ok(s[|s| + i])
    else Err(IndexError)
  }

  /** `get_day_suffix(day)`: "th" for 4-20 and 24-30, otherwise the entry of
      ["st", "nd", "rd"] at `day % 10 - 1`, which wraps to "rd" for a last digit 0
      and raises for a last digit from 4 to 9. */
  function DaySuffix(day: int): (r: Result<string>)
    ensures r.Err? <==> !(4 <= day <= 20 || 24 <= day <= 30) && day % 10 >= 4
    ensures r.Err? ==> r.error == IndexError
    ensures r.Ok? ==> r.value in {Th, St, Nd, Rd}
  {
    if 4 <= day <= 20 || 24 <= day <= 30 then Ok(Th)
    else PyIndex([St, Nd, Rd], day % 10 - 1)
  }

  /** The English ordinal suffix of a positive number: "th" for 11, 12 and 13 (also
      after any hundreds), otherwise by the last digit. */
  function EnglishSuffix(n: nat): string
  {
    if 11 <= n % 100 <= 13 then Th
    else if n % 10 == 1 then St
    else if n % 10 == 2 then Nd
    else if n % 10 == 3 then Rd
    else Th
  }

  /** On every day a month can have, the suffix is the English one and nothing raises. */
  lemma DaySuffixOfCalendarDays(day: int)
    requires 1 <= day <= 31
    ensures DaySuffix(day) == Ok(EnglishSuffix(day))
  {
  }

  /** Outside the days of a month the code diverges: day 0 reads "rd" and day 34
      raises `IndexError`. */
  lemma DaySuffixOutsideMonth()
    ensures DaySuffix(0) == Ok(Rd) && DaySuffix(34) == Err(IndexError)
  {
  }

  /** `\w` for the labels the dashboard builds: ASCII letters, digits, the underscore
      and the superscript letters of the suffixes. */
  predicate IsWordChar(c: char)
  {
    || 'a' <= c <= 'z' || 'A' <= c <= 'Z' || IsDigit(c) || c == '_'
    || c == '\U{1D57}' || c == '\U{02B0}' || c == '\U{02E2}' || c == '\U{207F}' || c == '\U{1D48}' || c == '\U{02B3}'
  }

  /** `\b\d`: a digit at position i with no word character just before it. */
  predicate NumberStartsAt(s: string, i: int)
    requires 0 <= i < |s|
  {
    IsDigit(s[i]) && (i == 0 || !IsWordChar(s[i - 1]))
  }

  /** The leftmost position from i on where `\b\d` matches. */
  function FirstNumberFrom(s: string, i: nat): (r: Option<nat>)
    requires i <= |s|
    ensures r.Some? ==> i <= r.value < |s| && NumberStartsAt(s, r.value) && forall k :: i <= k < r.value ==> !NumberStartsAt(s, k)
    ensures r.None? ==> forall k :: i <= k < |s| ==> !NumberStartsAt(s, k)
    decreases |s| - i
  {
    if i == |s| then None
    else if NumberStartsAt(s, i) then Some(i)
    else FirstNumberFrom(s, i + 1)
  }

  /** The end of the run of digits starting at i (`\d+` is greedy). */
  function DigitRunEnd(s: string, i: nat): (j: nat)
    requires i <= |s|
    ensures i <= j <= |s| && AllDigits(s[i..j]) && (j == |s| || !IsDigit(s[j]))
    decreases |s| - i
  {
    if i < |s| && IsDigit(s[i]) then
      DigitRunEnd(s, i + 1)
    else i
  }

  /** The run of digits from i stops at the first non-digit. */
  lemma {:induction false} DigitRunStops(s: string, i: nat, k: nat)
    requires i <= k < |s| && !IsDigit(s[k])
    requires forall m :: i <= m < k ==> IsDigit(s[m])
    ensures DigitRunEnd(s, i) == k
    decreases k - i
  {
    if i < k {
      DigitRunStops(s, i + 1, k);
    }
  }

  /** `extract_first_date(date_string)`: "01" without a string; otherwise the first
      number that starts a word, read as an integer and written with two digits at
      least; nothing when the string holds no such number. */
  function ExtractFirstDate(ds: Option<string>): (r: Option<string>)
    ensures ds.None? ==> r == Some("01")
    ensures ds.Some? ==> (r.None? <==> forall k :: 0 <= k < |ds.value| ==> !NumberStartsAt(ds.value, k))
    ensures ds.Some? && r.Some? ==> exists i, j ::
      && 0 <= i < j <= |ds.value| && NumberStartsAt(ds.value, i)
      && (forall k :: 0 <= k < i ==> !NumberStartsAt(ds.value, k))
      && AllDigits(ds.value[i..j]) && (j == |ds.value| || !IsDigit(ds.value[j]))
      && r.value == Padded(ValueOf(ds.value[i..j]), 2)
  {
    match ds
    case None => Some("01")
    case Some(s) =>
      match FirstNumberFrom(s, 0)
      case None => None
      case Some(i) =>
        var j := DigitRunEnd(s, i);
        Some(Padded(ValueOf(s[i..j]), 2))
  }

  /** The label of a week in the dashboard's week picker: `f"{d}{suffix}-{e}{suffix}"`. */
  function WeekLabel(a: int, b: int): string
    requires 1 <= a <= 31 && 1 <= b <= 31
  {
    Decimal(a) + DaySuffix(a).value + "-" + Decimal(b) + DaySuffix(b).value
  }

  /** A string that opens with a number followed by a non-digit reads as that number. */
  lemma LeadingNumber(d: string, rest: string)
    requires |d| >= 1 && AllDigits(d) && rest != [] && !IsDigit(rest[0])
    ensures ExtractFirstDate(Some(d + rest)) == Some(Padded(ValueOf(d), 2))
  {
    var s := d + rest;
    assert NumberStartsAt(s, 0);
    DigitRunStops(s, 0, |d|);
    assert s[0..|d|] == d;
  }

  /** Reading a week label back yields the first day of the week, zero-padded. */
  lemma FirstDateOfWeekLabel(a: int, b: int)
    requires 1 <= a <= 31 && 1 <= b <= 31
    ensures ExtractFirstDate(Some(WeekLabel(a, b))) == Some(Padded(a, 2))
  {
    var suffix := DaySuffix(a).value;
    var rest := suffix + "-" + Decimal(b) + DaySuffix(b).value;
    assert !IsDigit(rest[0]) by {
      assert rest[0] == suffix[0];
    }
    assert WeekLabel(a, b) == Decimal(a) + rest;
    LeadingNumber(Decimal(a), rest);
    ValueOfDecimal(a);
  }

  /** The Monday of the week before the week of day `today`. */
  function LastWeekStart(today: int): (m: int)
    ensures today - 13 <= m <= today - 7
  {
    MondayOf(today) - 7
  }

  /** Last week runs from a Monday to the Sunday six days later, in the
      Monday-to-Sunday week just before the week of `today`. */
  lemma LastWeekIsPreviousWeek(today: int)
    ensures var m := LastWeekStart(today);
      && Weekday(m) == 0 && WeekIndex(m) == WeekIndex(today) - 1
      && Weekday(m + 6) == 6 && WeekIndex(m + 6) == WeekIndex(m)
  {
  }

  /** `f"{a:02}-{b:02}"`, which reads back as a and b. */
  function DayRange(a: nat, b: nat): (r: string)
    requires a < 100 && b < 100
    ensures |r| == 5 && r[2] == '-' && AllDigits(r[..2]) && AllDigits(r[3..])
    ensures ValueOf(r[..2]) == a && ValueOf(r[3..]) == b
  {
    TwoDigits(a);
    TwoDigits(b);
    var r := Padded(a, 2) + "-" + Padded(b, 2);
    assert r[..2] == Padded(a, 2) && r[3..] == Padded(b, 2);
    r
  }

  /** The day of the month of a day ordinal (`datetime.day`). */
  function DayOfMonth(n: int): (d: nat)
    requires n >= 1
    ensures 1 <= d <= 31
  {
    FromOrdinal(n).day
  }

  /** `get_last_week_dates()` with today's date passed in as its day ordinal: the days
      of the month of last week's Monday and Sunday, each with two digits, joined by
      a dash. Stepping back before 0001-01-01 raises in Python, so such a today is
      not accepted. */
  function LastWeekDates(today: int): (r: string)
    requires LastWeekStart(today) >= 1
    ensures |r| == 5 && r[2] == '-' && AllDigits(r[..2]) && AllDigits(r[3..])
    ensures ValueOf(r[..2]) == DayOfMonth(LastWeekStart(today))
    ensures ValueOf(r[3..]) == DayOfMonth(LastWeekStart(today) + 6)
  {
    var start := LastWeekStart(today);
    DayRange(DayOfMonth(start), DayOfMonth(start + 6))
  }
}
