/** Decimal numerals as Python's format specifications write them: plain `str(int)`,
    zero padding (`{n:02}`), and money as `f"{prefix}{amount:,.2f}"` with comma
    thousands separators, for amounts held exactly in pence. */
module Numerals {
  import opened Outcomes

  predicate IsDigit(c: char)
  {
    '0' <= c <= '9'
  }

  predicate AllDigits(s: string)
  {
    forall i :: 0 <= i < |s| ==> IsDigit(s[i])
  }

  function DigitChar(d: int): (c: char)
    requires 0 <= d <= 9
    ensures IsDigit(c)
  {
    "0123456789"[d]
  }

  function DigitValue(c: char): (d: int)
    requires IsDigit(c)
    ensures 0 <= d <= 9 && DigitChar(d) == c
  {
    (c as int) - ('0' as int)
  }

  /** The numeral of n without leading zeros ("0" for zero), as `str(n)`. */
  function Decimal(n: nat): (s: string)
    ensures |s| >= 1 && AllDigits(s)
    ensures |s| > 1 ==> s[0] != '0'
    decreases n
  {
    if n < 10 then [DigitChar(n)] else Decimal(n / 10) + [DigitChar(n % 10)]
  }

  /** The value of a digit string, as `int(s)` reads it (leading zeros allowed). */
  function ValueOf(s: string): nat
    requires AllDigits(s)
    decreases |s|
  {
    if s == [] then 0 else ValueOf(s[..|s| - 1]) * 10 + DigitValue(s[|s| - 1])
  }

  lemma {:induction false} ValueOfDecimal(n: nat)
    ensures ValueOf(Decimal(n)) == n
    decreases n
  {
    var s := Decimal(n);
    if n >= 10 {
      ValueOfDecimal(n / 10);
      assert s[..|s| - 1] == Decimal(n / 10);
    }
  }

  lemma {:induction false} ValueOfLeadingZero(s: string)
    requires AllDigits(s)
    ensures AllDigits("0" + s) && ValueOf("0" + s) == ValueOf(s)
    decreases |s|
  {
    if s != [] {
      ValueOfLeadingZero(s[..|s| - 1]);
      assert ("0" + s)[..|"0" + s| - 1] == "0" + s[..|s| - 1];
    }
  }

  /** Left-pads with zeros to at least `width` characters, as the format spec `0width`. */
  function ZeroPad(s: string, width: nat): (r: string)
    ensures |r| == if |s| >= width then |s| else width
    ensures AllDigits(s) ==> AllDigits(r) && ValueOf(r) == ValueOf(s)
    decreases width - |s|
  {
    if |s| >= width then s
    else
      var r := ZeroPad("0" + s, width);
      if AllDigits(s) then ValueOfLeadingZero(s); r else r
  }

  /** `f"{n:0width}"` for a non-negative n. */
  function Padded(n: nat, width: nat): (s: string)
    ensures AllDigits(s) && ValueOf(s) == n && |s| >= width
  {
    ValueOfDecimal(n);
    ZeroPad(Decimal(n), width)
  }

  function Pow10(n: nat): nat
  {
    if n == 0 then 1 else 10 * Pow10(n - 1)
  }

  /** A number below 10^k is written with at most k digits. */
  lemma {:induction false} DecimalShort(n: nat, k: nat)
    requires k >= 1 && n < Pow10(k)
    ensures |Decimal(n)| <= k
    decreases n
  {
    if n >= 10 {
      assert k >= 2;
      DecimalShort(n / 10, k - 1);
    }
  }

  /** A string of k digits stands for a number below 10^k. */
  lemma {:induction false} ValueBelowPow10(s: string)
    requires AllDigits(s)
    ensures ValueOf(s) < Pow10(|s|)
    decreases |s|
  {
    if s != [] {
      ValueBelowPow10(s[..|s| - 1]);
    }
  }

  /** Two-digit zero padding, `f"{n:02}"`, for 0 <= n <= 99. */
  lemma TwoDigits(n: nat)
    requires n < 100
    ensures |Padded(n, 2)| == 2
  {
    if n >= 10 {
      assert Decimal(n) == Decimal(n / 10) + [DigitChar(n % 10)];
    }
    assert |Decimal(n)| <= 2;
  }

  /** Inserts a comma between each group of three digits counted from the right. */
  function GroupThousands(s: string): (r: string)
    ensures |s| >= 1 ==> |r| >= 1 && r[0] == s[0]
    decreases |s|
  {
    if |s| <= 3 then s else GroupThousands(s[..|s| - 3]) + "," + s[|s| - 3..]
  }

  function RemoveCommas(s: string): string
  {
    if s == [] then [] else (if s[0] == ',' then [] else [s[0]]) + RemoveCommas(s[1..])
  }

  lemma {:induction false} RemoveCommasAppend(a: string, b: string)
    ensures RemoveCommas(a + b) == RemoveCommas(a) + RemoveCommas(b)
    decreases |a|
  {
    if a != [] {
      RemoveCommasAppend(a[1..], b);
      var first := if a[0] == ',' then [] else [a[0]];
      assert (a + b)[0] == a[0];
      assert (a + b)[1..] == a[1..] + b;
      assert RemoveCommas(a + b) == first + RemoveCommas(a[1..] + b);
      assert RemoveCommas(a) == first + RemoveCommas(a[1..]);
    } else {
      assert a + b == b;
    }
  }

  lemma {:induction false} RemoveCommasNoComma(s: string)
    requires AllDigits(s)
    ensures RemoveCommas(s) == s
    decreases |s|
  {
    if s != [] {
      RemoveCommasNoComma(s[1..]);
    }
  }

  lemma GroupStep(s: string)
    requires |s| > 3
    ensures GroupThousands(s) == GroupThousands(s[..|s| - 3]) + ("," + s[|s| - 3..])
  {
  }

  lemma RemoveLeadingComma(t: string)
    ensures RemoveCommas("," + t) == RemoveCommas(t)
  {
    assert ("," + t)[1..] == t;
  }

  /** The separators are the only thing grouping adds. */
  lemma {:induction false} UngroupThousands(s: string)
    requires AllDigits(s)
    ensures RemoveCommas(GroupThousands(s)) == s
    decreases |s|
  {
    if |s| <= 3 {
      RemoveCommasNoComma(s);
    } else {
      var head, tail := s[..|s| - 3], s[|s| - 3..];
      assert AllDigits(head) && AllDigits(tail);
      calc {
        RemoveCommas(GroupThousands(s));
        { GroupStep(s); }
        RemoveCommas(GroupThousands(head) + ("," + tail));
        { RemoveCommasAppend(GroupThousands(head), "," + tail); }
        RemoveCommas(GroupThousands(head)) + RemoveCommas("," + tail);
        { UngroupThousands(head); RemoveLeadingComma(tail); }
        head + RemoveCommas(tail);
        { RemoveCommasNoComma(tail); }
        head + tail;
        s;
      }
    }
  }

  /** Commas at the positions a multiple of four characters from the end, and digits
      elsewhere. */
  predicate CommasEveryFourth(r: string)
  {
    forall i :: 0 <= i < |r| ==> (r[i] == ',' <==> (|r| - i) % 4 == 0) && (r[i] != ',' ==> IsDigit(r[i]))
  }

  /** Appending a comma and three digits to a well-grouped string keeps it well grouped. */
  lemma CommaGroupAppend(g: string, tail: string)
    requires CommasEveryFourth(g) && |tail| == 3 && AllDigits(tail)
    ensures CommasEveryFourth(g + ("," + tail))
  {
    var r := g + ("," + tail);
    forall i | 0 <= i < |r|
      ensures (r[i] == ',' <==> (|r| - i) % 4 == 0) && (r[i] != ',' ==> IsDigit(r[i]))
    {
      if i < |g| {
        assert r[i] == g[i] && |r| - i == (|g| - i) + 4;
      } else if i > |g| {
        assert r[i] == tail[i - |g| - 1];
      }
    }
  }

  /** Where grouping puts the separators: a comma exactly at the positions that are a
      multiple of four characters from the end, and a digit everywhere else. */
  lemma {:induction false} CommaPlacement(s: string)
    requires AllDigits(s) && |s| >= 1
    ensures CommasEveryFourth(GroupThousands(s))
    decreases |s|
  {
    var r := GroupThousands(s);
    if |s| <= 3 {
      forall i | 0 <= i < |r|
        ensures (r[i] == ',' <==> (|r| - i) % 4 == 0) && (r[i] != ',' ==> IsDigit(r[i]))
      {
        assert IsDigit(s[i]) && 1 <= |r| - i <= 3;
      }
    } else {
      var head, tail := s[..|s| - 3], s[|s| - 3..];
      assert AllDigits(head) by {
        forall j | 0 <= j < |head| ensures IsDigit(head[j]) { assert head[j] == s[j]; }
      }
      assert AllDigits(tail) by {
        forall j | 0 <= j < |tail| ensures IsDigit(tail[j]) { assert tail[j] == s[|s| - 3 + j]; }
      }
      CommaPlacement(head);
      GroupStep(s);
      CommaGroupAppend(GroupThousands(head), tail);
    }
  }

  /** One more digit on the right of a numeral. */
  lemma DecimalAppend(n: nat, m: nat, d: nat, s: string)
    requires m >= 1 && d <= 9 && n == m * 10 + d && Decimal(m) == s
    ensures Decimal(n) == s + [DigitChar(d)]
  {
    assert n / 10 == m && n % 10 == d;
  }

  /** The numeral of the pounds in the worked example below. */
  lemma DecimalExample(n: nat)
    requires n == 1234567
    ensures Decimal(n) == "1234567"
  {
    DecimalAppend(12, 1, 2, "1");
    DecimalAppend(123, 12, 3, "12");
    DecimalAppend(1234, 123, 4, "123");
    DecimalAppend(12345, 1234, 5, "1234");
    DecimalAppend(123456, 12345, 6, "12345");
    DecimalAppend(n, 123456, 7, "123456");
  }

  /** The same numeral with its thousands separators. */
  lemma GroupedPoundsExample(s: string)
    requires s == "1234567"
    ensures GroupThousands(s) == "1,234,567"
  {
    GroupStep(s);
    assert s[..4] == "1234" && s[4..] == "567";
    GroupStep(s[..4]);
  }

  /** A worked example: 1,234,567.89 pounds. */
  lemma FormatMoneyExample(pence: int)
    requires pence == 123456789
    ensures FormatMoney("\U{00A3}", pence) == "\U{00A3}1,234,567.89"
  {
    DecimalExample(Abs(pence) / 100);
    GroupedPoundsExample(Decimal(Abs(pence) / 100));
    DecimalAppend(89, 8, 9, "8");
    assert Padded(89, 2) == "89";
  }

  function Abs(x: int): nat
  {
    if x < 0 then -x else x
  }

  /** `f"{prefix}{amount:,.2f}"` of an amount given in pence: an optional minus sign,
      then the unsigned amount. */
  function FormatMoney(prefix: string, pence: int): (s: string)
    ensures |s| >= |prefix| + 4 && s[..|prefix|] == prefix
    ensures s[|s| - 3] == '.' && IsDigit(s[|s| - 2]) && IsDigit(s[|s| - 1])
  {
    UnsignedLength(Abs(pence));
    prefix + ((if pence < 0 then "-" else "") + UnsignedAmount(Abs(pence)))
  }

  /** The whole pounds with comma thousands separators, a point, and two pence digits. */
  function UnsignedAmount(pence: nat): string
  {
    GroupThousands(Decimal(pence / 100)) + "." + Padded(pence % 100, 2)
  }

  lemma UnsignedLength(pence: nat)
    ensures var s := UnsignedAmount(pence);
      |s| >= 4 && s[|s| - 3] == '.' && IsDigit(s[|s| - 2]) && IsDigit(s[|s| - 1])
  {
    TwoDigits(pence % 100);
  }

  /** Reads back a money string: prefix, optional minus, then an unsigned amount. */
  function ParseMoney(prefix: string, s: string): Option<int>
  {
    if |s| < |prefix| || s[..|prefix|] != prefix then None else ParseSigned(s[|prefix|..])
  }

  function ParseSigned(s: string): Option<int>
  {
    if |s| > 0 && s[0] == '-' then
      match ParseUnsigned(s[1..])
      case Some(m) => Some(-(m as int))
      case None => None
    else
      match ParseUnsigned(s)
      case Some(m) => Some(m as int)
      case None => None
  }

  /** Digits with commas, a point, two digits: the amount in pence. */
  function ParseUnsigned(body: string): Option<nat>
  {
    if |body| < 4 || body[|body| - 3] != '.' then None
    else
      var whole := RemoveCommas(body[..|body| - 3]);
      var cents := body[|body| - 2..];
      if |whole| == 0 || !AllDigits(whole) || !AllDigits(cents) then None
      else Some(ValueOf(whole) * 100 + ValueOf(cents))
  }

  lemma SplitAtPoint(g: string, c: string)
    requires |c| == 2
    ensures var body := g + "." + c;
      |body| == |g| + 3 && body[..|body| - 3] == g && body[|body| - 3] == '.' && body[|body| - 2..] == c
  {
  }

  lemma ParseUnsignedParts(g: string, digits: string, cents: string)
    requires AllDigits(digits) && |digits| >= 1 && RemoveCommas(g) == digits
    requires AllDigits(cents) && |cents| == 2
    ensures ParseUnsigned(g + "." + cents) == Some(ValueOf(digits) * 100 + ValueOf(cents))
  {
    SplitAtPoint(g, cents);
  }

  lemma ParsePoundsAndPence(pounds: nat, pence: nat)
    requires pence < 100
    ensures var g := GroupThousands(Decimal(pounds));
      |g| >= 1 && IsDigit(g[0]) && ParseUnsigned(g + "." + Padded(pence, 2)) == Some(pounds * 100 + pence)
  {
    var digits := Decimal(pounds);
    TwoDigits(pence);
    UngroupThousands(digits);
    ValueOfDecimal(pounds);
    ParseUnsignedParts(GroupThousands(digits), digits, Padded(pence, 2));
  }

  lemma ParseUnsignedFormatted(pence: nat)
    ensures |UnsignedAmount(pence)| > 0 && IsDigit(UnsignedAmount(pence)[0])
    ensures ParseUnsigned(UnsignedAmount(pence)) == Some(pence)
  {
    var w, c := pence / 100, pence % 100;
    assert w * 100 + c == pence;
    var g := GroupThousands(Decimal(w));
    var s := UnsignedAmount(pence);
    assert s == g + "." + Padded(c, 2);
    assert |s| > 0 && IsDigit(s[0]) by {
      ParsePoundsAndPence(w, c);
      assert s[0] == g[0];
    }
    assert ParseUnsigned(s) == Some(pence) by {
      ParsePoundsAndPence(w, c);
    }
  }

  lemma ParseSignedBody(negative: bool, body: string, magnitude: nat)
    requires |body| > 0 && IsDigit(body[0]) && ParseUnsigned(body) == Some(magnitude)
    ensures ParseSigned((if negative then "-" else "") + body) == Some(if negative then -(magnitude as int) else magnitude)
  {
    if negative {
      assert ("-" + body)[1..] == body;
    } else {
      assert "" + body == body;
    }
  }

  lemma StripPrefix(prefix: string, rest: string)
    ensures ParseMoney(prefix, prefix + rest) == ParseSigned(rest)
  {
    assert (prefix + rest)[..|prefix|] == prefix;
    assert (prefix + rest)[|prefix|..] == rest;
  }

  /** Formatting loses nothing: the amount in pence is read back from the string. */
  lemma MoneyRoundTrip(prefix: string, pence: int)
    ensures ParseMoney(prefix, FormatMoney(prefix, pence)) == Some(pence)
  {
    var a := Abs(pence);
    var body := UnsignedAmount(a);
    ParseUnsignedFormatted(a);
    ParseSignedBody(pence < 0, body, a);
    var rest := (if pence < 0 then "-" else "") + body;
    assert FormatMoney(prefix, pence) == prefix + rest;
    StripPrefix(prefix, rest);
  }
}
