/**
 * Text the report and the listing show: amounts as `f"${x:,.0f}"` with every
 * ',' replaced by '.' (app.py:112-116, app.py:144, app.py:192), descriptions
 * cut to 35 characters (app.py:143) and dates as `str(date)` (app.py:141).
 */
module Formatting {
  import opened Wrappers
  import opened Records

  predicate IsDigit(c: char)
  {
    '0' <= c <= '9'
  }

  predicate AllDigits(s: string)
  {
    forall i :: 0 <= i < |s| ==> IsDigit(s[i])
  }

  function DigitChar(d: nat): (c: char)
    requires d < 10
    ensures IsDigit(c) && c as int - '0' as int == d
  {
    ('0' as int + d) as char
  }

  function DigitValue(c: char): nat
    requires IsDigit(c)
  {
    c as int - '0' as int
  }

  /** Decimal digits of `n`, most significant first. */
  function Digits(n: nat): (s: string)
    ensures AllDigits(s)
    ensures |s| >= 1 && (|s| == 1 <==> n < 10)
    ensures |s| > 1 ==> s[0] != '0'
  {
    if n < 10 then [DigitChar(n)] else Digits(n / 10) + [DigitChar(n % 10)]
  }

  /** `n` in at least `width` digits, zero-padded on the left (`%0*d`). */
  function Padded(n: nat, width: nat): (s: string)
    ensures AllDigits(s) && |s| >= width
  {
    if width <= 1 then Digits(n) else Padded(n / 10, width - 1) + [DigitChar(n % 10)]
  }

  /** The number a string of decimal digits denotes. */
  function Value(s: string): nat
    requires AllDigits(s)
  {
    if s == [] then 0 else Value(s[..|s| - 1]) * 10 + DigitValue(s[|s| - 1])
  }

  /** Digits and Value are inverse: the digits of `n` denote `n`. */
  lemma {:induction false} ValueOfDigits(n: nat)
    ensures Value(Digits(n)) == n
  {
    if n >= 10 {
      ValueOfDigits(n / 10);
      var s := Digits(n);
      assert s[..|s| - 1] == Digits(n / 10);
    }
  }

  /** Zero padding does not change the number shown. */
  lemma {:induction false} ValueOfPadded(n: nat, width: nat)
    requires n < Pow10(width) || width <= 1
    ensures Value(Padded(n, width)) == n
  {
    if width <= 1 {
      ValueOfDigits(n);
    } else {
      ValueOfPadded(n / 10, width - 1);
      var s := Padded(n, width);
      assert s[..|s| - 1] == Padded(n / 10, width - 1);
    }
  }

  function Pow10(k: nat): nat
  {
    if k == 0 then 1 else 10 * Pow10(k - 1)
  }

  /** Separates groups of three digits, counted from the right, with '.'. */
  function Group(ds: string): (g: string)
    ensures |g| >= |ds|
    ensures |ds| >= 1 ==> g[0] == ds[0]
    decreases |ds|
  {
    if |ds| <= 3 then ds else Group(ds[..|ds| - 3]) + "." + ds[|ds| - 3..]
  }

  /** Digit groups separated by '.': the first group has one to three digits,
      every later group exactly three. */
  predicate WellGrouped(s: string)
    decreases |s|
  {
    if |s| <= 3 then 1 <= |s| && AllDigits(s)
    else s[|s| - 4] == '.' && AllDigits(s[|s| - 3..]) && WellGrouped(s[..|s| - 4])
  }

  /** `s` with every '.' removed. */
  function StripDots(s: string): string
  {
    if s == [] then [] else (if s[0] == '.' then [] else [s[0]]) + StripDots(s[1..])
  }

  lemma {:induction false} StripDotsAppend(a: string, b: string)
    ensures StripDots(a + b) == StripDots(a) + StripDots(b)
  {
    if a == [] {
      assert a + b == b;
    } else {
      assert (a + b)[0] == a[0] && (a + b)[1..] == a[1..] + b;
      StripDotsAppend(a[1..], b);
    }
  }

  lemma {:induction false} StripDotsOfDigits(s: string)
    requires AllDigits(s)
    ensures StripDots(s) == s
  {
    if s != [] {
      StripDotsOfDigits(s[1..]);
    }
  }

  /** Grouping a digit string yields well-formed groups, and removing the
      separators gives the digits back. */
  lemma {:induction false} GroupShape(ds: string)
    requires |ds| >= 1 && AllDigits(ds)
    ensures WellGrouped(Group(ds))
    ensures StripDots(Group(ds)) == ds
  {
    if |ds| <= 3 {
      StripDotsOfDigits(ds);
    } else {
      var head, tail := ds[..|ds| - 3], ds[|ds| - 3..];
      GroupShape(head);
      GroupStep(Group(head), tail);
      assert ds == head + tail;
    }
  }

  /** One more group of three digits after well-formed groups. */
  lemma GroupStep(g: string, tail: string)
    requires WellGrouped(g) && |tail| == 3 && AllDigits(tail)
    ensures WellGrouped(g + "." + tail)
    ensures StripDots(g + "." + tail) == StripDots(g) + tail
  {
    var s := g + "." + tail;
    assert s[..|s| - 4] == g && s[|s| - 4] == '.' && s[|s| - 3..] == tail;
    StripDotsOfSeparated(g, tail);
  }

  lemma StripDotsOfSeparated(g: string, tail: string)
    requires AllDigits(tail)
    ensures StripDots(g + "." + tail) == StripDots(g) + tail
  {
    var dot: string := ".";
    assert StripDots(dot) == [] by {
      assert dot[0] == '.' && dot[1..] == [];
    }
    StripDotsAppend(g, dot);
    StripDotsAppend(g + dot, tail);
    StripDotsOfDigits(tail);
  }

  /** Python's `.0f` conversion: the nearest integer, ties to the even one. */
  function RoundHalfEven(x: real): (n: int)
    ensures x - 0.5 <= n as real <= x + 0.5
    ensures (n as real - x == 0.5 || x - n as real == 0.5) ==> n % 2 == 0
    ensures x >= 0.0 ==> n >= 0
    ensures x < 0.0 ==> n <= 0
  {
    var f := x.Floor;
    var d := x - f as real;
    if d < 0.5 then f else if d > 0.5 then f + 1 else if f % 2 == 0 then f else f + 1
  }

  /** The two properties of RoundHalfEven determine its result. */
  lemma RoundHalfEvenUnique(x: real, m: int)
    requires x - 0.5 <= m as real <= x + 0.5
    requires (m as real - x == 0.5 || x - m as real == 0.5) ==> m % 2 == 0
    ensures m == RoundHalfEven(x)
  {
  }

  /** `f"${x:,.0f}".replace(",", ".")`: a '$', a '-' for a negative amount, then the
      rounded magnitude in groups of three separated by '.'. */
  function Currency(x: real): (s: string)
    ensures |s| >= 2 && s[0] == '$'
    ensures s[1] == '-' <==> x < 0.0
  {
    var n := RoundHalfEven(x);
    "$" + (if x < 0.0 then "-" else "") + Group(Digits(if n < 0 then -n else n))
  }

  /** Reads back an amount written by Currency; None for any other text. */
  function ParseCurrency(s: string): Option<int>
  {
    if |s| < 2 || s[0] != '$' then None
    else
      var negative := s[1] == '-';
      var body := if negative then s[2..] else s[1..];
      var ds := StripDots(body);
      if !WellGrouped(body) || !AllDigits(ds) then None
      else
        var v: int := Value(ds);
        Some(if negative then -v else v)
  }

  /** A formatted non-negative amount is '$' followed by well-formed digit groups
      whose digits are those of the rounded amount. */
  lemma CurrencyShape(x: real)
    requires x >= 0.0
    ensures Currency(x)[0] == '$'
    ensures WellGrouped(Currency(x)[1..])
    ensures StripDots(Currency(x)[1..]) == Digits(RoundHalfEven(x))
  {
    var ds := Digits(RoundHalfEven(x));
    GroupShape(ds);
    assert Currency(x)[1..] == Group(ds);
  }

  lemma {:induction false} WellGroupedStartsWithDigit(s: string)
    requires WellGrouped(s)
    ensures |s| >= 1 && IsDigit(s[0])
  {
    if |s| > 3 {
      WellGroupedStartsWithDigit(s[..|s| - 4]);
    }
  }

  /** How ParseCurrency reads a '$', an optional '-', and well-formed digit groups. */
  lemma ParseParts(s: string, negative: bool, body: string)
    requires |s| >= 2 && s[0] == '$' && (s[1] == '-' <==> negative)
    requires body == if negative then s[2..] else s[1..]
    requires WellGrouped(body) && AllDigits(StripDots(body))
    ensures ParseCurrency(s) == Some(if negative then -(Value(StripDots(body)) as int) else Value(StripDots(body)))
  {
  }

  /** Reading back `prefix + g` for well-formed groups `g` of the digits of `m`. */
  lemma ParseGrouped(negative: bool, m: nat)
    ensures ParseCurrency((if negative then "$-" else "$") + Group(Digits(m)))
      == Some(if negative then -(m as int) else m as int)
  {
    var g := Group(Digits(m));
    GroupShape(Digits(m));
    ValueOfDigits(m);
    WellGroupedStartsWithDigit(g);
    var s := (if negative then "$-" else "$") + g;
    if negative {
      assert s[1] == '-' && s[2..] == g;
    } else {
      assert s[1] == g[0] && s[1..] == g;
    }
    ParseParts(s, negative, g);
  }

  /** Every formatted amount reads back as the rounded amount. */
  lemma CurrencyRoundTrip(x: real)
    ensures ParseCurrency(Currency(x)) == Some(RoundHalfEven(x))
  {
    var n := RoundHalfEven(x);
    var m: nat := if n < 0 then -n else n;
    assert Currency(x) == (if x < 0.0 then "$-" else "$") + Group(Digits(m));
    ParseGrouped(x < 0.0, m);
  }

  /** Width of the description column of the report. */
  const DESCRIPTION_WIDTH: nat := 35

  /** `descripcion[:35]` (app.py:143). */
  function Shorten(description: string): (s: string)
    ensures |s| == if |description| < DESCRIPTION_WIDTH then |description| else DESCRIPTION_WIDTH
    ensures s == description[..|s|]
    ensures s == description <==> |description| <= DESCRIPTION_WIDTH
  {
    if |description| <= DESCRIPTION_WIDTH then description else description[..DESCRIPTION_WIDTH]
  }

  /** `str(fecha)`: the ISO form YYYY-MM-DD (app.py:141). */
  function IsoDate(d: Date): (s: string)
    ensures |s| >= 10
    ensures AllDigits(s[..4]) && IsDigit(s[|s| - 1])
  {
    Padded(d.year, 4) + "-" + Padded(d.month, 2) + "-" + Padded(d.day, 2)
  }

  /** A number below `10^width` takes exactly `width` digits once padded. */
  lemma {:induction false} PaddedLength(n: nat, width: nat)
    requires 1 <= width && n < Pow10(width)
    ensures |Padded(n, width)| == width
  {
    if width > 1 {
      PaddedLength(n / 10, width - 1);
    }
  }

  /** A date of a four-digit year is written in ten characters, its three fields
      separated by '-' and each reading back as the field. */
  lemma IsoDateReadsBack(d: Date)
    requires d.year < 10000 && d.month < 100 && d.day < 100
    ensures |IsoDate(d)| == 10 && IsoDate(d)[4] == '-' && IsoDate(d)[7] == '-'
    ensures AllDigits(IsoDate(d)[..4]) && Value(IsoDate(d)[..4]) == d.year
    ensures AllDigits(IsoDate(d)[5..7]) && Value(IsoDate(d)[5..7]) == d.month
    ensures AllDigits(IsoDate(d)[8..]) && Value(IsoDate(d)[8..]) == d.day
  {
    var y, m, dd := Padded(d.year, 4), Padded(d.month, 2), Padded(d.day, 2);
    assert Pow10(4) == 10000 && Pow10(2) == 100;
    PaddedLength(d.year, 4);
    PaddedLength(d.month, 2);
    PaddedLength(d.day, 2);
    ValueOfPadded(d.year, 4);
    ValueOfPadded(d.month, 2);
    ValueOfPadded(d.day, 2);
    var s := IsoDate(d);
    assert s == y + "-" + m + "-" + dd;
    assert s[..4] == y;
    assert s[5..7] == m by {
      assert s == (y + "-") + m + ("-" + dd);
      assert |y + "-"| == 5;
    }
    assert s[8..] == dd;
  }
}
