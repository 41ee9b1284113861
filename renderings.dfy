/**
 * Decimal renderings of a number as the page may print it, `str(n)` and
 * `f"{n:,}"`, and what the scraper records for each.
 */
module Renderings {
  import opened Wrappers
  import opened ValueText

  function DigitChar(d: nat): (c: char)
    requires d < 10
    ensures IsDigit(c) && DigitValue(c) == d
  {
    ('0' as int + d) as char
  }

  /** `str(n)` for a non-negative `n`. */
  function Decimal(n: nat): (r: string)
    ensures |r| > 0
    ensures forall i :: 0 <= i < |r| ==> IsDigit(r[i])
    decreases n
  {
    if n < 10 then [DigitChar(n)] else Decimal(n / 10) + [DigitChar(n % 10)]
  }

  /** `str(n)`: a minus sign for a negative number, then its digits. */
  function Show(n: int): string
  {
    if n < 0 then "-" + Decimal(-n) else Decimal(n)
  }

  /** Three digits with leading zeros, one comma-separated group. */
  function Pad3(r: nat): string
    requires r < 1000
  {
    [DigitChar(r / 100), DigitChar(r / 10 % 10), DigitChar(r % 10)]
  }

  /** `f"{n:,}"` for a non-negative `n`: digits grouped by three with commas. */
  function Grouped(n: nat): string
    decreases n
  {
    if n < 1000 then Decimal(n) else Grouped(n / 1000) + "," + Pad3(n % 1000)
  }

  /** `f"{n:,}"`. */
  function ShowGrouped(n: int): string
  {
    if n < 0 then "-" + Grouped(-n) else Grouped(n)
  }

  function Abs(n: int): nat {
    if n < 0 then -n else n
  }

  lemma {:induction false} AccumulateSnoc(acc: int, ds: string, c: char)
    ensures Accumulate(acc, ds + [c]) == Accumulate(acc, ds) * 10 + DigitValue(c)
    decreases |ds|
  {
    if ds == [] {
      assert ds + [c] == [c];
    } else {
      assert (ds + [c])[1..] == ds[1..] + [c];
      AccumulateSnoc(acc * 10 + DigitValue(ds[0]), ds[1..], c);
    }
  }

  /** Reading back the digits `str` writes gives the number. */
  lemma {:induction false} DecimalValue(n: nat)
    ensures DigitsValue(Decimal(n)) == n
    decreases n
  {
    if n >= 10 {
      DecimalValue(n / 10);
      AccumulateSnoc(0, Decimal(n / 10), DigitChar(n % 10));
    } else {
      var ds := Decimal(n);
      assert ds[1..] == [];
      assert DigitsValue(ds) == Accumulate(DigitValue(ds[0]), ds[1..]);
    }
  }

  /** A string of digits has no underscores to drop. */
  lemma {:induction false} PlainDigits(ds: string)
    requires forall i :: 0 <= i < |ds| ==> IsDigit(ds[i])
    ensures GroupsTail(ds) && DropUnderscores(ds) == ds
    decreases |ds|
  {
    if ds != [] {
      PlainDigits(ds[1..]);
    }
  }

  /** `str(n)` as a literal: no whitespace, a minus sign when negative, the digits. */
  function ShowLiteral(n: int): Literal
  {
    Literal("", if n < 0 then "-" else "", Decimal(Abs(n)), "")
  }

  /** Digits with an optional minus sign and no whitespace form a literal. */
  lemma {:induction false} SignedDigitsWellFormed(negative: bool, ds: string)
    requires |ds| > 0 && forall i :: 0 <= i < |ds| ==> IsDigit(ds[i])
    ensures WellFormed(Literal("", if negative then "-" else "", ds, ""))
  {
    PlainDigits(ds[1..]);
  }

  /** Such a literal counts its digits and denotes their signed value. */
  lemma {:induction false} SignedDigitsValue(negative: bool, ds: string)
    requires forall i :: 0 <= i < |ds| ==> IsDigit(ds[i])
    ensures var l := Literal("", if negative then "-" else "", ds, "");
      DigitCount(l) == |ds| && LiteralValue(l) == if negative then -DigitsValue(ds) else DigitsValue(ds)
  {
    PlainDigits(ds);
  }

  lemma {:induction false} ShowLiteralDenotes(n: int)
    ensures WellFormed(ShowLiteral(n)) && Text(ShowLiteral(n)) == Show(n)
    ensures DigitCount(ShowLiteral(n)) == |Decimal(Abs(n))|
    ensures LiteralValue(ShowLiteral(n)) == n
  {
    ShowLiteralText(n);
    SignedDigitsWellFormed(n < 0, Decimal(Abs(n)));
    ShowLiteralValue(n);
  }

  lemma {:induction false} ShowLiteralText(n: int)
    ensures Text(ShowLiteral(n)) == Show(n)
  {
    var ds := Decimal(Abs(n));
    if n < 0 {
      assert Text(ShowLiteral(n)) == "-" + ds;
    } else {
      assert Text(ShowLiteral(n)) == ds;
    }
  }

  lemma {:induction false} ShowLiteralValue(n: int)
    ensures DigitCount(ShowLiteral(n)) == |Decimal(Abs(n))|
    ensures LiteralValue(ShowLiteral(n)) == n
  {
    SignedDigitsValue(n < 0, Decimal(Abs(n)));
    DecimalValue(Abs(n));
  }

  /** Text `str(n)` produces converts back to `n` (within the digit limit), and so is recorded as `n`. */
  lemma {:induction false} ShowRoundTrip(n: int)
    requires |Decimal(Abs(n))| <= MaxStrDigits
    ensures ParseInt(Show(n)) == Some(n)
    ensures ValueOf(Show(n)) == n
  {
    var l := ShowLiteral(n);
    ShowLiteralDenotes(n);
    ScanLiteral(l);
    assert RemoveCommas(Show(n)) == Show(n);
  }

  /** `str(n)` of a number of more than 4300 digits is recorded as 0. */
  lemma {:induction false} HugeNumberIsZero(n: int)
    requires |Decimal(Abs(n))| > MaxStrDigits
    ensures ValueOf(Show(n)) == 0
  {
    var l := ShowLiteral(n);
    ShowLiteralDenotes(n);
    assert ',' !in Show(n);
    TooManyDigitsIsZero(l);
  }

  lemma {:induction false} ThousandsArithmetic(n: nat)
    ensures n / 10 / 10 == n / 100 && n / 100 / 10 == n / 1000
    ensures n % 1000 / 100 == n / 100 % 10
    ensures n % 1000 / 10 % 10 == n / 10 % 10
    ensures n % 1000 % 10 == n % 10
  {
    var q, r := n / 1000, n % 1000;
    assert n == 1000 * q + r;
    assert n / 10 == 100 * q + r / 10;
    assert n / 100 == 10 * q + r / 100;
  }

  /** Splitting off the last three digits of a number of four or more digits. */
  lemma {:induction false} DecimalThousands(n: nat)
    requires n >= 1000
    ensures Decimal(n) == Decimal(n / 1000) + Pad3(n % 1000)
  {
    ThousandsArithmetic(n);
    calc {
      Decimal(n);
      Decimal(n / 10) + [DigitChar(n % 10)];
      Decimal(n / 100) + [DigitChar(n / 10 % 10)] + [DigitChar(n % 10)];
      Decimal(n / 1000) + [DigitChar(n / 100 % 10)] + [DigitChar(n / 10 % 10)] + [DigitChar(n % 10)];
      Decimal(n / 1000) + Pad3(n % 1000);
    }
  }

  /** Removing the thousands separators of `f"{n:,}"` leaves `str(n)`. */
  lemma {:induction false} GroupedWithoutCommas(n: nat)
    ensures RemoveCommas(Grouped(n)) == Decimal(n)
    decreases n
  {
    if n >= 1000 {
      GroupedWithoutCommas(n / 1000);
      var p := Pad3(n % 1000);
      assert ',' !in p;
      RemoveCommasAppend(Grouped(n / 1000) + ",", p);
      RemoveCommasAppend(Grouped(n / 1000), ",");
      RemoveCommasOneChar(',');
      DecimalThousands(n);
    }
  }

  /** A value printed with thousands separators (`1,250`) is recorded as the number it shows. */
  lemma {:induction false} GroupedRoundTrip(n: int)
    requires |Decimal(Abs(n))| <= MaxStrDigits
    ensures ValueOf(ShowGrouped(n)) == n
  {
    GroupedWithoutCommas(Abs(n));
    if n < 0 {
      RemoveCommasAppend("-", Grouped(-n));
    }
    assert RemoveCommas(ShowGrouped(n)) == Show(n);
    ShowRoundTrip(n);
  }
}
