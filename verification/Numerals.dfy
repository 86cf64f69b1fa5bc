/** Positional numerals: the decimal and hexadecimal texts of marks, tables and priorities. */
module Numerals {
  import opened Basics

  datatype Parsed = NotANumber | Number(value: nat)

  function DigitChar(d: nat): char
    requires d < 16
  {
    if d < 10 then '0' + d as char else 'a' + (d - 10) as char
  }

  function DigitValue(c: char): Parsed {
    if '0' <= c <= '9' then Number(c as int - '0' as int)
    else if 'a' <= c <= 'f' then Number(c as int - 'a' as int + 10)
    else NotANumber
  }

  /** The shortest numeral of n. */
  function Print(n: nat, base: nat): string
    requires base == 10 || base == 16
  {
    if n < base then [DigitChar(n)] else Print(n / base, base) + [DigitChar(n % base)]
  }

  function Parse(s: string, base: nat): Parsed
    requires base == 10 || base == 16
  {
    if s == "" then NotANumber else
      var d := DigitValue(s[|s| - 1]);
      if d.NotANumber? || d.value >= base then NotANumber
      else if |s| == 1 then d
      else match Parse(s[..|s| - 1], base)
        case NotANumber => NotANumber
        case Number(n) => Number(n * base + d.value)
  }

  function Decimal(n: nat): string {
    Print(n, 10)
  }

  function Hex(n: nat): string {
    "0x" + Print(n, 16)
  }

  /** A number as nft and `ip` read it: hexadecimal behind `0x`, decimal otherwise. */
  function ParseNumber(s: string): Parsed {
    if |s| > 2 && s[..2] == "0x" then Parse(s[2..], 16) else Parse(s, 10)
  }

  lemma DigitRoundTrip(d: nat)
    requires d < 16
    ensures DigitValue(DigitChar(d)) == Number(d)
    ensures d < 10 ==> IsDigit(DigitChar(d))
  {
  }

  lemma Euclid(n: nat, base: nat)
    requires base == 10 || base == 16
    ensures n / base * base + n % base == n
    ensures n >= base ==> n / base < n
  {
    if base == 10 {
      assert n / 10 * 10 + n % 10 == n;
    } else {
      assert n / 16 * 16 + n % 16 == n;
    }
  }

  lemma ParseSnoc(init: string, d: nat, base: nat)
    requires (base == 10 || base == 16) && d < base && init != "" && Parse(init, base).Number?
    ensures Parse(init + [DigitChar(d)], base) == Number(Parse(init, base).value * base + d)
  {
    DigitRoundTrip(d);
    assert (init + [DigitChar(d)])[..|init|] == init;
  }

  lemma {:induction false} PrintRoundTrip(n: nat, base: nat)
    requires base == 10 || base == 16
    ensures Print(n, base) != "" && Parse(Print(n, base), base) == Number(n)
    decreases n
  {
    if n >= base {
      Euclid(n, base);
      PrintRoundTrip(n / base, base);
      ParseSnoc(Print(n / base, base), n % base, base);
    } else {
      DigitRoundTrip(n);
    }
  }

  lemma {:induction false} DecimalDigits(n: nat)
    ensures forall i :: 0 <= i < |Decimal(n)| ==> IsDigit(Decimal(n)[i])
    decreases n
  {
    if n >= 10 {
      DecimalDigits(n / 10);
      DigitRoundTrip(n % 10);
      assert Decimal(n) == Decimal(n / 10) + [DigitChar(n % 10)];
    } else {
      DigitRoundTrip(n);
    }
  }

  lemma DecimalRoundTrip(n: nat)
    ensures ParseNumber(Decimal(n)) == Number(n)
    ensures Decimal(n) != "" && forall i :: 0 <= i < |Decimal(n)| ==> IsDigit(Decimal(n)[i])
  {
    PrintRoundTrip(n, 10);
    DecimalDigits(n);
    assert |Decimal(n)| > 2 ==> Decimal(n)[..2] != "0x" by {
      assert |Decimal(n)| > 2 ==> IsDigit(Decimal(n)[..2][1]);
      assert !IsDigit("0x"[1]);
    }
  }

  /** The hexadecimal text in the ruleset and the decimal text in the policy rule denote the same mark. */
  lemma {:induction false} MarkTextsAgree(mark: nat)
    ensures ParseNumber(Hex(mark)) == Number(mark) == ParseNumber(Decimal(mark))
  {
    PrintRoundTrip(mark, 16);
    DecimalRoundTrip(mark);
    assert Hex(mark)[..2] == "0x" && Hex(mark)[2..] == Print(mark, 16);
  }

  /** Integers as `%d` prints them. */
  function IntText(n: int): string {
    if n < 0 then "-" + Decimal(-n) else Decimal(n)
  }

  datatype ParsedInt = NotAnInt | Int(value: int)

  function ParseInt(s: string): ParsedInt {
    if |s| > 0 && s[0] == '-' then
      match Parse(s[1..], 10) case NotANumber => NotAnInt case Number(n) => Int(0 - (n as int))
    else
      match ParseNumber(s) case NotANumber => NotAnInt case Number(n) => Int(n)
  }

  lemma NegativeRoundTrip(n: nat)
    requires n > 0
    ensures ParseInt("-" + Decimal(n)) == Int(0 - (n as int))
    ensures forall i :: 0 <= i < |"-" + Decimal(n)| ==> IsDigit(("-" + Decimal(n))[i]) || ("-" + Decimal(n))[i] == '-'
  {
    PrintRoundTrip(n, 10);
    DecimalDigits(n);
    hide Print;
    var s := "-" + Decimal(n);
    assert s[0] == '-' && s[1..] == Decimal(n);
  }

  lemma NaturalRoundTrip(n: nat)
    ensures ParseInt(Decimal(n)) == Int(n) && Decimal(n) != ""
    ensures forall i :: 0 <= i < |Decimal(n)| ==> IsDigit(Decimal(n)[i])
  {
    DecimalRoundTrip(n);
    hide Decimal;
    hide ParseNumber;
    assert IsDigit(Decimal(n)[0]) && !IsDigit('-');
  }

  lemma {:induction false} IntRoundTrip(n: int)
    ensures ParseInt(IntText(n)) == Int(n)
    ensures IntText(n) != ""
    ensures forall i :: 0 <= i < |IntText(n)| ==> IsDigit(IntText(n)[i]) || IntText(n)[i] == '-'
  {
    hide ParseInt;
    hide Decimal;
    hide IsDigit;
    if n < 0 {
      NegativeRoundTrip(-n);
    } else {
      NaturalRoundTrip(n);
    }
  }
}
