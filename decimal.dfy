/**
  Base-10 integer literals.

  An inline integer literal reaches the `Date` scalar as an `IntValue` node whose
  `value` is the literal's text (section 2.9.1 of the GraphQL specification,
  October 2021: an optional `-` followed by `0` or by a non-zero digit and more
  digits). `parseInt(text, 10)` turns that text into the integer it denotes.
  This module defines the lexical form, the parse, and the printer that is its
  inverse, and proves the two round trips.
 */
module Decimal {

  predicate IsDigit(c: char) {
    '0' <= c <= '9'
  }

  predicate AllDigits(s: string) {
    forall i :: 0 <= i < |s| ==> IsDigit(s[i])
  }

  /** The unsigned part of an integer literal: digits without a superfluous leading zero. */
  predicate IsNumeral(s: string) {
    |s| > 0 && AllDigits(s) && (s[0] == '0' ==> |s| == 1)
  }

  /** The lexical form of a GraphQL `IntValue`: an optional `-`, then a numeral. */
  predicate IsIntLiteral(s: string) {
    if |s| > 0 && s[0] == '-' then IsNumeral(s[1..]) else IsNumeral(s)
  }

  function DigitValue(c: char): (d: nat)
    requires IsDigit(c)
    ensures d < 10
  {
    c as int - '0' as int
  }

  function DigitChar(d: nat): (c: char)
    requires d < 10
    ensures IsDigit(c) && DigitValue(c) == d
  {
    ('0' as int + d) as char
  }

  /** The number a digit string denotes, most significant digit first. */
  function DigitsValue(s: string): nat
    requires AllDigits(s)
  {
    if s == [] then 0 else 10 * DigitsValue(s[..|s| - 1]) + DigitValue(s[|s| - 1])
  }

  /** The shortest numeral of `n`; it denotes `n`. */
  function Numeral(n: nat): (s: string)
    ensures IsNumeral(s)
    ensures DigitsValue(s) == n
  {
    if n < 10 then
      [DigitChar(n)]
    else
      var prefix := Numeral(n / 10);
      var s := prefix + [DigitChar(n % 10)];
      assert s[..|s| - 1] == prefix;
      s
  }

  /** The literal text of an integer: a `-` for negative numbers, then its numeral. */
  function IntToLiteral(n: int): (s: string)
    ensures IsIntLiteral(s)
    ensures |s| > 0 && (s[0] == '-' <==> n < 0)
  {
    if n < 0 then "-" + Numeral(-n) else Numeral(n)
  }

  /**
    `parseInt(s, 10)` on the text of an integer literal: the integer it denotes.
    Every literal but `-0` is the printed form of its value, so the value
    determines the text and the parse loses nothing.
   */
  function ParseIntLiteral(s: string): (n: int)
    requires IsIntLiteral(s)
    ensures s != "-0" ==> IntToLiteral(n) == s
    ensures n < 0 <==> s[0] == '-' && s != "-0"
  {
    if s[0] == '-' then
      NumeralCanonical(s[1..]);
      assert s == "-" + s[1..];
      -(DigitsValue(s[1..]) as int)
    else
      NumeralCanonical(s);
      DigitsValue(s)
  }

  /** A numeral whose leading digit is not zero denotes a positive number. */
  lemma {:induction false} LeadingDigitPositive(s: string)
    requires |s| > 0 && AllDigits(s) && s[0] != '0'
    ensures DigitsValue(s) > 0
  {
    if |s| > 1 {
      LeadingDigitPositive(s[..|s| - 1]);
    }
  }

  /** Numerals are canonical: printing the number a numeral denotes gives the numeral back. */
  lemma {:induction false} NumeralCanonical(s: string)
    requires IsNumeral(s)
    ensures Numeral(DigitsValue(s)) == s
  {
    if |s| > 1 {
      var prefix, last := s[..|s| - 1], s[|s| - 1];
      LeadingDigitPositive(prefix);
      NumeralCanonical(prefix);
      var v, d := DigitsValue(prefix), DigitValue(last);
      assert DigitsValue(s) == 10 * v + d;
      assert (10 * v + d) / 10 == v && (10 * v + d) % 10 == d;
      assert DigitChar(d) == last;
      assert s == prefix + [last];
    }
  }

  /** Parsing the printed form of any integer gives that integer back. */
  lemma LiteralRoundTrip(n: int)
    ensures ParseIntLiteral(IntToLiteral(n)) == n
  {
  }
}
