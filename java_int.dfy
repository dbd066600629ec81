/**
 * Java's 32-bit `int`, its `+ 1` with two's-complement wrap-around, and the two
 * conversions between `int` and decimal text that the store relies on:
 * `Integer.parseInt` (operands of SET and DELVALUE) and `Integer.toString`
 * (what `System.out.println` writes for a value or a count).
 */
module JavaInt {
  import opened Optional

  const MIN_VALUE: int := -0x8000_0000
  const MAX_VALUE: int := 0x7fff_ffff

  newtype int32 = x: int | -0x8000_0000 <= x <= 0x7fff_ffff

  /** `x + 1` on a Java `int`: congruent to the mathematical successor modulo 2^32. */
  function Succ(x: int32): (r: int32)
    ensures (r as int - x as int - 1) % 0x1_0000_0000 == 0
    ensures x as int < MAX_VALUE ==> r as int == x as int + 1
    ensures x as int == MAX_VALUE ==> r as int == MIN_VALUE
  {
    if x == 0x7fff_ffff then -0x8000_0000 else x + 1
  }

  predicate IsDigit(c: char) {
    '0' <= c <= '9'
  }

  predicate AllDigits(s: string) {
    forall i :: 0 <= i < |s| ==> IsDigit(s[i])
  }

  function DigitValue(c: char): nat
    requires IsDigit(c)
  {
    c as int - '0' as int
  }

  function DigitChar(d: nat): (c: char)
    requires d < 10
    ensures IsDigit(c) && DigitValue(c) == d
  {
    ('0' as int + d) as char
  }

  /** The number a string of decimal digits denotes (leading zeros allowed). */
  function DigitsValue(s: string): nat
    requires AllDigits(s)
  {
    if s == [] then 0 else DigitsValue(s[..|s| - 1]) * 10 + DigitValue(s[|s| - 1])
  }

  /** Decimal digits as `Integer.toString` writes them: at least one, no leading zero unless the number is 0. */
  predicate Canonical(s: string) {
    |s| > 0 && AllDigits(s) && (|s| > 1 ==> s[0] != '0')
  }

  /** Canonical text of an `int`: the canonical digits, preceded by '-' exactly when negative ("-0" excluded). */
  predicate SignedCanonical(s: string) {
    Canonical(s) || (|s| > 1 && s[0] == '-' && Canonical(s[1..]) && s[1..] != "0")
  }

  /** Canonical decimal text of a natural number. */
  function NatToDecimal(n: nat): (s: string)
    ensures Canonical(s)
    ensures s[0] == '0' <==> n == 0
  {
    if n < 10 then [DigitChar(n)] else NatToDecimal(n / 10) + [DigitChar(n % 10)]
  }

  lemma {:induction false} DecimalRoundTrip(n: nat)
    ensures DigitsValue(NatToDecimal(n)) == n
  {
    var s := NatToDecimal(n);
    if n >= 10 {
      DecimalRoundTrip(n / 10);
      assert s[..|s| - 1] == NatToDecimal(n / 10);
    }
  }

  /**
   * `Integer.parseInt(s)`: an optional leading '-' or '+', then at least one
   * decimal digit, and the value must fit in 32 bits; anything else is a
   * NumberFormatException, modelled as None.
   */
  function ParseInt(s: string): (r: Option<int32>)
    ensures r.Some? ==> |s| > 0 && (s[0] == '-' || s[0] == '+' || IsDigit(s[0]))
    ensures s == "" || s == "-" || s == "+" ==> r.None?
    ensures |s| > 0 && AllDigits(s) && DigitsValue(s) <= MAX_VALUE ==> r == Some(DigitsValue(s) as int32)
    ensures |s| > 0 && AllDigits(s) && DigitsValue(s) > MAX_VALUE ==> r.None?
    ensures r.Some? ==>
              var d := if s[0] == '-' || s[0] == '+' then s[1..] else s;
              |d| > 0 && AllDigits(d) &&
              r.value as int == if s[0] == '-' then -(DigitsValue(d) as int) else DigitsValue(d)
    ensures |s| > 0 ==>
              var d := if s[0] == '-' || s[0] == '+' then s[1..] else s;
              |d| > 0 && AllDigits(d) &&
              MIN_VALUE <= (if s[0] == '-' then -(DigitsValue(d) as int) else DigitsValue(d)) <= MAX_VALUE
              ==> r.Some?
  {
    if |s| == 0 then None
    else
      var negative := s[0] == '-';
      var digits := if s[0] == '-' || s[0] == '+' then s[1..] else s;
      if |digits| == 0 || !AllDigits(digits) then None
      else
        var magnitude: int := DigitsValue(digits);
        var v := if negative then -magnitude else magnitude;
        if MIN_VALUE <= v <= MAX_VALUE then Some(v as int32) else None
  }

  /** `Integer.toString(x)`: a minus sign for negatives, then the canonical digits. */
  function ToDecimal(x: int32): (s: string)
    ensures ParseInt(s) == Some(x)
    ensures SignedCanonical(s)
    ensures s[0] == '-' <==> x < 0
  {
    if x < 0 then
      DecimalRoundTrip(-(x as int));
      var s := "-" + NatToDecimal(-(x as int));
      assert s[1..] == NatToDecimal(-(x as int));
      s
    else
      DecimalRoundTrip(x as int);
      NatToDecimal(x as int)
  }

  /** A string of digits that begins with a non-zero digit denotes a positive number. */
  lemma {:induction false} LeadingDigitPositive(s: string)
    requires |s| > 0 && AllDigits(s) && s[0] != '0'
    ensures DigitsValue(s) > 0
  {
    if |s| > 1 {
      LeadingDigitPositive(s[..|s| - 1]);
    }
  }

  /** Canonical digit strings are exactly the outputs of NatToDecimal: one text per number. */
  lemma {:induction false} CanonicalIsNatToDecimal(s: string)
    requires Canonical(s)
    ensures s == NatToDecimal(DigitsValue(s))
  {
    var init, c := s[..|s| - 1], s[|s| - 1];
    if |s| > 1 {
      assert init[0] == s[0];
      LeadingDigitPositive(init);
      CanonicalIsNatToDecimal(init);
      assert s == init + [c];
    } else {
      assert s == [c];
    }
  }

  /** ToDecimal is the only canonical text that reads back as `x`: the exact `Integer.toString` output. */
  lemma ToDecimalIsUnique(x: int32, s: string)
    requires SignedCanonical(s) && ParseInt(s) == Some(x)
    ensures s == ToDecimal(x)
  {
    if Canonical(s) {
      CanonicalIsNatToDecimal(s);
    } else {
      CanonicalIsNatToDecimal(s[1..]);
      assert s == "-" + s[1..];
    }
  }
}
