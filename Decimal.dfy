/**
  Decimal rendering of natural numbers, standing in for the way a JavaScript
  template literal turns a (small, non-negative, integral) number into text,
  together with its inverse.
 */
module Decimal {
  import opened Wrappers

  predicate IsDigit(c: char) {
    '0' <= c <= '9'
  }

  predicate IsDigits(s: string) {
    forall i :: 0 <= i < |s| ==> IsDigit(s[i])
  }

  /** A canonical rendering: non-empty, all digits, and no leading zero
      unless the whole text is "0". */
  predicate IsCanonical(s: string) {
    |s| > 0 && IsDigits(s) && (s[0] == '0' ==> |s| == 1)
  }

  function DigitChar(d: nat): (c: char)
    requires d < 10
    ensures IsDigit(c) && c as int - '0' as int == d
  {
    ('0' as int + d) as char
  }

  /** The shortest base-10 rendering of `n`, most significant digit first. */
  function NatToDecimal(n: nat): (s: string)
    ensures IsCanonical(s)
    ensures s[0] == '0' <==> n == 0
    decreases n
  {
    if n < 10 then [DigitChar(n)] else NatToDecimal(n / 10) + [DigitChar(n % 10)]
  }

  /** The number a string of digits denotes. */
  function DecimalValue(s: string): nat
    requires IsDigits(s)
    decreases |s|
  {
    if s == [] then 0
    else DecimalValue(s[..|s| - 1]) * 10 + (s[|s| - 1] as int - '0' as int)
  }

  /** Reads back a canonical rendering; anything else is refused. */
  function ParseDecimal(s: string): Option<nat> {
    if IsCanonical(s) then Some(DecimalValue(s)) else None
  }

  lemma {:induction false} DecimalValueOfNatToDecimal(n: nat)
    ensures DecimalValue(NatToDecimal(n)) == n
    decreases n
  {
    if n >= 10 {
      var p := NatToDecimal(n / 10);
      var s := NatToDecimal(n);
      DecimalValueOfNatToDecimal(n / 10);
      assert s == p + [DigitChar(n % 10)];
      assert s[..|s| - 1] == p;
    }
  }

  lemma {:induction false} NatToDecimalOfDecimalValue(s: string)
    requires IsCanonical(s)
    ensures NatToDecimal(DecimalValue(s)) == s
    decreases |s|
  {
    var d := s[|s| - 1] as int - '0' as int;
    if |s| == 1 {
      assert s == [DigitChar(d)];
    } else {
      var p := s[..|s| - 1];
      assert p[0] == s[0];
      NatToDecimalOfDecimalValue(p);
      var v := DecimalValue(p);
      assert v != 0;
      var n := v * 10 + d;
      assert n / 10 == v && n % 10 == d;
      assert s == p + [DigitChar(d)];
    }
  }

  /** Rendering is one-to-one: distinct numbers never share a rendering. */
  lemma NatToDecimalInjective(a: nat, b: nat)
    ensures NatToDecimal(a) == NatToDecimal(b) <==> a == b
  {
    DecimalValueOfNatToDecimal(a);
    DecimalValueOfNatToDecimal(b);
  }

  /** Parsing undoes rendering, and accepts nothing but renderings. */
  lemma ParseDecimalRoundTrip(n: nat, s: string)
    ensures ParseDecimal(NatToDecimal(n)) == Some(n)
    ensures ParseDecimal(s) == Some(n) <==> s == NatToDecimal(n)
  {
    DecimalValueOfNatToDecimal(n);
    if IsCanonical(s) {
      NatToDecimalOfDecimalValue(s);
    }
  }
}
