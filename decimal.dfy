/** Decimal text of integers: the digit runs the scanner reads as numbers, the
    integer words of the lexeme list, and the text the machine prints. */
module Decimal {

  predicate IsDigit(c: char) {
    '0' <= c <= '9'
  }

  predicate AllDigits(s: string) {
    forall i :: 0 <= i < |s| ==> IsDigit(s[i])
  }

  function DigitValue(c: char): nat
    requires IsDigit(c)
  {
    c as int - '0' as int
  }

  function DigitChar(d: nat): char
    requires d < 10
  {
    ('0' as int + d) as char
  }

  /** The value `%d` reads from a run of decimal digits. */
  function DigitsValue(s: string): nat
    requires AllDigits(s)
  {
    if s == [] then 0 else 10 * DigitsValue(s[..|s| - 1]) + DigitValue(s[|s| - 1])
  }

  /** The decimal digits of n, most significant first. */
  function NatDigits(n: nat): (s: string)
    ensures 1 <= |s| && AllDigits(s)
    ensures s[0] == '0' <==> n == 0
  {
    if n < 10 then [DigitChar(n)] else NatDigits(n / 10) + [DigitChar(n % 10)]
  }

  /** Decimal text of an integer: "0", or digits without leading zeros, with '-' in front
      of a negative number. */
  function DecimalText(n: int): string {
    if n < 0 then ['-'] + NatDigits(-n) else NatDigits(n)
  }

  /** Reading back the digits of n gives n. */
  lemma {:induction false} DigitsValueOfNatDigits(n: nat)
    ensures DigitsValue(NatDigits(n)) == n
  {
    var s := NatDigits(n);
    if n >= 10 {
      DigitsValueOfNatDigits(n / 10);
      assert s[..|s| - 1] == NatDigits(n / 10);
    }
  }

  lemma {:induction false} DigitsValuePositive(s: string)
    requires AllDigits(s) && s != [] && s[0] != '0'
    ensures DigitsValue(s) >= 1
  {
    if |s| > 1 {
      DigitsValuePositive(s[..|s| - 1]);
    }
  }

  /** A digit run without a leading zero is the decimal text of its own value. */
  lemma {:induction false} NatDigitsOfDigitsValue(s: string)
    requires AllDigits(s) && s != [] && (s[0] != '0' || |s| == 1)
    ensures NatDigits(DigitsValue(s)) == s
  {
    var n := DigitsValue(s);
    var t, d := s[..|s| - 1], s[|s| - 1];
    if |s| == 1 {
      assert t == [] && DigitsValue(t) == 0;
      assert n == DigitValue(d);
      assert DigitChar(n) == d;
    } else {
      DigitsValuePositive(t);
      NatDigitsOfDigitsValue(t);
      assert n / 10 == DigitsValue(t) && n % 10 == DigitValue(d);
      assert s == t + [d];
    }
  }
}
