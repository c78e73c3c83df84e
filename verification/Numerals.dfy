/** Decimal digits of natural numbers. */
module Numerals {
  predicate IsDigit(c: char) { '0' <= c <= '9' }

  predicate AllDigits(s: string) { forall i :: 0 <= i < |s| ==> IsDigit(s[i]) }

  function DigitOf(n: nat): (c: char)
    requires n < 10
    ensures IsDigit(c) && c as int - '0' as int == n
  {
    '0' + n as char
  }

  // The number a digit string denotes.
  function Val(s: string): nat
    requires AllDigits(s)
  {
    if s == "" then 0 else Val(s[..|s|-1]) * 10 + (s[|s|-1] as int - '0' as int)
  }

  // strconv.FormatInt for a natural number.
  function Digits(n: nat): (s: string)
    ensures s != ""
  {
    if n < 10 then [DigitOf(n)] else Digits(n / 10) + [DigitOf(n % 10)]
  }

  lemma {:induction false} DigitsVal(n: nat)
    ensures AllDigits(Digits(n)) && Val(Digits(n)) == n
    ensures |Digits(n)| > 1 ==> Digits(n)[0] != '0'
  {
    if n < 10 {
      assert [DigitOf(n)][..0] == "";
    } else {
      var p := Digits(n / 10);
      DigitsVal(n / 10);
      assert (p + [DigitOf(n % 10)])[..|p|] == p;
      assert |p| == 1 ==> p[..|p|-1] == "";
    }
  }

  // Different numbers have different digits.
  lemma DigitsInjective(m: nat, n: nat)
    requires Digits(m) == Digits(n)
    ensures m == n
  {
    DigitsVal(m);
    DigitsVal(n);
  }

  function Pow10(n: nat): (p: nat)
    ensures p >= 1
  {
    if n == 0 then 1 else 10 * Pow10(n - 1)
  }
}
