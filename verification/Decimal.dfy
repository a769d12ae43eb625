/** Canonical decimal notation, which KzAlgorithm/Jeaiii.h prints and KzNet/IpParser.h reads. */
module Decimal {

  predicate IsDigit(c: char) { '0' <= c <= '9' }

  function DigitValue(c: char): nat
    requires IsDigit(c)
  {
    (c - '0') as nat
  }

  function Digit(d: nat): char
    requires d < 10
  {
    '0' + d as char
  }

  /** Decimal notation without leading zeros. */
  function Dec(n: nat): string {
    if n < 10 then [Digit(n)] else Dec(n / 10) + [Digit(n % 10)]
  }

  predicate AllDigits(s: string) { forall i | 0 <= i < |s| :: IsDigit(s[i]) }

  /** The number that a string of digits stands for. */
  function ValueOf(s: string): nat
    requires AllDigits(s)
  {
    if s == [] then 0 else ValueOf(s[..|s| - 1]) * 10 + DigitValue(s[|s| - 1])
  }

  predicate Canonical(s: string) { s != [] && AllDigits(s) && (s[0] == '0' ==> |s| == 1) }

  lemma {:induction false} DecIsCanonical(n: nat)
    ensures Canonical(Dec(n)) && ValueOf(Dec(n)) == n && (n > 0 ==> Dec(n)[0] != '0')
  {
    if n >= 10 {
      DecIsCanonical(n / 10);
      assert Dec(n)[..|Dec(n)| - 1] == Dec(n / 10);
      assert DigitValue(Digit(n % 10)) == n % 10;
    }
  }

  lemma {:induction false} CanonicalIsDec(s: string)
    requires Canonical(s)
    ensures s == Dec(ValueOf(s)) && (s[0] != '0' ==> ValueOf(s) > 0)
    decreases |s|
  {
    var front, last := s[..|s| - 1], s[|s| - 1];
    assert s == front + [last] && Digit(DigitValue(last)) == last;
    if |s| > 1 {
      CanonicalIsDec(front);
      var m := ValueOf(front);
      assert (m * 10 + DigitValue(last)) / 10 == m;
    }
  }

  /** `Dec(n)` is the one string of digits without a leading zero that stands for `n`. */
  lemma DecExact(s: string, n: nat)
    ensures s == Dec(n) <==> Canonical(s) && ValueOf(s) == n
  {
    DecIsCanonical(n);
    if Canonical(s) {
      CanonicalIsDec(s);
    }
  }
}
