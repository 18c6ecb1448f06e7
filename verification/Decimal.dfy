/** Decimal notation of numbers. */
module Decimal {
  const Digits: string := "0123456789"

  // Decimal notation.
  function ItoaNat(n: nat): (s: string)
    ensures s != [] && forall i :: 0 <= i < |s| ==> '0' <= s[i] <= '9'
  {
    if n < 10 then [Digits[n]] else ItoaNat(n / 10) + [Digits[n % 10]]
  }

  lemma {:induction false} ItoaNatInjective(m: nat, n: nat)
    requires ItoaNat(m) == ItoaNat(n)
    ensures m == n
  {
    var s := ItoaNat(m);
    DigitsDiffer(m % 10, n % 10);
    if m < 10 && n < 10 {
      assert s[0] == Digits[m] == Digits[n];
    } else if m >= 10 && n >= 10 {
      assert s[..|s| - 1] == ItoaNat(m / 10) == ItoaNat(n / 10);
      assert s[|s| - 1] == Digits[m % 10] == Digits[n % 10];
      ItoaNatInjective(m / 10, n / 10);
    } else {
      LongNumbersAreLong(m);
      LongNumbersAreLong(n);
    }
  }

  lemma LongNumbersAreLong(n: nat)
    ensures n < 10 <==> |ItoaNat(n)| == 1
  {
  }

  lemma DigitsDiffer(a: nat, b: nat)
    requires a < 10 && b < 10
    ensures Digits[a] == Digits[b] ==> a == b
  {
  }

  function Pow10(d: nat): (p: nat)
    ensures p > 0
  {
    if d == 0 then 1 else 10 * Pow10(d - 1)
  }

  // A positive number has d digits exactly when it lies between the d-th powers of ten.
  lemma {:induction false} DigitCount(n: nat, d: nat)
    requires n > 0 && d > 0
    ensures |ItoaNat(n)| == d <==> Pow10(d - 1) <= n < Pow10(d)
    decreases n
  {
    if n >= 10 {
      if d > 1 {
        DigitCount(n / 10, d - 1);
      } else {
        LongNumbersAreLong(n);
      }
    } else if d > 1 {
      PowersGrow(1, d - 1);
    }
  }

  lemma {:induction false} PowersGrow(c: nat, d: nat)
    requires c <= d
    ensures Pow10(c) <= Pow10(d)
    decreases d
  {
    if c < d {
      PowersGrow(c, d - 1);
    }
  }
}
