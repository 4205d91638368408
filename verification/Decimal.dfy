/** Decimal numerals, as printf's %d writes them and a decimal parser reads them. */
module Decimal {

  predicate IsDigit(c: char) { '0' <= c <= '9' }

  function DigitChar(d: nat): (c: char)
    requires d < 10
    ensures IsDigit(c)
  {
    '0' + d as char
  }

  function Digits(n: nat): (s: string)
    ensures |s| >= 1 && forall k :: 0 <= k < |s| ==> IsDigit(s[k])
  {
    if n < 10 then [DigitChar(n)] else Digits(n / 10) + [DigitChar(n % 10)]
  }

  /** The value of a string of digits, most significant first. */
  function Value(s: string): nat
    requires forall k :: 0 <= k < |s| ==> IsDigit(s[k])
  {
    if s == [] then 0
    else
      assert IsDigit(s[|s| - 1]);
      10 * Value(s[..|s| - 1]) + (s[|s| - 1] as int - '0' as int)
  }

  function Pow10(w: nat): (p: nat)
    ensures p >= 1
  {
    if w == 0 then 1 else 10 * Pow10(w - 1)
  }

  lemma {:induction false} ValueOfDigits(n: nat)
    ensures Value(Digits(n)) == n
  {
    if n >= 10 {
      ValueOfDigits(n / 10);
      assert Digits(n)[..|Digits(n)| - 1] == Digits(n / 10);
    }
  }

  lemma DigitsInjective(m: nat, n: nat)
    ensures Digits(m) == Digits(n) <==> m == n
  {
    ValueOfDigits(m);
    ValueOfDigits(n);
  }

  lemma {:induction false} DigitsLength(n: nat, w: nat)
    requires w >= 1
    ensures |Digits(n)| <= w <==> n < Pow10(w)
  {
    if w == 1 {
      assert Pow10(1) == 10 * Pow10(0);
    } else if n >= 10 {
      DigitsLength(n / 10, w - 1);
    } else {
      PowAtLeastTen(w);
    }
  }

  lemma {:induction false} PowAtLeastTen(w: nat)
    requires w >= 1
    ensures Pow10(w) >= 10
  {
    if w > 1 { PowAtLeastTen(w - 1); }
  }
}
