/** `str(n)` and `int(s)` for non-negative numbers in ASCII digits. */
module Decimal {

  predicate IsDigit(c: char) { '0' <= c <= '9' }

  predicate AllDigits(s: string) { forall i :: 0 <= i < |s| ==> IsDigit(s[i]) }

  function Value(c: char): nat
    requires IsDigit(c)
  {
    (c as int) - ('0' as int)
  }

  function Digit(d: nat): char
    requires d < 10
  {
    ((('0' as int) + d) as char)
  }

  function Digits(n: nat): string {
    if n < 10 then [Digit(n)] else Digits(n / 10) + [Digit(n % 10)]
  }

  function ParseDigits(s: string): nat
    requires AllDigits(s)
  {
    if s == [] then 0 else 10 * ParseDigits(s[..|s|-1]) + Value(s[|s|-1])
  }

  /** Digit by digit, with the digits written out. */
  lemma DigitsMean(s: string, d: nat)
    requires AllDigits(s) && d < 10
    ensures var digit := "0123456789"[d];
            && Digits(d) == [digit] && AllDigits(s + [digit])
            && ParseDigits(s + [digit]) == 10 * ParseDigits(s) + d
  {
    assert forall k :: 0 <= k < 10 ==> "0123456789"[k] as int == 48 + k;
    assert Digits(d) == ["0123456789"[d]];
    assert (s + ["0123456789"[d]])[..|s|] == s;
  }

  lemma {:induction false} ParseUndoesDigits(n: nat)
    ensures |Digits(n)| > 0 && AllDigits(Digits(n)) && ParseDigits(Digits(n)) == n
  {
    if n >= 10 {
      ParseUndoesDigits(n / 10);
      assert Digits(n)[..|Digits(n)|-1] == Digits(n / 10);
    }
  }

  /** The number of digits fits a cap exactly when the number stays below the power of ten. */
  function PowerOfTen(k: nat): nat {
    if k == 0 then 1 else 10 * PowerOfTen(k - 1)
  }

  lemma {:induction false} DigitsFit(n: nat, k: nat)
    requires 0 < k && n < PowerOfTen(k)
    ensures |Digits(n)| <= k
  {
    if n >= 10 {
      assert PowerOfTen(k) == 10 * PowerOfTen(k - 1);
      assert k > 1;
      DigitsFit(n / 10, k - 1);
    }
  }
}
