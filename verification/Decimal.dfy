/** Decimal numerals: what `%d` prints, and the value of a string of digits. */
module Decimal {

  function Digit(c: char): int { c as int - '0' as int }

  function Pow10(k: nat): int { if k == 0 then 1 else 10 * Pow10(k - 1) }

  /** The exact value of a string read as decimal digits; other characters count as their distance from '0'. */
  function Eval(s: string): int {
    if s == "" then 0 else Digit(s[0]) * Pow10(|s| - 1) + Eval(s[1..])
  }

  function ShowNat(n: nat): string {
    if n < 10 then ['0' + n as char] else ShowNat(n / 10) + ['0' + (n % 10) as char]
  }

  function Show(x: int): string { if x < 0 then "-" + ShowNat(-x) else ShowNat(x) }

  lemma {:induction false} EvalSnoc(s: string, c: char)
    ensures Eval(s + [c]) == 10 * Eval(s) + Digit(c)
  {
    if s == "" {
      assert [c][1..] == "";
    } else {
      EvalSnoc(s[1..], c);
      assert (s + [c])[1..] == s[1..] + [c];
      assert Digit(s[0]) * Pow10(|s|) == 10 * (Digit(s[0]) * Pow10(|s| - 1));
    }
  }

  lemma {:induction false} EvalShow(n: nat)
    ensures Eval(ShowNat(n)) == n && ShowNat(n) != "" && ShowNat(n)[0] != '-'
  {
    if n < 10 {
      EvalSnoc("", '0' + n as char);
      assert "" + ['0' + n as char] == ['0' + n as char];
    } else {
      EvalShow(n / 10);
      EvalSnoc(ShowNat(n / 10), '0' + (n % 10) as char);
    }
  }

  predicate IsDigit(c: char) { '0' <= c <= '9' }

  predicate AllDigits(s: string) { forall i :: 0 <= i < |s| ==> IsDigit(s[i]) }

  /** A numeral consists of digits, and its length tells the size of the number. */
  lemma {:induction false} ShowDigits(n: nat)
    ensures AllDigits(ShowNat(n)) && |ShowNat(n)| >= 1
    ensures (|ShowNat(n)| >= 4 <==> n >= 1000) && (|ShowNat(n)| >= 5 <==> n >= 10000)
    ensures |ShowNat(n)| >= 3 <==> n >= 100
    ensures |ShowNat(n)| >= 2 <==> n >= 10
  {
    if n >= 10 {
      ShowDigits(n / 10);
    }
  }

  lemma {:induction false} EvalBound(s: string)
    requires AllDigits(s)
    ensures 0 <= Eval(s) < Pow10(|s|)
  {
    if s != "" {
      EvalBound(s[1..]);
      assert 0 <= Digit(s[0]) <= 9;
      assert Digit(s[0]) * Pow10(|s| - 1) <= 9 * Pow10(|s| - 1);
    }
  }
}
