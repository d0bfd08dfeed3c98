/** Numbers printed in decimal. */
module Decimals {
  function Decimal(n: nat): (s: string)
    ensures s != "" && (n >= 10 ==> |s| > 1)
  {
    if n < 10 then [DIGITS[n]] else Decimal(n / 10) + [DIGITS[n % 10]]
  }

  const DIGITS: string := "0123456789"

  /** Different numbers print differently. */
  lemma {:induction false} DecimalInjective(a: nat, b: nat)
    requires Decimal(a) == Decimal(b)
    ensures a == b
  {
    var s, t := Decimal(a), Decimal(b);
    SameDigit(if a < 10 then a else a % 10, if b < 10 then b else b % 10, s[|s| - 1]);
    if a >= 10 && b >= 10 {
      assert s[..|s| - 1] == Decimal(a / 10) && t[..|t| - 1] == Decimal(b / 10);
      DecimalInjective(a / 10, b / 10);
    }
  }

  lemma SameDigit(i: nat, j: nat, c: char)
    requires i < 10 && j < 10 && DIGITS[i] == c == DIGITS[j]
    ensures i == j
  {
  }

  predicate IsNumber(s: string) {
    s != "" && forall i :: 0 <= i < |s| ==> '0' <= s[i] <= '9'
  }

  // The number that the digits stand for.
  function Value(s: string): nat
    requires s == "" || IsNumber(s)
  {
    if s == "" then 0
    else
      var n := |s| - 1;
      Value(s[..n]) * 10 + (s[n] as int - '0' as int)
  }

  /** What is printed is the number in decimal: digits only, none in front that is zero unless it is the whole, and of that
      value. */
  lemma {:induction false} DecimalReads(n: nat)
    ensures var s := Decimal(n);
            IsNumber(s) && Value(s) == n && (|s| > 1 ==> s[0] != '0')
  {
    var s := Decimal(n);
    DigitIs(n % 10);
    if n >= 10 {
      DecimalReads(n / 10);
      assert s[..|s| - 1] == Decimal(n / 10) && s[|s| - 1] == DIGITS[n % 10];
      FrontDigit(n / 10);
    } else {
      assert s[..0] == "";
    }
  }

  lemma DigitIs(d: nat)
    requires d < 10
    ensures DIGITS[d] as int == '0' as int + d && '0' <= DIGITS[d] <= '9'
  {
  }

  lemma FrontDigit(n: nat)
    requires n > 0
    ensures n < 10 ==> Decimal(n)[0] != '0'
  {
  }
}
