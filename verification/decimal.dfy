/** Decimal numerals without leading zeros. */
module Decimal {
  predicate IsDigit(c: char) { '0' <= c <= '9' }

  predicate AllDigits(s: string) {
    forall k :: 0 <= k < |s| ==> IsDigit(s[k])
  }

  function DigitOf(c: char): (d: nat)
    requires IsDigit(c)
  {
    c as int - '0' as int
  }

  function CharOf(d: nat): (c: char)
    requires d < 10
    ensures IsDigit(c) && DigitOf(c) == d
  {
    ('0' as int + d) as char
  }

  function Digits(n: nat): (s: string)
    ensures s != [] && AllDigits(s)
    ensures s[0] == '0' <==> n == 0
  {
    if n < 10 then [CharOf(n)] else Digits(n / 10) + [CharOf(n % 10)]
  }

  function Value(s: string, base: nat): nat
    requires AllDigits(s)
  {
    if s == [] then 0 else base * Value(s[..|s| - 1], base) + DigitOf(s[|s| - 1])
  }

  function Power(k: nat): (p: nat)
    ensures p > 0
  {
    if k == 0 then 1 else 10 * Power(k - 1)
  }

  lemma {:induction false} DigitsRoundTrip(n: nat)
    ensures Value(Digits(n), 10) == n
  {
    if n < 10 {
      assert Digits(n)[..0] == [];
    } else {
      DigitsRoundTrip(n / 10);
      assert Digits(n)[..|Digits(n)| - 1] == Digits(n / 10);
    }
  }

  lemma {:induction false} DigitsLength(n: nat, k: nat)
    requires k > 0
    ensures |Digits(n)| <= k <==> n < Power(k)
  {
    if k == 1 {
      assert Power(1) == 10 * Power(0);
    } else if n >= 10 {
      DigitsLength(n / 10, k - 1);
    } else {
      assert Power(k) == 10 * Power(k - 1) && Power(k - 1) > 0;
    }
  }

  lemma {:induction false} LeadingDigit(c: char, s: string)
    requires IsDigit(c) && AllDigits(s)
    ensures Value([c] + s, 10) == (c as int - 48) * Power(|s|) + Value(s, 10)
  {
    var all := [c] + s;
    if s == "" {
      assert all[..0] == [];
      assert Power(0) == 1;
    } else {
      var front := s[..|s| - 1];
      assert all[..|all| - 1] == [c] + front;
      LeadingDigit(c, front);
      var d, p := c as int - 48, Power(|front|);
      assert Power(|s|) == 10 * p;
      assert 10 * (d * p) == d * (10 * p);
    }
  }
}
