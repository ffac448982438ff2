/** std::to_string and std::stoi on decimal numbers. */
module Decimal {
  import opened SeqFacts

  function Digit(d: nat): char
    requires d < 10
  {
    ('0' as int + d) as char
  }

  predicate IsDigit(c: char) { '0' <= c <= '9' }

  predicate AllDigits(s: string) {
    forall i :: 0 <= i < |s| ==> IsDigit(s[i])
  }

  function Digits(n: nat): (s: string)
    ensures s != "" && AllDigits(s)
  {
    if n < 10 then [Digit(n)] else Digits(n / 10) + [Digit(n % 10)]
  }

  /** std::to_string. */
  function Text(n: int): (s: string)
    ensures s != ""
  {
    if n < 0 then "-" + Digits(-n) else Digits(n)
  }

  /** std::stoi on a string of digits. */
  function Value(s: string): nat
    requires AllDigits(s)
  {
    if s == "" then 0 else Value(s[..|s| - 1]) * 10 + (s[|s| - 1] as int - '0' as int)
  }

  lemma {:induction false} ValueOfDigits(n: nat)
    ensures Value(Digits(n)) == n
  {
    if n < 10 {
      assert Value("") == 0;
      assert Digits(n)[..0] == "";
    } else {
      ValueOfDigits(n / 10);
      Snoc(Digits(n / 10), Digit(n % 10));
    }
  }

  lemma TextSign(n: int)
    ensures Text(n)[0] == '-' <==> n < 0
  {
    assert n >= 0 ==> IsDigit(Digits(n)[0]);
  }

  /** Different numbers have different texts. */
  lemma TextInjective(a: int, b: int)
    requires Text(a) == Text(b)
    ensures a == b
  {
    TextSign(a);
    TextSign(b);
    if a < 0 {
      ConsParts('-', Digits(-a));
      ConsParts('-', Digits(-b));
      ValueOfDigits(-a);
      ValueOfDigits(-b);
    } else {
      ValueOfDigits(a);
      ValueOfDigits(b);
    }
  }

  lemma FourDigits(n: nat)
    requires n <= 9999
    ensures |Digits(n)| <= 4
  {
    assert n / 10 <= 999 && n / 10 / 10 <= 99 && n / 10 / 10 / 10 <= 9;
    assert |Digits(n / 10 / 10 / 10)| == 1;
    assert |Digits(n / 10 / 10)| <= 2;
    assert |Digits(n / 10)| <= 3;
  }

  lemma {:induction false} ValueBound(s: string)
    requires AllDigits(s) && |s| <= 4
    ensures Value(s) <= 9999
  {
    var a := |s|;
    if a > 0 {
      ValueBelow(s);
    }
  }

  function Pow10(n: nat): nat { if n == 0 then 1 else 10 * Pow10(n - 1) }

  lemma {:induction false} ValueBelow(s: string)
    requires AllDigits(s)
    ensures Value(s) < Pow10(|s|)
    ensures |s| <= 4 ==> Pow10(|s|) <= 10000
  {
    if s != "" {
      ValueBelow(s[..|s| - 1]);
    }
    assert Pow10(0) == 1 && Pow10(1) == 10 && Pow10(2) == 100 && Pow10(3) == 1000 && Pow10(4) == 10000;
  }
}
