/** Decimal numerals, as Go's "%d" verb prints them and as a terminal or a version parser reads them. */
module Decimal {
  predicate IsDigit(c: char) {
    '0' <= c <= '9'
  }

  predicate AllDigits(s: string) {
    forall i :: 0 <= i < |s| ==> IsDigit(s[i])
  }

  function DigitChar(d: nat): (c: char)
    requires d < 10
    ensures IsDigit(c) && c as int - '0' as int == d
  {
    (d + '0' as int) as char
  }

  /** The numeral of n, without leading zeros. */
  function Print(n: nat): (s: string)
    ensures |s| > 0 && AllDigits(s)
  {
    if n < 10 then [DigitChar(n)] else Print(n / 10) + [DigitChar(n % 10)]
  }

  /** The value of a digit string; leading zeros are allowed and "" is 0. */
  function Value(s: string): nat
    requires AllDigits(s)
  {
    if s == "" then 0 else 10 * Value(s[..|s| - 1]) + (s[|s| - 1] as int - '0' as int)
  }

  lemma {:induction false} ValueOfPrint(n: nat)
    ensures Value(Print(n)) == n
  {
    if n >= 10 {
      ValueOfPrint(n / 10);
      assert Print(n)[..|Print(n)| - 1] == Print(n / 10);
    } else {
      assert Print(n)[..0] == "";
    }
  }

  function Pow10(n: nat): nat {
    if n == 0 then 1 else 10 * Pow10(n - 1)
  }

  /** Numerals are positional, the most significant digit first. */
  lemma {:induction false} ValueIsPositional(a: string, b: string)
    requires AllDigits(a) && AllDigits(b)
    ensures Value(a + b) == Value(a) * Pow10(|b|) + Value(b)
    decreases |b|
  {
    if b == "" {
      assert a + b == a;
    } else {
      var before := b[..|b| - 1];
      assert (a + b)[..|a + b| - 1] == a + before;
      ValueIsPositional(a, before);
      assert 10 * (Value(a) * Pow10(|before|)) == Value(a) * (10 * Pow10(|before|));
    }
  }

  lemma DigitValue(c: char)
    requires IsDigit(c)
    ensures Value([c]) == c as int - '0' as int
  {
    assert [c][..0] == "";
  }

  /** A printed number has no leading zero. */
  lemma {:induction false} PrintIsCanonical(n: nat)
    requires n > 0
    ensures Print(n)[0] != '0'
  {
    if n < 10 {
    } else {
      PrintIsCanonical(n / 10);
    }
  }
}
