// Decimal text, as std::to_string writes it.
module Decimal {

  predicate IsDigit(c: char) { '0' <= c <= '9' }

  function Digit(d: nat): (c: char)
    requires d < 10
    ensures IsDigit(c)
  {
    ['0', '1', '2', '3', '4', '5', '6', '7', '8', '9'][d]
  }

  function DigitValue(c: char): (d: nat)
    requires IsDigit(c)
    ensures d < 10
  {
    (c - '0') as nat
  }

  function Text(n: nat): string {
    if n < 10 then [Digit(n)] else Text(n / 10) + [Digit(n % 10)]
  }

  function IntText(n: int): string {
    if n < 0 then "-" + Text(-n) else Text(n)
  }

  predicate AllDigits(s: string) { forall i | 0 <= i < |s| :: IsDigit(s[i]) }

  function Value(s: string): nat
    requires AllDigits(s)
  {
    if s == [] then 0 else 10 * Value(s[..|s| - 1]) + DigitValue(s[|s| - 1])
  }

  // The ten digit characters with their values, and no others.
  lemma DigitsAre(d: nat, c: char)
    requires d < 10
    ensures Digit(d) == c <==> c == "0123456789"[d]
    ensures IsDigit(c) ==> (DigitValue(c) == d <==> c == "0123456789"[d])
  {
  }

  lemma DigitRoundTrip(d: nat)
    requires d < 10
    ensures DigitValue(Digit(d)) == d
  {
  }

  lemma {:induction false} TextDigits(n: nat)
    ensures Text(n) != [] && AllDigits(Text(n))
  {
    if n >= 10 {
      TextDigits(n / 10);
    }
  }

  lemma {:induction false} TextValue(n: nat)
    ensures AllDigits(Text(n)) && Value(Text(n)) == n
  {
    TextDigits(n);
    var s := Text(n);
    if n >= 10 {
      TextValue(n / 10);
      DigitRoundTrip(n % 10);
      assert s[..|s| - 1] == Text(n / 10);
    } else {
      DigitRoundTrip(n);
      assert s[..|s| - 1] == [];
    }
  }

  lemma TextInjective(m: nat, n: nat)
    requires Text(m) == Text(n)
    ensures m == n
  {
    TextValue(m);
    TextValue(n);
  }

  lemma IntTextChars(n: int)
    ensures IntText(n) != [] && forall i | 0 <= i < |IntText(n)| :: IsDigit(IntText(n)[i]) || IntText(n)[i] == '-'
  {
    TextDigits(if n < 0 then -n else n);
  }
}
