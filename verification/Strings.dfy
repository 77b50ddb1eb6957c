/** Comparison without regard to the case of ASCII letters, and decimal numbers. */
module Strings {

  function Lower(c: char): char {
    if 'A' <= c <= 'Z' then c + 32 as char else c
  }

  predicate SameIgnoringCase(a: string, b: string) {
    |a| == |b| && forall i | 0 <= i < |a| :: Lower(a[i]) == Lower(b[i])
  }

  predicate IsDigit(c: char) {
    '0' <= c <= '9'
  }

  function DigitValue(c: char): (v: int)
    requires IsDigit(c)
    ensures 0 <= v < 10
  {
    c as int - '0' as int
  }

  function DigitsValue(s: string): (v: nat)
    requires forall i | 0 <= i < |s| :: IsDigit(s[i])
  {
    if s == "" then 0 else DigitsValue(s[..|s| - 1]) * 10 + DigitValue(s[|s| - 1])
  }

  function Digits(n: nat): (s: string)
    ensures |s| > 0
  {
    if n < 10 then [('0' as int + n) as char] else Digits(n / 10) + [('0' as int + n % 10) as char]
  }

  lemma {:induction false} DigitsAreDigits(n: nat)
    ensures forall i | 0 <= i < |Digits(n)| :: IsDigit(Digits(n)[i])
    decreases n
  {
    if n >= 10 {
      DigitsAreDigits(n / 10);
    }
  }

  lemma {:induction false} DigitsRoundTrip(n: nat)
    ensures forall i | 0 <= i < |Digits(n)| :: IsDigit(Digits(n)[i])
    ensures DigitsValue(Digits(n)) == n
    decreases n
  {
    DigitsAreDigits(n);
    var s := Digits(n);
    if n >= 10 {
      DigitsRoundTrip(n / 10);
      assert s[..|s| - 1] == Digits(n / 10);
    } else {
      assert s[..0] == "";
    }
  }
}
