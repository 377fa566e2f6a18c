/** Decimal digits of a number, as Go's %d prints them. */
module Decimal {
  predicate IsDigit(c: char) {
    '0' <= c <= '9'
  }

  function DigitChar(d: nat): char
    requires d < 10
  {
    '0' + d as char
  }

  function DigitValue(c: char): nat
    requires IsDigit(c)
  {
    c as nat - '0' as nat
  }

  function Digits(n: nat): (s: string)
    ensures s != [] && forall i :: 0 <= i < |s| ==> IsDigit(s[i])
  {
    if n < 10 then [DigitChar(n)] else Digits(n / 10) + [DigitChar(n % 10)]
  }

  function Value(s: string): nat
    requires forall i :: 0 <= i < |s| ==> IsDigit(s[i])
  {
    if s == [] then 0 else 10 * Value(s[..|s| - 1]) + DigitValue(s[|s| - 1])
  }

  // No number but 0 begins with a 0.
  lemma {:induction false} NoLeadingZero(n: nat)
    ensures Digits(n)[0] == '0' <==> n == 0
  {
    if n >= 10 {
      NoLeadingZero(n / 10);
    }
  }

  // Reading the digits back gives the number.
  lemma {:induction false} ValueOfDigits(n: nat)
    ensures Value(Digits(n)) == n
  {
    var s := Digits(n);
    if n >= 10 {
      ValueOfDigits(n / 10);
      assert s[..|s| - 1] == Digits(n / 10);
    } else {
      assert s[..|s| - 1] == [];
    }
  }

  /** A name, a separator that is no digit, and a number: no two of these print alike. */
  lemma SuffixInjective(a: string, b: string, sep: char, m: nat, n: nat)
    requires !IsDigit(sep)
    requires a + [sep] + Digits(m) == b + [sep] + Digits(n)
    ensures a == b && m == n
  {
    var s, t := a + [sep] + Digits(m), b + [sep] + Digits(n);
    assert s[|a|] == sep && t[|b|] == sep;
    assert forall i :: |a| < i < |s| ==> s[i] == Digits(m)[i - |a| - 1];
    assert forall i :: |b| < i < |t| ==> t[i] == Digits(n)[i - |b| - 1];
    assert |a| == |b|;
    assert a == s[..|a|] == t[..|a|] == b;
    assert Digits(m) == s[|a| + 1..] == t[|a| + 1..] == Digits(n);
    ValueOfDigits(m);
    ValueOfDigits(n);
  }
}
