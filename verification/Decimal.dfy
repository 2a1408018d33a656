/** Decimal text, as strconv writes and reads it. */
module Decimal {
  function DigitChar(d: nat): (c: char)
    requires d < 10
  {
    '0' + d as char
  }

  /** strconv.FormatInt(n, 10) for n >= 0. */
  function Itoa(n: nat): (s: string)
    ensures |s| > 0
  {
    if n < 10 then [DigitChar(n)] else Itoa(n / 10) + [DigitChar(n % 10)]
  }

  predicate IsDigit(c: char) {
    '0' <= c <= '9'
  }

  function DigitValue(c: char): (d: nat)
    requires IsDigit(c)
    ensures d < 10
  {
    (c - '0') as nat
  }

  predicate AllDigits(s: string) {
    forall i :: 0 <= i < |s| ==> IsDigit(s[i])
  }

  /** The number a run of digits stands for. */
  function Atoi(s: string): (n: nat)
    requires AllDigits(s)
  {
    if s == [] then 0 else 10 * Atoi(s[..|s| - 1]) + DigitValue(s[|s| - 1])
  }

  lemma {:induction false} DigitChars(d: nat)
    requires d < 10
    ensures IsDigit(DigitChar(d)) && DigitValue(DigitChar(d)) == d && (DigitChar(d) == '0' <==> d == 0)
  {
  }

  lemma {:induction false} AppendDigit(s: string, c: char)
    requires AllDigits(s) && IsDigit(c)
    ensures AllDigits(s + [c]) && Atoi(s + [c]) == 10 * Atoi(s) + DigitValue(c)
  {
    assert (s + [c])[..|s + [c]| - 1] == s;
  }

  /** Printed numbers are digits, read back as themselves, and lead with zero only for zero. */
  lemma {:induction false} ItoaRoundTrip(n: nat)
    ensures AllDigits(Itoa(n)) && Atoi(Itoa(n)) == n
    ensures Itoa(n)[0] == '0' <==> n == 0
    ensures n == 0 ==> |Itoa(n)| == 1
  {
    hide DigitChar, IsDigit, DigitValue;
    DigitChars(n % 10);
    if n < 10 {
      AppendDigit([], DigitChar(n));
      assert [] + [DigitChar(n)] == [DigitChar(n)];
    } else {
      ItoaRoundTrip(n / 10);
      AppendDigit(Itoa(n / 10), DigitChar(n % 10));
    }
  }

  /** Digits without a leading zero are how their number is printed. */
  lemma {:induction false} AtoiRoundTrip(s: string)
    requires s != "" && AllDigits(s) && (|s| > 1 ==> s[0] != '0')
    ensures Itoa(Atoi(s)) == s && (s[0] != '0' ==> Atoi(s) > 0)
  {
    hide IsDigit, DigitValue, DigitChar;
    var front, c := s[..|s| - 1], s[|s| - 1];
    assert s == front + [c];
    ValueOfDigit(c);
    if front != "" {
      AtoiRoundTrip(front);
      assert Atoi(s) / 10 == Atoi(front) && Atoi(s) % 10 == DigitValue(c);
    }
  }

  lemma {:induction false} ValueOfDigit(c: char)
    requires IsDigit(c)
    ensures DigitChar(DigitValue(c)) == c && (DigitValue(c) == 0 <==> c == '0')
  {
  }

  function Pow10(k: nat): (p: nat) {
    if k == 0 then 1 else 10 * Pow10(k - 1)
  }

  lemma {:induction false} ItoaLength(n: nat, k: nat)
    requires n < Pow10(k) && k > 0
    ensures |Itoa(n)| <= k
  {
    if n >= 10 {
      ItoaLength(n / 10, k - 1);
    }
  }
}
