/** Decimal numerals: printing, reading, and that reading undoes printing. */
module Decimal {
  predicate IsDigit(c: char) { '0' <= c <= '9' }

  predicate AllDigits(s: string) { forall c | c in s :: IsDigit(c) }

  function DigitOf(d: nat): char
    requires d < 10
  {
    '0' + d as char
  }

  function ValueOf(c: char): nat
    requires IsDigit(c)
  {
    (c - '0') as nat
  }

  /** The numeral of n without leading zeros. */
  function Print(n: nat): (s: string)
    ensures s != [] && AllDigits(s)
  {
    if n < 10 then [DigitOf(n)] else Print(n / 10) + [DigitOf(n % 10)]
  }

  function PrintSigned(n: int): string {
    if n < 0 then "-" + Print(-n) else Print(n)
  }

  function Pow10(w: nat): nat {
    if w == 0 then 1 else 10 * Pow10(w - 1)
  }

  /** The numeral of n with exactly w digits. */
  function PrintFixed(n: nat, w: nat): (s: string)
    requires n < Pow10(w)
    ensures |s| == w && AllDigits(s)
  {
    if w == 0 then [] else PrintFixed(n / 10, w - 1) + [DigitOf(n % 10)]
  }

  function Value(s: string): nat
    requires AllDigits(s)
  {
    if s == [] then 0
    else
      assert forall c | c in s[..|s| - 1] :: c in s;
      10 * Value(s[..|s| - 1]) + ValueOf(s[|s| - 1])
  }

  /** Each further digit counts ten times what stands before it. */
  lemma ValueOfDigits(s: string, d: nat)
    requires AllDigits(s) && d < 10
    ensures Value("") == 0
    ensures AllDigits(s + ["0123456789"[d]]) && Value(s + ["0123456789"[d]]) == 10 * Value(s) + d
  {
    assert (s + ["0123456789"[d]])[..|s|] == s;
  }

  lemma {:induction false} ValueOfPrint(n: nat)
    ensures Value(Print(n)) == n
  {
    if n >= 10 {
      ValueOfPrint(n / 10);
      assert Print(n)[..|Print(n)| - 1] == Print(n / 10);
    }
  }

  lemma {:induction false} ValueOfPrintFixed(n: nat, w: nat)
    requires n < Pow10(w)
    ensures Value(PrintFixed(n, w)) == n
  {
    if w > 0 {
      ValueOfPrintFixed(n / 10, w - 1);
      assert PrintFixed(n, w)[..w - 1] == PrintFixed(n / 10, w - 1);
    }
  }

  /** The length of the longest prefix of digits. */
  function DigitRun(s: string): (n: nat)
    ensures n <= |s| && AllDigits(s[..n])
    ensures n < |s| ==> !IsDigit(s[n])
  {
    if s == [] || !IsDigit(s[0]) then 0
    else
      var n := DigitRun(s[1..]);
      assert s[..n + 1] == [s[0]] + s[1..][..n];
      n + 1
  }

  lemma {:induction false} DigitRunIs(digits: string, rest: string)
    requires AllDigits(digits) && (rest != [] ==> !IsDigit(rest[0]))
    ensures DigitRun(digits + rest) == |digits|
  {
    if digits == [] {
      assert digits + rest == rest;
    } else {
      assert forall c | c in digits[1..] :: c in digits;
      assert digits[0] in digits;
      DigitRunIs(digits[1..], rest);
      assert (digits + rest)[1..] == digits[1..] + rest;
    }
  }
}
