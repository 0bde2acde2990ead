/** Unsigned decimal numerals as positions and ids are printed: ^(0|[1-9][0-9]*)$ */
module Decimal {

  predicate IsDigit(c: char) {
    '0' <= c <= '9'
  }

  predicate Canonical(s: string) {
    && s != ""
    && (forall i :: 0 <= i < |s| ==> IsDigit(s[i]))
    && (s[0] == '0' ==> |s| == 1)
  }

  function Print(n: nat): string {
    if n < 10 then [Digit(n)] else Print(n / 10) + [Digit(n % 10)]
  }

  function Digit(n: nat): char
    requires n < 10
  {
    '0' + n as char
  }

  function DigitValue(c: char): (n: nat)
    requires IsDigit(c)
    ensures n < 10 && Digit(n) == c
  {
    c as nat - '0' as nat
  }

  function Value(s: string): nat
    requires forall i :: 0 <= i < |s| ==> IsDigit(s[i])
  {
    if s == "" then 0 else 10 * Value(s[..|s| - 1]) + DigitValue(s[|s| - 1])
  }

  lemma {:induction false} PrintIsCanonical(n: nat)
    ensures Canonical(Print(n)) && (Print(n)[0] == '0' <==> n == 0)
  {
    if n >= 10 { PrintIsCanonical(n / 10); }
  }

  lemma {:induction false} ValueOfPrint(n: nat)
    ensures Canonical(Print(n)) && Value(Print(n)) == n
  {
    PrintIsCanonical(n);
    if n < 10 {
      assert Print(n)[..0] == "";
    } else {
      ValueOfPrint(n / 10);
      assert Print(n)[..|Print(n)| - 1] == Print(n / 10);
    }
  }

  lemma {:induction false} PrintOfValue(s: string)
    requires Canonical(s)
    ensures Print(Value(s)) == s
  {
    var n := |s| - 1;
    if n == 0 {
      assert s[..0] == "" && s == [s[0]];
    } else {
      PrintOfValue(s[..n]);
      PositiveValue(s[..n]);
      assert s == s[..n] + [s[n]];
    }
  }

  lemma {:induction false} PositiveValue(s: string)
    requires Canonical(s) && s[0] != '0'
    ensures Value(s) > 0
  {
    if |s| > 1 { PositiveValue(s[..|s| - 1]); } else { assert s[..0] == ""; }
  }

  function Pow10(k: nat): nat {
    if k == 0 then 1 else 10 * Pow10(k - 1)
  }

  /** A number below 10^k needs at most k digits. */
  lemma {:induction false} PrintIsShort(n: nat, k: nat)
    requires k > 0 && n < Pow10(k)
    ensures |Print(n)| <= k
  {
    if n >= 10 { PrintIsShort(n / 10, k - 1); }
  }
}
