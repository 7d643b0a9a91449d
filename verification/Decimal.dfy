/** Decimal notation of natural numbers. */
module Decimal {

  predicate IsDigit(c: char) { '0' <= c <= '9' }

  predicate AllDigits(s: string) {
    forall i :: 0 <= i < |s| ==> IsDigit(s[i])
  }

  function DigitChar(d: nat): char
    requires d < 10
  {
    ('0' as int + d) as char
  }

  function DigitValue(c: char): nat
    requires IsDigit(c)
  {
    c as int - '0' as int
  }

  function Show(n: nat): (s: string)
    ensures s != "" && AllDigits(s)
  {
    if n < 10 then [DigitChar(n)] else Show(n / 10) + [DigitChar(n % 10)]
  }

  function Read(s: string): nat
    requires AllDigits(s)
  {
    if s == "" then 0 else 10 * Read(s[..|s| - 1]) + DigitValue(s[|s| - 1])
  }

  /** Reading undoes showing, so different numbers look different. */
  lemma {:induction false} ReadShow(n: nat)
    ensures Read(Show(n)) == n
  {
    if n >= 10 {
      ReadShow(n / 10);
      assert Show(n)[..|Show(n)| - 1] == Show(n / 10);
    } else {
      assert Show(n)[..0] == "";
    }
  }

  /** A number in front of something that does not start with a digit can be told from what follows. */
  lemma {:induction false} DigitsThen(a: string, b: string, x: string, y: string)
    requires AllDigits(a) && AllDigits(b) && a + x == b + y
    requires x != "" && y != "" && !IsDigit(x[0]) && !IsDigit(y[0])
    ensures a == b && x == y
  {
    if a == "" && b == "" {
      assert a + x == x && b + y == y;
    } else {
      FirstChar(a, x);
      FirstChar(b, y);
      assert a != "" && b != "";
      assert (a + x)[1..] == a[1..] + x && (b + y)[1..] == b[1..] + y;
      DigitsThen(a[1..], b[1..], x, y);
      assert a == [a[0]] + a[1..] && b == [b[0]] + b[1..];
    }
  }

  lemma FirstChar(a: string, x: string)
    requires AllDigits(a) && x != "" && !IsDigit(x[0])
    ensures IsDigit((a + x)[0]) <==> a != ""
  {
  }
}
