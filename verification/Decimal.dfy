/** Printing and reading non-negative decimal integers. */
module Decimal {
  predicate IsDigit(c: char) {
    '0' <= c <= '9'
  }

  predicate AllDigits(s: string) {
    forall c <- s :: IsDigit(c)
  }

  function Digit(d: nat): (c: char)
    requires d < 10
    ensures IsDigit(c)
  {
    ('0' as int + d) as char
  }

  /** `str(n)` */
  function Print(n: nat): (s: string)
    ensures s != ""
  {
    if n < 10 then [Digit(n)] else Print(n / 10) + [Digit(n % 10)]
  }

  /** `int(s)`, which accepts leading zeros. */
  function Value(s: string): nat
    requires AllDigits(s)
  {
    if s == "" then 0
    else
      assert IsDigit(s[|s| - 1]);
      10 * Value(s[..|s| - 1]) + (s[|s| - 1] as int - '0' as int)
  }

  lemma {:induction false} PrintThenRead(n: nat)
    ensures AllDigits(Print(n)) && Value(Print(n)) == n
  {
    if n >= 10 {
      PrintThenRead(n / 10);
      assert Print(n)[..|Print(n)| - 1] == Print(n / 10);
    }
  }
}
