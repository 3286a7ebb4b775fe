/** Decimal numerals, as the source's formatting writes them and its parsing reads them. */
module Decimals {

  predicate Digit(c: char) {
    '0' <= c <= '9'
  }

  predicate Digits(s: string) {
    forall i :: 0 <= i < |s| ==> Digit(s[i])
  }

  function NatOf(s: string): nat
    requires Digits(s)
  {
    if s == "" then 0 else 10 * NatOf(s[..|s| - 1]) + (s[|s| - 1] as int - '0' as int)
  }

  function Decimal(n: nat): (s: string)
    ensures s != "" && Digits(s)
  {
    var digit := [('0' as int + n % 10) as char];
    if n < 10 then digit else Decimal(n / 10) + digit
  }

  lemma {:induction false} NatOfDecimal(n: nat)
    ensures NatOf(Decimal(n)) == n
  {
    if n >= 10 {
      NatOfDecimal(n / 10);
      assert Decimal(n)[..|Decimal(n)| - 1] == Decimal(n / 10);
    }
  }

  /** The last figure is the number modulo ten, and the others are those of its tenth. */
  lemma FiguresExactly(n: nat)
    ensures var s := Decimal(n);
            && s[|s| - 1] as int == 48 + n % 10
            && s[..|s| - 1] == if n < 10 then "" else Decimal(n / 10)
  {
  }
}
