/** Decimal numerals. */
module Numerals {
  function Digit(d: nat): char
    requires d < 10
  {
    '0' + d as char
  }

  function Itoa(n: nat): string {
    if n < 10 then [Digit(n)] else Itoa(n / 10) + [Digit(n % 10)]
  }

  predicate AllDigits(s: string) {
    forall i :: 0 <= i < |s| ==> '0' <= s[i] <= '9'
  }

  /** The number a text of digits stands for. */
  function Read(s: string): nat
    requires AllDigits(s)
  {
    if s == "" then 0 else 10 * Read(s[..|s| - 1]) + (s[|s| - 1] as int - '0' as int)
  }

  /** A numeral reads back as its number, and starts with no needless zero. */
  lemma {:induction false} ReadsBack(n: nat)
    ensures AllDigits(Itoa(n)) && Read(Itoa(n)) == n
    ensures Itoa(n) != "" && (n > 0 ==> Itoa(n)[0] != '0')
    decreases n
  {
    if n >= 10 {
      ReadsBack(n / 10);
      assert Itoa(n)[..|Itoa(n)| - 1] == Itoa(n / 10);
    }
  }
}
