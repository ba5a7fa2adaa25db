/** Decimal rendering of naturals, as Go's strconv.Itoa prints a non-negative
    number, together with its inverse. */
module Decimal {

  function DigitChar(d: nat): char
    requires d < 10
  {
    ['0', '1', '2', '3', '4', '5', '6', '7', '8', '9'][d]
  }

  predicate IsDigit(c: char) {
    '0' <= c <= '9'
  }

  function DigitValue(c: char): nat
    requires IsDigit(c)
  {
    c as int - '0' as int
  }

  function Itoa(n: nat): string {
    if n < 10 then [DigitChar(n)] else Itoa(n / 10) + [DigitChar(n % 10)]
  }

  predicate AllDigits(s: string) {
    forall c | c in s :: IsDigit(c)
  }

  /** The number a run of digits denotes; 0 for the empty run. */
  function Value(s: string): nat
    requires AllDigits(s)
  {
    if s == "" then 0 else 10 * Value(s[..|s| - 1]) + DigitValue(s[|s| - 1])
  }

  lemma {:induction false} ItoaIsDigits(n: nat)
    ensures Itoa(n) != "" && AllDigits(Itoa(n))
  {
    if n >= 10 {
      ItoaIsDigits(n / 10);
    }
  }

  lemma {:induction false} ValueOfItoa(n: nat)
    ensures AllDigits(Itoa(n)) && Value(Itoa(n)) == n
  {
    ItoaIsDigits(n);
    if n >= 10 {
      ValueOfItoa(n / 10);
      var s := Itoa(n);
      assert s[..|s| - 1] == Itoa(n / 10);
    }
  }

  lemma ItoaInjective(a: nat, b: nat)
    requires Itoa(a) == Itoa(b)
    ensures a == b
  {
    ValueOfItoa(a);
    ValueOfItoa(b);
  }
}
