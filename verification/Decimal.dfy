/**
 Decimal numerals, the `%d` of the cursor-motion sequences and of the suffixed token ids.
 */
module Decimal {

  type digit = d: int | 0 <= d < 10

  /** The decimal digits of `n`, most significant first, without leading zeros. */
  function Digits(n: nat): (ds: seq<digit>)
    ensures ds != []
  {
    if n < 10 then [n] else Digits(n / 10) + [n % 10]
  }

  /** The number a digit string denotes. */
  function Value(ds: seq<digit>): (n: nat) {
    if ds == [] then 0 else 10 * Value(ds[..|ds| - 1]) + ds[|ds| - 1]
  }

  lemma {:induction false} ValueOfDigits(n: nat)
    ensures Value(Digits(n)) == n
  {
    if n >= 10 {
      ValueOfDigits(n / 10);
      var ds := Digits(n);
      assert ds[..|ds| - 1] == Digits(n / 10);
    }
  }

  /** Different numbers have different numerals. */
  lemma DigitsInjective(m: nat, n: nat)
    requires Digits(m) == Digits(n)
    ensures m == n
  {
    ValueOfDigits(m);
    ValueOfDigits(n);
  }
}
