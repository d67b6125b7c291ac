/**
 Quotient and remainder, for the two places that reason about a symbolic divisor: the terminal
 width and the number of options.
 */
module Arithmetic {

  lemma {:induction false} MulMonotone(a: int, b: int, d: nat)
    requires a <= b
    ensures a * d <= b * d
    decreases b - a
  {
    if a < b {
      MulMonotone(a, b - 1, d);
      assert b * d == (b - 1) * d + d;
    }
  }

  /** Division with remainder has one answer. */
  lemma DivModUnique(x: int, d: nat, q: int, r: nat)
    requires d > 0 && r < d && x == q * d + r
    ensures x / d == q && x % d == r
  {
    var q', r' := x / d, x % d;
    assert x == q' * d + r' && 0 <= r' < d;
    assert (q + 1) * d == q * d + d && (q' + 1) * d == q' * d + d;
    if q' > q {
      MulMonotone(q + 1, q', d);
    } else if q' < q {
      MulMonotone(q' + 1, q, d);
    }
  }

  lemma DivAtLeastOne(x: int, d: nat)
    requires 0 < d <= x
    ensures x / d >= 1
  {
    var q := x / d;
    assert x == q * d + x % d;
    assert q <= 0 ==> q * d <= 0 by {
      if q <= 0 {
        MulMonotone(q, 0, d);
      }
    }
  }

  function Min(a: int, b: int): int {
    if a < b then a else b
  }

  function Max(a: int, b: int): int {
    if a < b then b else a
  }
}
