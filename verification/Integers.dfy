/** Integer division as Go does it: truncated toward zero. */
module Integers {
  function Quotient(a: int, b: int): int
    requires b > 0
  {
    if a >= 0 then a / b else -(-a / b)
  }

  /** Truncation keeps a mean between the bounds of what was averaged, also for negative sums. */
  lemma QuotientBetween(a: int, b: int, low: int, high: int)
    requires b > 0 && low * b <= a <= high * b
    ensures low <= Quotient(a, b) <= high
  {
    if a >= 0 {
      FloorBetween(a, b, low, high);
    } else {
      assert -high * b <= -a <= -low * b;
      FloorBetween(-a, b, -high, -low);
    }
  }

  lemma FloorBetween(a: int, b: int, low: int, high: int)
    requires b > 0 && low * b <= a <= high * b
    ensures low <= a / b <= high
  {
    var q, r := a / b, a % b;
    assert a == q * b + r && 0 <= r < b;
    ProductSign(low - q - 1, b) by { assert (low - q - 1) * b == low * b - q * b - b; }
    ProductSign(q - high - 1, b) by { assert (q - high - 1) * b == q * b - high * b - b; }
  }

  lemma ProductSign(x: int, b: int)
    requires b > 0 && x * b < 0
    ensures x < 0
  {
  }

  /** Truncation: what is left over is smaller than the divisor and has the sign of the dividend, so that changing
      that sign changes the sign of the quotient. */
  lemma QuotientTruncates(a: int, b: int)
    requires b > 0
    ensures var left := a - Quotient(a, b) * b;
            && -b < left < b && (a >= 0 ==> left >= 0) && (a <= 0 ==> left <= 0)
    ensures Quotient(-a, b) == -Quotient(a, b)
  {
    var m := if a >= 0 then a else -a;
    assert m == m / b * b + m % b && 0 <= m % b < b;
    if a < 0 {
      assert -(m / b) * b == -(m / b * b);
    }
  }

  lemma HalfOff(a: int)
    ensures -1 <= a - 2 * Quotient(a, 2) <= 1
  {
  }
}
