/** Facts about products and integer quotients that the solver does not find by itself. */
module Quotients {
  lemma AtMost(n: nat, d: int, total: int)
    requires d > 0 && n * d <= total
    ensures n <= total / d
  {
    var q := total / d;
    assert total == q * d + total % d;
    assert (q + 1) * d == q * d + d;
    if q < n {
      Scales(q + 1, n, d);
    }
  }

  lemma Scales(x: int, y: int, d: int)
    requires x <= y && d >= 0
    ensures x * d <= y * d
  {
    assert (y - x) * d >= 0;
  }

  lemma Grows(x: int, y: int, d: int)
    requires d > 0 && x <= y
    ensures x / d <= y / d
  {
    var p, q := x / d, y / d;
    assert x == p * d + x % d && y == q * d + y % d;
    assert (q + 1) * d == q * d + d;
    if q < p {
      Scales(q + 1, p, d);
    }
  }
}
