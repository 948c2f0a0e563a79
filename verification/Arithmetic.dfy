/** The few facts about products and floor division that the proofs use, one per lemma. */
module Arithmetic {

  lemma FloorBounds(x: int, d: int)
    requires d > 0 && x >= 0
    ensures 0 <= x / d
    ensures x / d * d <= x < x / d * d + d
  {
    assert x == d * (x / d) + x % d;
  }

  lemma ProductAtLeast(q: int, b: int)
    requires b > 0 && q >= 0
    ensures q <= q * b
  {
  }

  lemma QuotientAtMost(a: int, b: int)
    requires b > 0 && a >= 0
    ensures 0 <= a / b <= a
  {
    FloorBounds(a, b);
    ProductAtLeast(a / b, b);
  }

  lemma Scale(a: int, b: int, k: int)
    requires a <= b && k >= 0
    ensures a * k <= b * k
  {
  }

  lemma Distribute(a: int, b: int, k: int)
    ensures (a + b) * k == a * k + b * k
  {
  }

  lemma CancelFactor(a: int, b: int, k: int)
    requires k > 0 && a * k <= b * k
    ensures a <= b
  {
    if a > b {
      Scale(b + 1, a, k);
    }
  }
}
