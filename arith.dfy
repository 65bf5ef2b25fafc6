/** Facts about integer division and multiplication that the percentage proofs use. */
module Arith {
  /** Euclidean division by a positive divisor has exactly one quotient. */
  lemma DivUnique(n: int, d: int, q: int)
    requires d > 0 && d * q <= n < d * q + d
    ensures n / d == q
  {
    var p := n / d;
    assert d * p <= n < d * p + d;
    if p < q {
      MulMono(d, p + 1, q);
    } else if p > q {
      MulMono(d, q + 1, p);
    }
  }

  lemma MulMono(d: int, a: int, b: int)
    requires d > 0 && a <= b
    ensures d * a <= d * b
  {
    assert d * b - d * a == d * (b - a);
  }

  /** A quotient is at least `q` when the dividend is at least `q` times the divisor. */
  lemma DivAtLeast(n: int, d: int, q: int)
    requires d > 0 && d * q <= n
    ensures q <= n / d
  {
    var p := n / d;
    assert n < d * p + d;
    if p < q {
      MulMono(d, p + 1, q);
    }
  }
}
