/** Facts about Euclidean division by a positive divisor that the solver does not find alone. */
module Arith {

  /** Euclidean division is determined by quotient and remainder. */
  lemma ModUnique(x: int, n: int, q: int, r: int)
    requires n > 0 && 0 <= r < n && x == q * n + r
    ensures x % n == r && x / n == q
  {
    var q', r' := x / n, x % n;
    assert x == q' * n + r';
    Distribute(q, q', n);
    if q > q' {
      AtLeastOnce(q - q', n);
      assert false;
    } else if q < q' {
      Distribute(q', q, n);
      AtLeastOnce(q' - q, n);
      assert false;
    }
  }

  lemma Distribute(a: int, b: int, n: int)
    ensures a * n - b * n == (a - b) * n
  {
  }

  lemma AtLeastOnce(a: int, n: int)
    requires a >= 1 && n > 0
    ensures a * n >= n
  {
  }
}
