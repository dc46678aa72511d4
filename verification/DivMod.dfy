/** Division by a positive number, characterised by its quotient and remainder. */
module DivMod {

  lemma SmallMultiple(k: int, n: int)
    requires 0 < n && -n < k * n < n
    ensures k == 0
  {
  }

  /** Quotient and remainder are unique. */
  lemma Unique(a: int, q: int, r: int, n: int)
    requires 0 < n && a == q * n + r && 0 <= r < n
    ensures a / n == q && a % n == r
  {
    var q', r' := a / n, a % n;
    assert a == q' * n + r';
    assert (q - q') * n == r' - r by {
      assert (q - q') * n == q * n - q' * n;
    }
    SmallMultiple(q - q', n);
  }

  lemma Shift(a: int, k: int, n: int)
    requires 0 < n
    ensures (a + k * n) / n == a / n + k
    ensures (a + k * n) % n == a % n
  {
    var q, r := a / n, a % n;
    assert a == q * n + r;
    assert a + k * n == (q + k) * n + r by { assert (q + k) * n == q * n + k * n; }
    Unique(a + k * n, q + k, r, n);
  }

  /** Two numbers closer than n with the same remainder are equal. */
  lemma CloseEqual(t: int, u: int, n: int)
    requires 0 < n && -n < t - u < n && t % n == u % n
    ensures t == u
  {
    var a, b := t / n, u / n;
    assert t == a * n + t % n;
    assert u == b * n + u % n;
    assert t - u == (a - b) * n by { assert (a - b) * n == a * n - b * n; }
    SmallMultiple(a - b, n);
  }
}
