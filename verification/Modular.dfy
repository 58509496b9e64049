/** The remainder of a number whose quotient is known. */
module Modular {

  lemma AtLeast(d: int, n: int)
    requires 1 <= d && 0 <= n
    ensures n <= d * n
  {
  }

  lemma RemainderIs(x: int, q: int, r: int, n: int)
    requires 0 <= r < n && x == q * n + r
    ensures x % n == r
  {
    var d := x / n - q;
    assert x == x / n * n + x % n;
    assert d * n == r - x % n;
    if d >= 1 {
      AtLeast(d, n);
    } else if d <= -1 {
      AtLeast(-d, n);
    }
  }
}
