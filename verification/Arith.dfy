/** Quotients and remainders of integers. */
module Arith {
  /** The remainder is the one number of its range that differs by a multiple. */
  lemma ModUnique(x: int, n: int, q: int, r: int)
    requires n > 0 && x == q * n + r && 0 <= r < n
    ensures x % n == r
  {
    var d := x / n - q;
    assert r - x % n == d * n;
    assert d >= 1 ==> d * n >= n;
    assert d <= -1 ==> d * n <= -n;
  }
}
