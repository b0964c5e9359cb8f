/** The deque's bitwise wrap-around: `&` on two's-complement integers, and why it is a modulus. */
module Mask {
  import opened Arith

  predicate Pow2(n: int) {
    n == 1 || (n > 1 && n % 2 == 0 && Pow2(n / 2))
  }

  /** `x & m` for a non-negative mask, bit by bit; halving rounds down, as an arithmetic shift does. */
  function And(x: int, m: nat): nat
    decreases m
  {
    if m == 0 then 0 else (x % 2) * (m % 2) + 2 * And(x / 2, m / 2)
  }

  lemma HalveMod(x: int, k: int)
    requires k > 0
    ensures x % (2 * k) == x % 2 + 2 * ((x / 2) % k)
  {
    var q, r := (x / 2) / k, (x / 2) % k;
    var s := x % 2 + 2 * r;
    assert x == q * (2 * k) + s;
    ModUnique(x, 2 * k, q, s);
  }

  /** With a power of two less one as the mask, `&` is the Euclidean modulus, negative numbers included. */
  lemma {:induction false} MaskIsMod(x: int, n: int)
    requires Pow2(n)
    ensures And(x, n - 1) == x % n
    decreases n
  {
    if n > 1 {
      MaskIsMod(x / 2, n / 2);
      HalveMod(x, n / 2);
      assert (n - 1) / 2 == n / 2 - 1 && (n - 1) % 2 == 1;
    }
  }

  /** An index that overshoots by less than one capacity, wrapped. */
  function Wrap(i: int, n: int): int {
    if i >= n then i - n else if i < 0 then i + n else i
  }

  lemma MaskWraps(x: int, n: int)
    requires Pow2(n) && -n <= x < 2 * n
    ensures And(x, n - 1) == Wrap(x, n) && 0 <= Wrap(x, n) < n
  {
    MaskIsMod(x, n);
    ModUnique(x, n, if x >= n then 1 else if x < 0 then -1 else 0, Wrap(x, n));
  }

  lemma Pow2Double(n: int)
    requires Pow2(n)
    ensures Pow2(2 * n) && (n > 1 ==> Pow2(n / 2))
  {
    assert (2 * n) / 2 == n;
  }
}
