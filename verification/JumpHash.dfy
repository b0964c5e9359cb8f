/** `jumpHash` (Lamping and Veach) and the consistent-hashing strategy built on it. */
module JumpHash {
  const TWO_31 := 0x8000_0000
  const TWO_33 := 0x2_0000_0000
  const TWO_64 := 0x1_0000_0000_0000_0000
  const TWO_62 := 0x4000_0000_0000_0000

  type Key = k: int | 0 <= k < TWO_64

  /** The 64-bit linear congruential step. */
  function NextKey(key: Key): Key {
    (key * 2862933555777941757 + 1) % TWO_64
  }

  /** The step undone: the inverse of the multiplier modulo 2^64. */
  function PreviousKey(key: Key): Key {
    ((key - 1) * 16133697096952638549) % TWO_64
  }

  /** The step is a permutation of the 64-bit keys, so no two keys of a series are drawn from one. */
  lemma KeysRoundTrip(key: Key)
    ensures PreviousKey(NextKey(key)) == key && NextKey(PreviousKey(key)) == key
  {
    var up, down := key * 2862933555777941757 + 1, (key - 1) * 16133697096952638549;
    Cancels(key, key * 2503948805982125087 - (up / TWO_64) * 16133697096952638549);
    assert (NextKey(key) - 1) * 16133697096952638549
        == key + TWO_64 * (key * 2503948805982125087 - (up / TWO_64) * 16133697096952638549);
    Cancels(key, (key - 1) * 2503948805982125087 - (down / TWO_64) * 2862933555777941757);
    assert PreviousKey(key) * 2862933555777941757 + 1
        == key + TWO_64 * ((key - 1) * 2503948805982125087 - (down / TWO_64) * 2862933555777941757);
  }

  lemma Cancels(key: Key, z: int)
    ensures (key + TWO_64 * z) % TWO_64 == key
  {
  }

  /**
   `scale(n, m)` stands for the floating-point product of n and the quotient 2^31 / m, cut to an integer.
   Only an n up to 2^31 is ever scaled: it is one more than a bucket number.
   */
  ghost predicate Scales(scale: (int, int) -> int) {
    forall n, m :: 1 <= n <= TWO_31 && 1 <= m <= TWO_31 ==> n <= scale(n, m) <= n * TWO_31
  }

  // ---- the code's product is such a scaling, however it is rounded ----

  /** A rounding keeps order and leaves alone the integers up to 2^31 and their multiples by 2^31, which are exact. */
  ghost predicate Rounds(round: real -> real) {
    && (forall x, y :: x <= y ==> round(x) <= round(y))
    && (forall n :: 1 <= n <= TWO_31 ==>
          round(n as real) == n as real && round((n * TWO_31) as real) == (n * TWO_31) as real)
  }

  /** The product as the code computes it: the quotient rounded, the product rounded, the fraction cut off. */
  function Product(round: real -> real, n: int, m: int): int
    requires m >= 1
  {
    round(n as real * round(TWO_31 as real / m as real)).Floor
  }

  lemma QuotientBounds(m: int)
    requires 1 <= m <= TWO_31
    ensures 1.0 <= TWO_31 as real / m as real <= TWO_31 as real
  {
    var q := TWO_31 as real / m as real;
    assert q * m as real == TWO_31 as real;
    assert q < 1.0 ==> q * m as real < m as real;
    assert q > TWO_31 as real ==> q * m as real >= q;
  }

  lemma ExactAt(round: real -> real, n: int, r: real)
    requires Rounds(round) && 1 <= n <= TWO_31 && r == n as real
    ensures round(r) == r && round((n * TWO_31) as real) == (n * TWO_31) as real
  {
    assert round(n as real) == n as real;
  }

  lemma KeepsOrder(round: real -> real, x: real, y: real)
    requires Rounds(round) && x <= y
    ensures round(x) <= round(y)
  {
  }

  lemma Scaled(n: int, q: real)
    requires n >= 0 && 1.0 <= q <= TWO_31 as real
    ensures n as real <= n as real * q <= (n * TWO_31) as real
  {
    var r := n as real;
    assert r * (q - 1.0) >= 0.0;
    assert r * (TWO_31 as real - q) >= 0.0;
  }

  lemma ProductBounds(round: real -> real, n: int, m: int)
    requires Rounds(round) && 1 <= n <= TWO_31 && 1 <= m <= TWO_31
    ensures n <= Product(round, n, m) <= n * TWO_31
  {
    var exact := TWO_31 as real / m as real;
    QuotientBounds(m);
    ExactAt(round, 1, 1.0);
    ExactAt(round, TWO_31, TWO_31 as real);
    ExactAt(round, n, n as real);
    var q := round(exact);
    KeepsOrder(round, 1.0, exact);
    KeepsOrder(round, exact, TWO_31 as real);
    Scaled(n, q);
    KeepsOrder(round, n as real, n as real * q);
    KeepsOrder(round, n as real * q, (n * TWO_31) as real);
  }

  /** Whatever the rounding, the code's product stays within the bounds. */
  lemma ProductScales(round: real -> real)
    requires Rounds(round)
    ensures Scales((n, m) => if m >= 1 then Product(round, n, m) else n)
  {
    forall n, m | 1 <= n <= TWO_31 && 1 <= m <= TWO_31 ensures n <= Product(round, n, m) <= n * TWO_31 {
      ProductBounds(round, n, m);
    }
  }

  lemma IdentityRounds()
    ensures Rounds((x: real) => x)
  {
  }

  /** Exact arithmetic with a final floor is one of these scalings, so there are some. */
  lemma ExactScales()
    ensures Scales((n, m) => if m >= 1 then Product((x: real) => x, n, m) else n)
  {
    IdentityRounds();
    ProductScales((x: real) => x);
  }

  /** The next candidate bucket after `j`, and the key it was drawn with. */
  function Candidate(scale: (int, int) -> int, key: Key, j: nat): int {
    scale(j + 1, NextKey(key) / TWO_33 + 1)
  }

  lemma CandidateAdvances(scale: (int, int) -> int, key: Key, j: nat)
    requires Scales(scale) && j < TWO_31
    ensures j < Candidate(scale, key, j) <= (j + 1) * TWO_31
  {
    assert 0 <= NextKey(key) / TWO_33 < TWO_31;
  }

  /** The last candidate below `buckets`, from candidate `j` on, `b` being the one before it. */
  function Jump(scale: (int, int) -> int, key: Key, b: nat, j: nat, buckets: int): (r: nat)
    requires Scales(scale) && buckets <= TWO_31 && b <= j && (j == 0 ==> b == 0)
    ensures b <= r && (b < buckets ==> r < buckets) && (j < buckets ==> j <= r < buckets)
    decreases buckets - j
  {
    if j < buckets then
      CandidateAdvances(scale, key, j);
      Jump(scale, NextKey(key), j, Candidate(scale, key, j), buckets)
    else b
  }

  function Bucket(scale: (int, int) -> int, key: Key, buckets: int): (r: nat)
    requires Scales(scale) && buckets <= TWO_31
    ensures buckets >= 1 ==> r < buckets
  {
    Jump(scale, key, 0, 0, buckets)
  }

  /** The loop; every candidate fits the 64-bit variable that holds it, since a bucket count is 32-bit. */
  method ComputeBucket(scale: (int, int) -> int, key: Key, buckets: int) returns (r: nat)
    requires Scales(scale) && buckets < TWO_31
    ensures r == Bucket(scale, key, buckets) && (buckets >= 1 ==> r < buckets)
  {
    var b: nat, j: nat, k := 0, 0, key;
    while j < buckets
      invariant b <= j <= TWO_62 && (j == 0 ==> b == 0)
      invariant Jump(scale, k, b, j, buckets) == Bucket(scale, key, buckets)
      decreases buckets - j
    {
      CandidateAdvances(scale, k, j);
      assert (j + 1) * TWO_31 <= TWO_31 * TWO_31;
      b := j;
      j := Candidate(scale, k, j);
      k := NextKey(k);
    }
    r := b;
  }

  // ---- the reference: one ascending series of candidates a key, whatever the number of buckets ----

  /** The key and the bucket of the i-th candidate; the series stops once it is past every bucket number. */
  function Draw(scale: (int, int) -> int, key: Key, i: nat): (Key, nat)
    requires Scales(scale)
  {
    if i == 0 then (key, 0) else
    var (k, j) := Draw(scale, key, i - 1);
    if j >= TWO_31 then (k, j) else
    CandidateAdvances(scale, k, j);
    (NextKey(k), Candidate(scale, k, j))
  }

  /**
   The series step by step, from bucket 0 on: the key is the step undone from the next one, whose upper 31
   bits, and one, divide 2^31 in the next bucket.
   */
  lemma DrawSeries(scale: (int, int) -> int, key: Key, i: nat)
    requires Scales(scale)
    ensures Draw(scale, key, 0) == (key, 0)
    ensures var (k, j) := Draw(scale, key, i);
            var (k1, j1) := Draw(scale, key, i + 1);
            j < TWO_31 ==> k == PreviousKey(k1) && j1 == scale(j + 1, k1 / TWO_33 + 1)
  {
    var (k, j) := Draw(scale, key, i);
    if j < TWO_31 {
      CandidateAdvances(scale, k, j);
      KeysRoundTrip(k);
    }
  }

  lemma {:induction false} DrawsAscend(scale: (int, int) -> int, key: Key, i: nat, n: nat)
    requires Scales(scale) && i <= n
    ensures Draw(scale, key, i).1 <= Draw(scale, key, n).1
    ensures i < n && Draw(scale, key, i).1 < TWO_31 ==> Draw(scale, key, i).1 < Draw(scale, key, n).1
    decreases n
  {
    if i < n {
      DrawsAscend(scale, key, i, n - 1);
      var (k, j) := Draw(scale, key, n - 1);
      if j < TWO_31 { CandidateAdvances(scale, k, j); }
    }
  }

  lemma {:induction false} JumpFromDraw(scale: (int, int) -> int, key: Key, i: nat, buckets: int) returns (n: nat)
    requires Scales(scale) && buckets <= TWO_31 && Draw(scale, key, i).1 < buckets
    ensures var (k, j) := Draw(scale, key, i);
            Draw(scale, key, n).1 == Jump(scale, k, j, j, buckets) < buckets <= Draw(scale, key, n + 1).1
    decreases buckets - Draw(scale, key, i).1
  {
    DrawsAscend(scale, key, i, i + 1);
    var j := Draw(scale, key, i + 1).1;
    if j < buckets {
      n := JumpFromDraw(scale, key, i + 1, buckets);
    } else {
      n := i;
    }
  }

  /** From candidate `n` on, every candidate is at least `buckets`. */
  ghost predicate PastFrom(scale: (int, int) -> int, key: Key, n: nat, buckets: int)
    requires Scales(scale)
  {
    forall m: nat :: m >= n ==> Draw(scale, key, m).1 >= buckets
  }

  lemma PastOnce(scale: (int, int) -> int, key: Key, n: nat, buckets: int)
    requires Scales(scale) && Draw(scale, key, n).1 >= buckets
    ensures PastFrom(scale, key, n, buckets)
  {
    forall m: nat | m >= n ensures Draw(scale, key, m).1 >= buckets {
      DrawsAscend(scale, key, n, m);
    }
  }

  /** A key's bucket is the last candidate of its series that is below the number of buckets: all later ones are not. */
  lemma BucketIsLastCandidate(scale: (int, int) -> int, key: Key, buckets: int) returns (n: nat)
    requires Scales(scale) && 1 <= buckets <= TWO_31
    ensures Bucket(scale, key, buckets) == Draw(scale, key, n).1 < buckets && PastFrom(scale, key, n + 1, buckets)
  {
    n := JumpFromDraw(scale, key, 0, buckets);
    PastOnce(scale, key, n + 1, buckets);
  }

  lemma {:induction false} JumpConsistent(scale: (int, int) -> int, key: Key, b: nat, j: nat, n: int, m: int)
    requires Scales(scale) && m <= TWO_31 && b <= j && (j == 0 ==> b == 0) && n <= m && b < n
    ensures Jump(scale, key, b, j, m) < n ==> Jump(scale, key, b, j, n) == Jump(scale, key, b, j, m)
    ensures Jump(scale, key, b, j, m) == Jump(scale, key, b, j, n) || Jump(scale, key, b, j, m) >= n
    decreases m - j
  {
    if j < n {
      CandidateAdvances(scale, key, j);
      JumpConsistent(scale, NextKey(key), j, Candidate(scale, key, j), n, m);
    }
  }

  /** Growing the number of buckets from n to m moves a key only into one of the new buckets. */
  lemma Consistent(scale: (int, int) -> int, key: Key, n: int, m: int)
    requires Scales(scale) && 1 <= n <= m <= TWO_31
    ensures Bucket(scale, key, m) == Bucket(scale, key, n) || n <= Bucket(scale, key, m) < m
  {
    JumpConsistent(scale, key, 0, 0, n, m);
  }

  // ---- the strategy ----

  const MAX_RETRY := 5

  /** The key of the i-th try; the addition wraps. */
  function TryKey(key: Key, i: nat): Key {
    (key + i) % TWO_64
  }

  ghost predicate FirstAlive(alive: seq<bool>, r: nat) {
    r < |alive| && alive[r] && forall i :: 0 <= i < r ==> !alive[i]
  }

  /** The buckets of the five tries. */
  function Tries(scale: (int, int) -> int, key: Key, buckets: int): (tries: seq<nat>)
    requires Scales(scale) && 1 <= buckets <= TWO_31
    ensures |tries| == MAX_RETRY && forall i :: 0 <= i < MAX_RETRY ==> tries[i] < buckets
  {
    seq(MAX_RETRY, (i: nat) requires 0 <= i < MAX_RETRY => Bucket(scale, TryKey(key, i), buckets))
  }

  /** The tries go through the key and its successors, from 2^64 - 1 on to 0. */
  lemma TriesWrap(scale: (int, int) -> int, key: Key, buckets: int, i: nat)
    requires Scales(scale) && 1 <= buckets <= TWO_31 && i < MAX_RETRY
    ensures var k := if key + i < TWO_64 then key + i else key + i - TWO_64;
            Tries(scale, key, buckets)[i] == Bucket(scale, k, buckets)
  {
    assert TryKey(key, i) == if key + i < TWO_64 then key + i else key + i - TWO_64;
  }

  /** The try whose member is the first alive one, or `MAX_RETRY`. */
  method FirstTry(scale: (int, int) -> int, key: Key, alive: seq<bool>) returns (i: nat, r: nat)
    requires Scales(scale) && 1 <= |alive| < TWO_31
    ensures i <= MAX_RETRY && forall t :: 0 <= t < i ==> !alive[Tries(scale, key, |alive|)[t]]
    ensures i < MAX_RETRY ==> r == Tries(scale, key, |alive|)[i] && alive[r]
  {
    var k := key;
    i, r := 0, 0;
    while i < MAX_RETRY
      invariant i <= MAX_RETRY && k == TryKey(key, i)
      invariant forall t :: 0 <= t < i ==> !alive[Tries(scale, key, |alive|)[t]]
    {
      r := ComputeBucket(scale, k, |alive|);
      assert r == Tries(scale, key, |alive|)[i];
      if alive[r] {
        return;
      }
      i, k := i + 1, (k + 1) % TWO_64;
    }
  }

  /**
   Which member is returned: that of the first of five tries that is alive, else the first alive one of
   the list, else the first. So an alive member is returned whenever there is one.
   */
  method ConsistentHashing(scale: (int, int) -> int, key: Key, alive: seq<bool>) returns (r: nat)
    requires Scales(scale) && 1 <= |alive| < TWO_31
    ensures r < |alive| && (alive[r] <==> true in alive)
    ensures var tries := Tries(scale, key, |alive|);
            || (exists i :: 0 <= i < MAX_RETRY && r == tries[i] && alive[r]
                  && forall k :: 0 <= k < i ==> !alive[tries[k]])
            || ((forall k :: 0 <= k < MAX_RETRY ==> !alive[tries[k]])
                && (FirstAlive(alive, r) || (true !in alive && r == 0)))
  {
    var try_: nat;
    try_, r := FirstTry(scale, key, alive);
    if try_ < MAX_RETRY {
      return;
    }
    for i := 0 to |alive|
      invariant forall t :: 0 <= t < i ==> !alive[t]
    {
      if alive[i] {
        return i;
      }
    }
    r := 0;
  }
}
