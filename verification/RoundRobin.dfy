/** The round-robin strategy: an index kept across calls, advanced past the member it returns. */
module RoundRobin {
  import opened Arith
  import opened Seqs

  /** The first alive position at or after the unbounded cursor `c`, going round; `c` + length if none. */
  function NextAlive(alive: seq<bool>, c: nat, tries: nat): (x: nat)
    requires alive != []
    ensures c <= x <= c + tries
    ensures x < c + tries ==> alive[x % |alive|]
    ensures forall y :: c <= y < x ==> !alive[y % |alive|]
    decreases tries
  {
    if tries == 0 || alive[c % |alive|] then c else NextAlive(alive, c + 1, tries - 1)
  }

  /** One call: the member returned and the index afterwards. */
  function Pick(alive: seq<bool>, idx: nat, touch: bool): (nat, nat)
    requires alive != []
  {
    var x := NextAlive(alive, idx, |alive|);
    if x < idx + |alive| then (x % |alive|, if touch then (x + 1) % |alive| else idx)
    else (0, if touch then (idx + |alive|) % |alive| else idx)
  }

  class Strategy {
    var idx: nat

    constructor ()
      ensures idx == 0
    {
      idx := 0;
    }

    method Choose(alive: seq<bool>, touch: bool) returns (r: nat)
      requires alive != []
      modifies this
      ensures (r, idx) == Pick(alive, old(idx), touch)
      ensures r < |alive| && (alive[r] <==> true in alive)
      ensures true !in alive ==> r == 0
      ensures !touch ==> idx == old(idx)
    {
      var i: nat := 0;
      ghost var target := NextAlive(alive, idx, |alive|);
      while i < |alive|
        invariant i <= |alive| && idx == old(idx)
        invariant target == NextAlive(alive, idx + i, |alive| - i)
        invariant forall y :: idx <= y < idx + i ==> !alive[y % |alive|]
      {
        var id := (idx + i) % |alive|;
        if alive[id] {
          i := i + 1;
          if touch { idx := (idx + i) % |alive|; }
          return id;
        }
        i := i + 1;
      }
      NoneAlive(alive, idx);
      if touch { idx := (idx + i) % |alive|; }
      r := 0;
    }
  }

  /** A full round of dead positions means that everything is dead. */
  lemma NoneAlive(alive: seq<bool>, c: nat)
    requires alive != [] && forall y :: c <= y < c + |alive| ==> !alive[y % |alive|]
    ensures true !in alive
  {
    forall p | 0 <= p < |alive| ensures !alive[p] {
      var y := Meeting(|alive|, c, p);
      assert !alive[y % |alive|];
    }
  }

  /** The one position of the round starting at `c` that falls on `p`. */
  lemma Meeting(n: nat, c: nat, p: nat) returns (y: nat)
    requires p < n
    ensures c <= y < c + n && y % n == p
  {
    var r := c % n;
    y := if p >= r then c + (p - r) else c + (p - r) + n;
    var q := c / n;
    assert c == q * n + r;
    if p >= r { ModUnique(y, n, q, p); } else { ModUnique(y, n, q + 1, p); }
  }

  /** Going round from `c`, member `r` is the first alive one met. */
  ghost predicate FirstFrom(alive: seq<bool>, c: nat, r: nat)
    requires alive != []
  {
    exists x: nat :: c <= x && r == x % |alive| && alive[r] && forall y: nat :: c <= y < x ==> !alive[y % |alive|]
  }

  /**
   One call, in terms of the members alone: the first alive one met going round from the index, which
   moves on to the one after; with nobody alive, the first one, and the index stays where it was.
   */
  lemma PickExactly(alive: seq<bool>, idx: nat, touch: bool)
    requires alive != []
    ensures var (r, next) := Pick(alive, idx, touch);
            && (true in alive ==> r < |alive| && FirstFrom(alive, idx, r) && (touch ==> next == (r + 1) % |alive|))
            && (true !in alive ==> r == 0 && (touch ==> next == idx % |alive|))
            && (!touch ==> next == idx)
  {
    var x := NextAlive(alive, idx, |alive|);
    if x < idx + |alive| {
      assert alive[x % |alive|] in alive;
      ModMod(x, |alive|);
      ModShift(x, x % |alive|, 1, |alive|);
    } else {
      NoneAlive(alive, idx);
      ModUnique(idx + |alive|, |alive|, idx / |alive| + 1, idx % |alive|);
    }
  }

  lemma ModMod(x: nat, n: nat)
    requires n > 0
    ensures x % n < n && (x % n) % n == x % n
  {
    ModUnique(x % n, n, 0, x % n);
  }

  // ---- a whole round ----

  /** The members returned by `n` touching calls in a row. */
  function Picks(alive: seq<bool>, idx: nat, n: nat): (r: seq<nat>)
    requires alive != []
    ensures |r| == n
    decreases n
  {
    if n == 0 then [] else
    var (p, next) := Pick(alive, idx, true);
    [p] + Picks(alive, next, n - 1)
  }

  /** The alive positions met going round from the unbounded cursor `c` for `n` steps. */
  function AliveFrom(alive: seq<bool>, c: nat, n: nat): (xs: seq<nat>)
    requires alive != []
    decreases n
  {
    if n == 0 then []
    else if alive[c % |alive|] then [c] + AliveFrom(alive, c + 1, n - 1)
    else AliveFrom(alive, c + 1, n - 1)
  }

  /** They are exactly the alive positions of the window, in ascending order. */
  lemma {:induction false} AliveFromMembers(alive: seq<bool>, c: nat, n: nat)
    requires alive != []
    ensures forall x :: x in AliveFrom(alive, c, n) ==> c <= x < c + n && alive[x % |alive|]
    ensures forall x :: c <= x < c + n && alive[x % |alive|] ==> x in AliveFrom(alive, c, n)
    decreases n
  {
    if n > 0 {
      AliveFromMembers(alive, c + 1, n - 1);
    }
  }

  lemma {:induction false} AliveFromAscends(alive: seq<bool>, c: nat, n: nat, i: nat, j: nat)
    requires alive != [] && i < j < |AliveFrom(alive, c, n)|
    ensures AliveFrom(alive, c, n)[i] < AliveFrom(alive, c, n)[j]
    decreases n
  {
    var rest := AliveFrom(alive, c + 1, n - 1);
    if !alive[c % |alive|] {
      AliveFromAscends(alive, c + 1, n - 1, i, j);
    } else if i > 0 {
      AliveFromAscends(alive, c + 1, n - 1, i - 1, j - 1);
    } else {
      AliveFromMembers(alive, c + 1, n - 1);
      assert rest[j - 1] in rest;
    }
  }

  function Mods(xs: seq<nat>, n: nat): (r: seq<nat>)
    requires n > 0
    ensures |r| == |xs|
  {
    seq(|xs|, i requires 0 <= i < |xs| => xs[i] % n)
  }

  lemma ModShift(a: nat, b: nat, d: nat, n: nat)
    requires n > 0 && a % n == b % n
    ensures (a + d) % n == (b + d) % n
  {
    var r := (a % n + d) % n;
    assert a + d == (a / n + (a % n + d) / n) * n + r by {
      assert a == (a / n) * n + a % n;
    }
    assert b + d == (b / n + (a % n + d) / n) * n + r by {
      assert b == (b / n) * n + b % n;
    }
    ModUnique(a + d, n, a / n + (a % n + d) / n, r);
    ModUnique(b + d, n, b / n + (a % n + d) / n, r);
  }

  /** Only the cursor's position in the list matters. */
  lemma {:induction false} NextAliveShift(alive: seq<bool>, a: nat, b: nat, tries: nat)
    requires alive != [] && a % |alive| == b % |alive|
    ensures NextAlive(alive, a, tries) - a == NextAlive(alive, b, tries) - b
    decreases tries
  {
    if tries > 0 && !alive[a % |alive|] {
      ModShift(a, b, 1, |alive|);
      NextAliveShift(alive, a + 1, b + 1, tries - 1);
    }
  }

  lemma PicksShift(alive: seq<bool>, a: nat, b: nat, n: nat)
    requires alive != [] && a % |alive| == b % |alive| && true in alive
    ensures Picks(alive, a, n) == Picks(alive, b, n)
  {
    if n > 0 {
      SomeAlive(alive, a);
      NextAliveShift(alive, a, b, |alive|);
      var d := NextAlive(alive, a, |alive|) - a;
      ModShift(a, b, d, |alive|);
      ModShift(a, b, d + 1, |alive|);
    }
  }

  lemma SomeAlive(alive: seq<bool>, c: nat)
    requires true in alive
    ensures NextAlive(alive, c, |alive|) < c + |alive|
  {
    var p :| 0 <= p < |alive| && alive[p];
    var y := Meeting(|alive|, c, p);
    assert alive[y % |alive|];
  }

  /** The first position met is the one a call picks. */
  lemma {:induction false} AliveFromFirst(alive: seq<bool>, c: nat, n: nat, tries: nat)
    requires alive != [] && n <= tries && AliveFrom(alive, c, n) != []
    ensures var x := AliveFrom(alive, c, n)[0];
            && c <= x < c + n && NextAlive(alive, c, tries) == x
            && AliveFrom(alive, c, n) == [x] + AliveFrom(alive, x + 1, c + n - (x + 1))
    decreases n
  {
    if !alive[c % |alive|] {
      AliveFromFirst(alive, c + 1, n - 1, tries - 1);
      assert (c + 1) + (n - 1) == c + n;
    } else {
      assert c + n - (c + 1) == n - 1;
    }
  }

  /** Touching calls return the alive positions one after the other, as met going round. */
  lemma {:induction false} PicksGoRound(alive: seq<bool>, c: nat, n: nat)
    requires true in alive && n <= |alive|
    ensures Picks(alive, c, |AliveFrom(alive, c, n)|) == Mods(AliveFrom(alive, c, n), |alive|)
    decreases n
  {
    var xs := AliveFrom(alive, c, n);
    if xs != [] {
      AliveFromFirst(alive, c, n, |alive|);
      var x := xs[0];
      var m := c + n - (x + 1);
      PicksGoRound(alive, x + 1, m);
      PickOne(alive, c, x, |xs| - 1);
      ModsPush(x, AliveFrom(alive, x + 1, m), |alive|);
    }
  }

  lemma PickOne(alive: seq<bool>, c: nat, x: nat, n: nat)
    requires true in alive && NextAlive(alive, c, |alive|) == x < c + |alive|
    ensures Picks(alive, c, n + 1) == [x % |alive|] + Picks(alive, x + 1, n)
  {
    var next := (x + 1) % |alive|;
    assert Pick(alive, c, true) == (x % |alive|, next);
    ModUnique(next, |alive|, 0, next);
    PicksShift(alive, next, x + 1, n);
  }

  lemma ModsPush(x: nat, xs: seq<nat>, n: nat)
    requires n > 0
    ensures Mods([x] + xs, n) == [x % n] + Mods(xs, n)
  {
  }

  function AlivePositions(alive: seq<bool>): set<nat> {
    set p: nat | p < |alive| && alive[p]
  }

  /**
   As many touching calls as there are alive members return each of them exactly once, in list order
   from the index on and round the end, whatever the index was.
   */
  lemma RoundVisitsAll(alive: seq<bool>, idx: nat)
    requires true in alive
    ensures var xs := AliveFrom(alive, idx, |alive|);
            var r := Picks(alive, idx, |AlivePositions(alive)|);
            && |xs| == |AlivePositions(alive)| && r == Mods(xs, |alive|)
            && NoDup(r) && (forall p :: p in r ==> p in AlivePositions(alive))
            && (forall p :: p in AlivePositions(alive) ==> p in r)
  {
    var xs := AliveFrom(alive, idx, |alive|);
    var r := Mods(xs, |alive|);
    PicksGoRound(alive, idx, |alive|);
    ModsDistinct(alive, idx);
    ModsCover(alive, idx);
    NoDupSize(r);
    assert AlivePositions(alive) == Members(r);
  }

  lemma ModsDistinct(alive: seq<bool>, idx: nat)
    requires alive != []
    ensures NoDup(Mods(AliveFrom(alive, idx, |alive|), |alive|))
  {
    var xs := AliveFrom(alive, idx, |alive|);
    forall i, j | 0 <= i < j < |xs| ensures xs[i] % |alive| != xs[j] % |alive| {
      AliveFromAscends(alive, idx, |alive|, i, j);
      AliveFromMembers(alive, idx, |alive|);
      assert xs[i] in xs && xs[j] in xs;
      Apart(xs[i], xs[j], |alive|);
    }
  }

  lemma ModsCover(alive: seq<bool>, idx: nat)
    requires alive != []
    ensures var r := Mods(AliveFrom(alive, idx, |alive|), |alive|);
            (forall p :: p in r ==> p in AlivePositions(alive)) && (forall p :: p in AlivePositions(alive) ==> p in r)
  {
    var xs := AliveFrom(alive, idx, |alive|);
    var r := Mods(xs, |alive|);
    AliveFromMembers(alive, idx, |alive|);
    forall p | p in AlivePositions(alive) ensures p in r {
      var y := Meeting(|alive|, idx, p);
      assert y in xs;
      var i :| 0 <= i < |xs| && xs[i] == y;
      assert r[i] == p;
    }
    forall p | p in r ensures p in AlivePositions(alive) {
      var i :| 0 <= i < |r| && r[i] == p;
      assert xs[i] in xs;
    }
  }

  lemma Apart(a: nat, b: nat, n: nat)
    requires n > 0 && a < b < a + n
    ensures a % n != b % n
  {
    var d := b / n - a / n;
    assert b - a == d * n + (b % n - a % n);
    assert d >= 1 ==> d * n >= n;
    assert d <= 0 ==> d * n <= 0;
  }

  // ---- calls that do not touch ----

  /** The members returned by the touching ones among a run of calls. */
  function TouchedPicks(alive: seq<bool>, idx: nat, touches: seq<bool>): seq<nat>
    requires alive != []
    decreases |touches|
  {
    if touches == [] then [] else
    var (p, next) := Pick(alive, idx, touches[0]);
    (if touches[0] then [p] else []) + TouchedPicks(alive, next, touches[1..])
  }

  function Touches(touches: seq<bool>): nat {
    if touches == [] then 0 else (if touches[0] then 1 else 0) + Touches(touches[1..])
  }

  /** Calls that do not touch leave the rotation exactly as it was. */
  lemma {:induction false} UntouchedCallsDoNotDisturb(alive: seq<bool>, idx: nat, touches: seq<bool>)
    requires alive != []
    ensures TouchedPicks(alive, idx, touches) == Picks(alive, idx, Touches(touches))
    decreases |touches|
  {
    if touches != [] {
      UntouchedCallsDoNotDisturb(alive, Pick(alive, idx, touches[0]).1, touches[1..]);
    }
  }
}
