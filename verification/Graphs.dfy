/** Named references: paths, cycles, and the sets in which every name keeps a neighbour. */
module Graphs {
  import opened Seqs

  type Name = string

  /** Who refers to whom: a name outside the map refers to nothing. */
  type Graph = map<Name, seq<Name>>

  predicate Edge(g: Graph, a: Name, b: Name) {
    a in g && b in g[a]
  }

  ghost predicate Path(g: Graph, p: seq<Name>) {
    p != [] && forall i :: 0 <= i < |p| - 1 ==> Edge(g, p[i], p[i + 1])
  }

  /** A path of at least one step that ends where it starts. */
  ghost predicate Cycle(g: Graph, p: seq<Name>) {
    |p| >= 2 && Path(g, p) && p[0] == p[|p| - 1]
  }

  ghost predicate Cyclic(g: Graph) {
    exists p :: Cycle(g, p)
  }

  ghost predicate OnCycle(g: Graph, x: Name) {
    exists p :: Cycle(g, p) && x in p
  }

  function Elements(p: seq<Name>): set<Name> {
    set x | x in p
  }

  ghost predicate HasPred(g: Graph, s: set<Name>, x: Name) {
    exists y :: y in s && Edge(g, y, x)
  }

  ghost predicate HasSucc(g: Graph, s: set<Name>, x: Name) {
    exists y :: y in s && Edge(g, x, y)
  }

  ghost predicate PredClosed(g: Graph, s: set<Name>) {
    forall x {:trigger HasPred(g, s, x)} :: x in s ==> HasPred(g, s, x)
  }

  /** Everyone in `s` is referred to from inside `s`, and refers into `s`. */
  ghost predicate Looping(g: Graph, s: set<Name>) {
    forall x {:trigger HasPred(g, s, x)} {:trigger HasSucc(g, s, x)} :: x in s ==> HasPred(g, s, x) && HasSucc(g, s, x)
  }

  // ---- sizes ----

  lemma SmallerSet(a: set<Name>, b: set<Name>)
    requires a < b
    ensures |a| < |b|
  {
    var x :| x in b && x !in a;
    assert a <= b - {x};
    SubsetSize(a, b - {x});
  }

  // ---- a set in which everyone has a predecessor holds a cycle ----

  lemma {:induction false} BackwardPath(g: Graph, s: set<Name>, n: nat) returns (p: seq<Name>)
    requires s != {} && PredClosed(g, s)
    ensures |p| == n + 1 && Path(g, p) && forall x :: x in p ==> x in s
  {
    if n == 0 {
      var x :| x in s;
      p := [x];
    } else {
      var q := BackwardPath(g, s, n - 1);
      assert q[0] in s && HasPred(g, s, q[0]);
      var y :| y in s && Edge(g, y, q[0]);
      p := [y] + q;
      forall i | 0 <= i < |p| - 1 ensures Edge(g, p[i], p[i + 1]) {
        if i > 0 { assert Edge(g, q[i - 1], q[i]); }
      }
    }
  }

  /** A sequence longer than the set it draws from repeats an element. */
  lemma {:induction false} Pigeonhole(p: seq<Name>, s: set<Name>) returns (i: nat, j: nat)
    requires |p| > |s| && forall x :: x in p ==> x in s
    ensures i < j < |p| && p[i] == p[j]
    decreases |p|
  {
    var x := Last(p);
    if x in Init(p) {
      i :| 0 <= i < |p| - 1 && p[i] == x;
      j := |p| - 1;
    } else {
      forall y | y in Init(p) ensures y in s - {x} {
        assert y in p;
      }
      assert x in p;
      assert |s - {x}| == |s| - 1;
      i, j := Pigeonhole(Init(p), s - {x});
    }
  }

  lemma SubPath(g: Graph, p: seq<Name>, i: nat, j: nat)
    requires Path(g, p) && i < j < |p|
    ensures Path(g, p[i..j + 1])
  {
    var q := p[i..j + 1];
    forall k | 0 <= k < |q| - 1 ensures Edge(g, q[k], q[k + 1]) {
      assert Edge(g, p[i + k], p[i + k + 1]);
    }
  }

  lemma PredClosedIsCyclic(g: Graph, s: set<Name>)
    requires s != {} && PredClosed(g, s)
    ensures Cyclic(g)
  {
    var p := BackwardPath(g, s, |s|);
    var i, j := Pigeonhole(p, s);
    SubPath(g, p, i, j);
    assert Cycle(g, p[i..j + 1]);
  }

  // ---- cycles are looping sets ----

  /** Everyone on a cycle has a neighbour on it on either side. */
  lemma CycleNeighbours(g: Graph, p: seq<Name>, i: nat)
    requires Cycle(g, p) && i < |p|
    ensures HasPred(g, Elements(p), p[i]) && HasSucc(g, Elements(p), p[i])
  {
    var before := if i == 0 then |p| - 2 else i - 1;
    var after := if i == |p| - 1 then 1 else i + 1;
    assert Edge(g, p[before], p[before + 1]) && p[before] in Elements(p);
    assert Edge(g, p[after - 1], p[after]) && p[after] in Elements(p);
  }

  lemma CycleIsLooping(g: Graph, p: seq<Name>)
    requires Cycle(g, p)
    ensures Looping(g, Elements(p))
  {
    forall x | x in Elements(p) ensures HasPred(g, Elements(p), x) && HasSucc(g, Elements(p), x) {
      var i :| 0 <= i < |p| && p[i] == x;
      CycleNeighbours(g, p, i);
    }
  }
}
