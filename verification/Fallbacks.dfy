/** When the empty fallbacks of sorted groups are found: exactly when references lead to them. */
module Fallbacks {
  import opened Arrangement
  import opened Graphs
  import opened Registry
  import opened Seqs
  import DagSort

  /** The references among the groups, through their `proxies` lists. */
  function Links(os: seq<GroupOption>): Graph { DagSort.References(AsGroups(os)) }

  /** At least one reference leads from `a` to `b`. */
  ghost predicate Leads(g: Graph, a: Name, b: Name) {
    exists p :: Path(g, p) && |p| >= 2 && p[0] == a && Last(p) == b
  }

  /** A fallback that names a group names one to which references lead from the group that falls back. */
  ghost predicate Reached(os: seq<GroupOption>, i: nat)
    requires i < |os|
  {
    FallbackName(os[i]) in NamesOf(os) ==> Leads(Links(os), os[i].name, FallbackName(os[i]))
  }

  ghost predicate AllReached(os: seq<GroupOption>) {
    forall i :: 0 <= i < |os| ==> Reached(os, i)
  }

  /** A fallback that names a group names one that stands before the group that falls back. */
  ghost predicate Precedes(os: seq<GroupOption>, i: nat)
    requires i < |os|
  {
    FallbackName(os[i]) in NamesOf(os) ==> FallbackName(os[i]) in NamesOf(os[..i])
  }

  ghost predicate AllPrecede(os: seq<GroupOption>) {
    forall i :: 0 <= i < |os| ==> Precedes(os, i)
  }

  ghost predicate Distinct(os: seq<GroupOption>) {
    DagSort.DistinctNames(AsGroups(os))
  }

  /** The order `order` of the groups `os` is sorted: each group stands after those it lists. */
  ghost predicate InOrder(os: seq<GroupOption>, order: seq<nat>) {
    && (forall i :: 0 <= i < |order| ==> order[i] < |os|)
    && forall i, j :: 0 <= i <= j < |order| ==> os[order[j]].name !in os[order[i]].proxies
  }

  lemma {:induction false} SortedIsInOrder(os: seq<GroupOption>, order: seq<nat>)
    requires forall i :: 0 <= i < |order| ==> order[i] < |os|
    ensures InOrder(os, order) <==> DagSort.Sorted(AsGroups(Arrange(os, order)))
  {
    var gs := AsGroups(Arrange(os, order));
    forall i, j | 0 <= i <= j < |order|
      ensures gs[j].name in gs[i].proxies <==> os[order[j]].name in os[order[i]].proxies
    {
    }
    if !InOrder(os, order) {
      var i, j :| 0 <= i <= j < |order| && os[order[j]].name in os[order[i]].proxies;
      assert gs[j].name in gs[i].proxies;
    }
  }

  // ---- references lead to earlier places ----

  /** The place of a name in an order. */
  ghost predicate At(os: seq<GroupOption>, order: seq<nat>, i: nat, n: Name)
    requires forall k :: 0 <= k < |order| ==> order[k] < |os|
  {
    i < |order| && os[order[i]].name == n
  }

  lemma {:induction false} LinkIsListed(os: seq<GroupOption>, a: Name, b: Name)
    requires Distinct(os) && Edge(Links(os), a, b)
    ensures exists k :: 0 <= k < |os| && os[k].name == a && b in os[k].proxies
  {
    DagSort.EdgesAreListed(AsGroups(os), a, b);
    var k :| 0 <= k < |os| && AsGroups(os)[k].name == a && b in AsGroups(os)[k].proxies;
    assert os[k].name == a;
  }

  lemma {:induction false} ListedIsLink(os: seq<GroupOption>, k: nat, b: Name)
    requires Distinct(os) && k < |os| && b in os[k].proxies
    ensures Edge(Links(os), os[k].name, b)
  {
    assert AsGroups(os)[k].name == os[k].name && b in AsGroups(os)[k].proxies;
    DagSort.EdgesAreListed(AsGroups(os), os[k].name, b);
  }

  lemma {:induction false} SameName(os: seq<GroupOption>, i: nat, j: nat)
    requires Distinct(os) && i < |os| && j < |os| && os[i].name == os[j].name
    ensures i == j
  {
    assert AsGroups(os)[i].name == AsGroups(os)[j].name;
  }

  /** One reference: its target stands earlier. */
  lemma {:induction false} LinkFalls(os: seq<GroupOption>, order: seq<nat>, i: nat, j: nat)
    requires Distinct(os) && Permutes(order, |os|) && InOrder(os, order) && i < |order| && j < |order|
    requires Edge(Links(os), os[order[i]].name, os[order[j]].name)
    ensures j < i
  {
    LinkIsListed(os, os[order[i]].name, os[order[j]].name);
    var k :| 0 <= k < |os| && os[k].name == os[order[i]].name && os[order[j]].name in os[k].proxies;
    SameName(os, k, order[i]);
  }

  /** Whoever lists somebody is a group, and has a place. */
  lemma {:induction false} PlaceOfLinked(os: seq<GroupOption>, order: seq<nat>, a: Name, b: Name) returns (m: nat)
    requires Distinct(os) && Permutes(order, |os|) && Edge(Links(os), a, b)
    ensures At(os, order, m, a)
  {
    LinkIsListed(os, a, b);
    var k :| 0 <= k < |os| && os[k].name == a && b in os[k].proxies;
    m := PlaceOf(order, k);
  }

  /** Along references, places fall in every sorted order. */
  lemma {:induction false} PathComesFirst(os: seq<GroupOption>, order: seq<nat>, p: seq<Name>, i: nat, j: nat)
    requires Distinct(os) && Permutes(order, |os|) && InOrder(os, order)
    requires Path(Links(os), p) && |p| >= 2 && At(os, order, i, p[0]) && At(os, order, j, Last(p))
    ensures j < i
    decreases |p|
  {
    assert Edge(Links(os), p[0], p[1]);
    if |p| == 2 {
      LinkFalls(os, order, i, j);
    } else {
      assert Edge(Links(os), p[1], p[2]);
      var m := PlaceOfLinked(os, order, p[1], p[2]);
      LinkFalls(os, order, i, m);
      SubPath(Links(os), p, 1, |p| - 1);
      assert p[1..|p|] == p[1..];
      PathComesFirst(os, order, p[1..], m, j);
    }
  }

  lemma {:induction false} ReachedPrecede(os: seq<GroupOption>, order: seq<nat>)
    requires Distinct(os) && Permutes(order, |os|) && InOrder(os, order) && AllReached(os)
    ensures AllPrecede(Arrange(os, order))
  {
    var arranged := Arrange(os, order);
    forall i | 0 <= i < |arranged| ensures Precedes(arranged, i) {
      var f := FallbackName(arranged[i]);
      SameNames(os, order, f);
      assert Reached(os, order[i]);
      if f in NamesOf(arranged) {
        var p :| Path(Links(os), p) && |p| >= 2 && p[0] == arranged[i].name && Last(p) == f;
        NamesListed(arranged, f);
        var j :| 0 <= j < |arranged| && arranged[j].name == f;
        PathComesFirst(os, order, p, i, j);
        assert arranged[..i][j].name == f;
      }
    }
  }

  // ---- and a fallback no reference leads to can be left until later ----

  /** The places of `order` whose group's name is in `s`, or is not, in order. */
  function Keep(os: seq<GroupOption>, order: seq<nat>, s: set<Name>, inside: bool): (r: seq<nat>)
    requires forall i :: 0 <= i < |order| ==> order[i] < |os|
    ensures forall k :: k in r ==> k in order && k < |os| && (os[k].name in s <==> inside)
    ensures forall k :: k in order && (os[k].name in s <==> inside) ==> k in r
  {
    if order == [] then [] else
    assert order == Init(order) + [Last(order)];
    Keep(os, Init(order), s, inside) + if os[Last(order)].name in s <==> inside then [Last(order)] else []
  }

  lemma {:induction false} KeepNoDup(os: seq<GroupOption>, order: seq<nat>, s: set<Name>, inside: bool)
    requires NoDup(order) && forall i :: 0 <= i < |order| ==> order[i] < |os|
    ensures NoDup(Keep(os, order, s, inside))
  {
    if order != [] {
      assert order == Init(order) + [Last(order)] && Last(order) !in Init(order);
      KeepNoDup(os, Init(order), s, inside);
    }
  }

  lemma {:induction false} KeepSizes(os: seq<GroupOption>, order: seq<nat>, s: set<Name>)
    requires forall i :: 0 <= i < |order| ==> order[i] < |os|
    ensures |Keep(os, order, s, true)| + |Keep(os, order, s, false)| == |order|
  {
    if order != [] {
      KeepSizes(os, Init(order), s);
    }
  }

  lemma {:induction false} KeepInOrder(os: seq<GroupOption>, order: seq<nat>, s: set<Name>, inside: bool)
    requires InOrder(os, order)
    ensures InOrder(os, Keep(os, order, s, inside))
  {
    if order != [] {
      var rest, k := Init(order), Last(order);
      KeepInOrder(os, rest, s, inside);
      var kept := Keep(os, rest, s, inside);
      assert order[|order| - 1] == k && os[k].name !in os[k].proxies;
      forall i | 0 <= i < |kept| ensures os[k].name !in os[kept[i]].proxies {
        assert kept[i] in rest;
        var j :| 0 <= j < |rest| && rest[j] == kept[i];
        assert order[j] == kept[i];
      }
    }
  }

  /** What lies on a path from `a`, `a` included. */
  ghost predicate Under(g: Graph, a: Name, n: Name) {
    n == a || Leads(g, a, n)
  }

  lemma {:induction false} LeadsOn(g: Graph, a: Name, b: Name, c: Name)
    requires Under(g, a, b) && Edge(g, b, c)
    ensures Leads(g, a, c)
  {
    if b == a {
      assert Path(g, [a, c]) && Last([a, c]) == c;
    } else {
      var p :| Path(g, p) && |p| >= 2 && p[0] == a && Last(p) == b;
      var q := p + [c];
      forall i | 0 <= i < |q| - 1 ensures Edge(g, q[i], q[i + 1]) {
        if i < |p| - 1 { assert Edge(g, p[i], p[i + 1]); }
      }
      assert Path(g, q) && Last(q) == c;
    }
  }

  /** `s` holds the names of groups under `a`. */
  ghost predicate IsUnder(os: seq<GroupOption>, a: Name, s: set<Name>) {
    && (forall n :: n in s ==> n in NamesOf(os) && Under(Links(os), a, n))
    && (forall n :: n in NamesOf(os) && Under(Links(os), a, n) ==> n in s)
  }

  /** Nobody under `a` lists a group that is not. */
  lemma {:induction false} ListsOnlyUnder(os: seq<GroupOption>, a: Name, s: set<Name>, i: nat, j: nat)
    requires Distinct(os) && IsUnder(os, a, s) && i < |os| && j < |os| && os[i].name in s && os[j].name !in s
    ensures os[j].name !in os[i].proxies
  {
    NamesListed(os, os[j].name);
    if os[j].name in os[i].proxies {
      ListedIsLink(os, i, os[j].name);
      LeadsOn(Links(os), a, os[i].name, os[j].name);
    }
  }

  /** Two sorted runs of places of which the first lists none of the second. */
  lemma {:induction false} OneAfterOther(os: seq<GroupOption>, x: seq<nat>, y: seq<nat>)
    requires InOrder(os, x) && InOrder(os, y)
    requires forall i, j :: 0 <= i < |x| && 0 <= j < |y| ==> os[y[j]].name !in os[x[i]].proxies
    ensures InOrder(os, x + y)
  {
  }

  lemma {:induction false} SplitPermutes(os: seq<GroupOption>, order: seq<nat>, s: set<Name>)
    requires Permutes(order, |os|)
    ensures Permutes(Keep(os, order, s, true) + Keep(os, order, s, false), |os|)
  {
    var x, y := Keep(os, order, s, true), Keep(os, order, s, false);
    KeepNoDup(os, order, s, true);
    KeepNoDup(os, order, s, false);
    KeepSizes(os, order, s);
    NoDupConcat(x, y);
    forall i | 0 <= i < |x + y| ensures (x + y)[i] < |os| {
      assert (x + y)[i] in x || (x + y)[i] in y;
    }
  }

  /** Everything under `a` first, the rest after it: sorted as well. */
  lemma {:induction false} Hoisted(os: seq<GroupOption>, order: seq<nat>, a: Name, s: set<Name>)
    requires Distinct(os) && Permutes(order, |os|) && InOrder(os, order) && IsUnder(os, a, s)
    ensures var hoisted := Keep(os, order, s, true) + Keep(os, order, s, false);
            Permutes(hoisted, |os|) && InOrder(os, hoisted)
  {
    var x, y := Keep(os, order, s, true), Keep(os, order, s, false);
    SplitPermutes(os, order, s);
    KeepInOrder(os, order, s, true);
    KeepInOrder(os, order, s, false);
    forall i, j | 0 <= i < |x| && 0 <= j < |y| ensures os[y[j]].name !in os[x[i]].proxies {
      assert x[i] in x && y[j] in y;
      ListsOnlyUnder(os, a, s, x[i], y[j]);
    }
    OneAfterOther(os, x, y);
  }

  /** Before the place of group `i` among those under it, nobody has a name it is not led to. */
  lemma {:induction false} NotYet(os: seq<GroupOption>, x: seq<nat>, k: nat, i: nat, f: Name)
    requires Distinct(os) && i < |os| && NoDup(x) && k < |x| && x[k] == i
    requires forall m :: 0 <= m < |x| ==> x[m] < |os|
    requires forall m :: 0 <= m < |x| && os[x[m]].name == f ==> f == os[i].name
    ensures forall m :: 0 <= m < k ==> os[x[m]].name != f
  {
    forall m | 0 <= m < k ensures os[x[m]].name != f {
      if os[x[m]].name == f { SameName(os, x[m], i); }
    }
  }

  lemma {:induction false} NamesBefore(os: seq<GroupOption>, order: seq<nat>, k: nat, f: Name)
    requires (forall m :: 0 <= m < |order| ==> order[m] < |os|) && k <= |order|
    requires forall m :: 0 <= m < k ==> os[order[m]].name != f
    ensures f !in NamesOf(Arrange(os, order)[..k])
  {
    var before := Arrange(os, order)[..k];
    NamesListed(before, f);
    forall m | 0 <= m < |before| ensures before[m].name != f {
      assert before[m] == os[order[m]];
    }
  }

  /** Where group `i` stands among those under it, and that nobody before it there is its fallback. */
  lemma {:induction false} PlaceUnder(os: seq<GroupOption>, order: seq<nat>, s: set<Name>, x: seq<nat>, i: nat, f: Name)
    returns (k: nat)
    requires Distinct(os) && Permutes(order, |os|) && x == Keep(os, order, s, true)
    requires i < |os| && os[i].name in s && (f in s ==> f == os[i].name)
    ensures k < |x| && x[k] == i && forall m :: 0 <= m < k ==> x[m] < |os| && os[x[m]].name != f
  {
    var at := PlaceOf(order, i);
    assert i in x;
    k :| 0 <= k < |x| && x[k] == i;
    KeepNoDup(os, order, s, true);
    forall m | 0 <= m < |x| ensures x[m] < |os| && (os[x[m]].name == f ==> f == os[i].name) {
      assert x[m] in x;
    }
    NotYet(os, x, k, i, f);
  }

  /** A fallback that names a group no reference leads to: some sorted order leaves that group until later. */
  lemma {:induction false} UnreachedCanWait(os: seq<GroupOption>, order: seq<nat>, i: nat) returns (late: seq<nat>)
    requires Distinct(os) && Permutes(order, |os|) && InOrder(os, order) && i < |os| && !Reached(os, i)
    ensures Permutes(late, |os|) && InOrder(os, late) && !AllPrecede(Arrange(os, late))
  {
    var a, f := os[i].name, FallbackName(os[i]);
    var s := set n | n in NamesOf(os) && Under(Links(os), a, n);
    assert a in s by { NamesListed(os, a); }
    var x := Keep(os, order, s, true);
    late := x + Keep(os, order, s, false);
    Hoisted(os, order, a, s);
    var k := PlaceUnder(os, order, s, x, i, f);
    LateFallback(os, late, k, i);
  }

  lemma {:induction false} LateFallback(os: seq<GroupOption>, late: seq<nat>, k: nat, i: nat)
    requires Permutes(late, |os|) && k < |late| && late[k] == i && FallbackName(os[i]) in NamesOf(os)
    requires forall m :: 0 <= m < k ==> os[late[m]].name != FallbackName(os[i])
    ensures !AllPrecede(Arrange(os, late))
  {
    NamesBefore(os, late, k, FallbackName(os[i]));
    SameNames(os, late, FallbackName(os[i]));
    assert Arrange(os, late)[k] == os[i];
    assert !Precedes(Arrange(os, late), k);
  }

  /**
   Whichever sorted order the groups are built in, every fallback that names a group names one built before:
   exactly when references lead from each group to the group it falls back to. `order` is any sorted order.
   */
  lemma {:induction false} FallbacksPrecede(os: seq<GroupOption>, order: seq<nat>)
    requires Distinct(os) && Permutes(order, |os|) && InOrder(os, order)
    ensures AllReached(os) <==>
              forall any :: Permutes(any, |os|) && InOrder(os, any) ==> AllPrecede(Arrange(os, any))
  {
    if AllReached(os) {
      forall any | Permutes(any, |os|) && InOrder(os, any) ensures AllPrecede(Arrange(os, any)) {
        ReachedPrecede(os, any);
      }
    } else {
      var i :| 0 <= i < |os| && !Reached(os, i);
      var late := UnreachedCanWait(os, order, i);
    }
  }

  /**
   Built in a sorted order, a fallback that is not found is no name known before; if all are reached, no
   group either.
   */
  lemma {:induction false} FallbackMissing(reg: Reg, os: seq<GroupOption>, order: seq<nat>, allProxies: seq<Name>,
                                           allProviders: seq<Name>)
    requires Distinct(os) && Permutes(order, |os|) && InOrder(os, order)
    ensures var r := AddGroups(reg, Arrange(os, order), allProxies, allProviders);
            r.Err? && r.error.FallbackNotFound? ==>
              r.error.name !in reg.proxies && (AllReached(os) ==> r.error.name !in NamesOf(os))
  {
    var arranged := Arrange(os, order);
    var r := AddGroups(reg, arranged, allProxies, allProviders);
    if r.Err? && r.error.FallbackNotFound? {
      var i := FallbackFailureAt(reg, arranged, allProxies, allProviders);
      SameNames(os, order, r.error.name);
      if AllReached(os) {
        ReachedPrecede(os, order);
        assert Precedes(arranged, i);
      }
    }
  }
}
