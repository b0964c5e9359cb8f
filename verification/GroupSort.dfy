/** `proxyGroupsDagSort` as a whole: sorts the groups in place, or says why it cannot. */
module GroupSort {
  import opened Seqs
  import opened Graphs
  import opened DagSort
  import opened LoopLocate

  lemma NoLoopsAcyclic(g: Graph)
    requires HoldsLoops(g, {})
    ensures !Cyclic(g)
  {
    forall p | Cycle(g, p) ensures false {
      assert p[0] in Elements(p);
      CycleIsLooping(g, p);
    }
  }

  lemma LoopsFound(g: Graph, s: set<Name>, elements: seq<Name>)
    requires s != {} && PredClosed(g, s)
    requires HoldsLoops(g, Elements(elements))
    ensures Cyclic(g) && elements != []
    ensures forall x :: OnCycle(g, x) ==> x in elements
  {
    PredClosedIsCyclic(g, s);
    forall x | OnCycle(g, x) ensures x in elements {
      var p :| Cycle(g, p) && x in p;
      CycleIsLooping(g, p);
      assert x in Elements(p);
    }
    var p :| Cycle(g, p);
    assert p[0] in p && OnCycle(g, p[0]);
  }

  /** The stuck graph, seen as references among names. */
  lemma RemainingIsLinked(graph: map<Name, Node>, gs: seq<Group>)
    requires DistinctNames(gs) && Remaining(graph, gs, [])
    ensures Linked(graph, References(gs))
  {
    var g := References(gs);
    forall y | y in graph ensures ListOf(g, y) == match graph[y].group case Some(h) => h.proxies case None => [] {
      if y in g {
        var i :| 0 <= i < |gs| && gs[i].name == y && g[y] == gs[i].proxies;
        assert gs[i] in gs;
      }
    }
    forall y, x | y in graph && x in ListOf(g, y) ensures x in graph {
      ListedFromLeft(gs, graph.Keys, y, x);
    }
  }

  lemma StuckIsPredClosed(gs: seq<Group>, left: set<Name>)
    requires DistinctNames(gs) && forall x :: x in left ==> Refs(gs, left, x) > 0
    ensures PredClosed(References(gs), left)
  {
    forall x | x in left ensures HasPred(References(gs), left, x) {
      RefsFrom(gs, left, x);
      var i :| 0 <= i < |gs| && gs[i].name in left && x in gs[i].proxies;
      ReferencesAt(gs, i);
      assert Edge(References(gs), gs[i].name, x);
    }
  }

  /**
   For every order in which the maps are walked: accepts exactly the acyclic configurations with
   distinct names, and then every group stands after each group it lists. A reported loop is the
   greatest set in which every name has a predecessor and a successor, so every group on a cycle is in it.
   */
  method ProxyGroupsDagSort(groups: array<Group>) returns (err: Option<Error>)
    modifies groups
    ensures err == None <==> DistinctNames(old(groups[..])) && !Cyclic(References(old(groups[..])))
    ensures err == None ==> Sorted(groups[..]) && multiset(groups[..]) == multiset(old(groups[..]))
    ensures err.Some? && err.value.Duplicate? ==>
              Repeated(old(groups[..]), err.value.name) && groups[..] == old(groups[..])
    ensures err.Some? && err.value.Loop? ==>
              var g, es := References(old(groups[..])), err.value.elements;
              && DistinctNames(old(groups[..])) && es != [] && NoDup(es)
              && Looping(g, Elements(es)) && HoldsLoops(g, Elements(es))
              && forall x :: OnCycle(g, x) ==> x in es
  {
    ghost var gs := groups[..];
    var graph, dup := BuildGraph(groups[..]);
    if dup.Some? {
      return Some(Duplicate(dup.value));
    }
    graph := TopoSort(groups, graph, gs);
    if graph.Keys == {} {
      NoLoopsAcyclic(References(gs));
      return None;
    }
    RemainingIsLinked(graph, gs);
    StuckIsPredClosed(gs, graph.Keys);
    var elements := Locate(graph, References(gs));
    LoopsFound(References(gs), graph.Keys, elements);
    err := Some(Loop(elements));
  }
}
