/** `parseProxies` end to end: leaves, the in-place sort of the groups, and their construction in that order. */
module Configuration {
  import opened Arrangement
  import opened Fallbacks
  import opened Graphs
  import opened Registry
  import opened Seqs
  import DagSort
  import GroupSort

  function Sources(gs: seq<DagSort.Group>): (r: seq<nat>)
    ensures |r| == |gs| && forall i :: 0 <= i < |gs| ==> r[i] == gs[i].source
  {
    seq(|gs|, i requires 0 <= i < |gs| => gs[i].source)
  }

  /** The groups have distinct names and do not refer to each other in a circle. */
  ghost predicate Sortable(os: seq<GroupOption>) {
    DagSort.DistinctNames(AsGroups(os)) && !Cyclic(DagSort.References(AsGroups(os)))
  }

  /** Each group of a permutation still carries the place it was read from. */
  lemma {:induction false} SourcesPermute(os: seq<GroupOption>, gs: seq<DagSort.Group>)
    requires multiset(gs) == multiset(AsGroups(os)) && DagSort.DistinctNames(AsGroups(os))
    ensures Permutes(Sources(gs), |os|)
    ensures forall i :: 0 <= i < |gs| ==>
              gs[i].name == os[gs[i].source].name && gs[i].proxies == os[gs[i].source].proxies
  {
    assert |gs| == |multiset(gs)| == |multiset(AsGroups(os))| == |os|;
    forall i | 0 <= i < |gs| ensures gs[i].source < |os| && gs[i] == AsGroups(os)[gs[i].source] {
      assert gs[i] in multiset(gs);
      assert gs[i] in AsGroups(os);
    }
    forall i, j | 0 <= i < j < |gs| ensures gs[i].source != gs[j].source {
      OnlyOnce(AsGroups(os), gs, i, j);
    }
  }

  /** Distinct groups stay distinct under a permutation. */
  lemma {:induction false} OnlyOnce(a: seq<DagSort.Group>, gs: seq<DagSort.Group>, i: nat, j: nat)
    requires multiset(gs) == multiset(a) && DagSort.DistinctNames(a) && i < j < |gs|
    requires forall k :: 0 <= k < |gs| ==> gs[k].source < |a| && gs[k] == a[gs[k].source]
    ensures gs[i].source != gs[j].source
  {
    assert NoDup(a);
    DagSort.NoDupCount(a, gs[i]);
    TwiceCounts(gs, i, j);
  }

  lemma {:induction false} TwiceCounts(gs: seq<DagSort.Group>, i: nat, j: nat)
    requires i < j < |gs|
    ensures gs[i] == gs[j] ==> multiset(gs)[gs[i]] >= 2
  {
    assert gs == gs[..j] + [gs[j]] + gs[j + 1..];
    assert gs[..j][i] == gs[i];
  }

  lemma {:induction false} ArrangedIsSorted(os: seq<GroupOption>, gs: seq<DagSort.Group>)
    requires Permutes(Sources(gs), |os|) && DagSort.Sorted(gs)
    requires forall i :: 0 <= i < |gs| ==>
               gs[i].name == os[gs[i].source].name && gs[i].proxies == os[gs[i].source].proxies
    ensures DagSort.Sorted(AsGroups(Arrange(os, Sources(gs))))
  {
    var arranged := AsGroups(Arrange(os, Sources(gs)));
    forall i, j | 0 <= i <= j < |arranged| ensures arranged[j].name !in arranged[i].proxies {
      assert gs[j].name !in gs[i].proxies;
    }
  }

  /** The groups in the order the sort left, or its error. */
  method SortGroups(os: seq<GroupOption>)
    returns (sorted: seq<GroupOption>, err: Option<DagSort.Error>, ghost order: seq<nat>)
    ensures err == None <==> Sortable(os)
    ensures err == None ==> Permutes(order, |os|) && sorted == Arrange(os, order) && DagSort.Sorted(AsGroups(sorted))
  {
    var gs := AsGroups(os);
    var groups := new DagSort.Group[|os|](i requires 0 <= i < |gs| => gs[i]);
    assert groups[..] == gs;
    err := GroupSort.ProxyGroupsDagSort(groups);
    sorted, order := os, [];
    if err == None {
      SourcesPermute(os, groups[..]);
      ArrangedIsSorted(os, groups[..]);
      order := Sources(groups[..]);
      sorted := Arrange(os, Sources(groups[..]));
    }
  }

  /** What a parsed registry looks like: `os` are the groups as configured. */
  ghost predicate WellBuilt(reg: Reg, os: seq<GroupOption>) {
    && Layered(reg) && "GLOBAL" in reg.proxies && (forall i :: 0 <= i < |os| ==> os[i].name in reg.proxies)
    && Groups(reg.store) == |os| + if "GLOBAL" in NamesOf(os) then 0 else 1
  }

  /** The name is no configured proxy and no built-in one. */
  ghost predicate NoLeaf(n: Name, leaves: seq<(Name, Kind)>) {
    && (forall i :: 0 <= i < |leaves| ==> leaves[i].0 != n)
    && (forall i :: 0 <= i < |BUILT_IN| ==> BUILT_IN[i].0 != n)
  }

  /** Nor is it a group. */
  ghost predicate Unknown(n: Name, leaves: seq<(Name, Kind)>, os: seq<GroupOption>) {
    NoLeaf(n, leaves) && forall i :: 0 <= i < |os| ==> os[i].name != n
  }

  lemma {:induction false} LeavesAreNamed(leaves: seq<(Name, Kind)>, providers: map<Name, Provider>, n: Name)
    requires AddLeaves(Reg([], map[], providers), BUILT_IN + leaves).Ok?
    requires n !in AddLeaves(Reg([], map[], providers), BUILT_IN + leaves).value.proxies
    ensures NoLeaf(n, leaves)
  {
    AddLeavesLayered(Reg([], map[], providers), BUILT_IN + leaves);
    forall i | 0 <= i < |leaves| ensures leaves[i].0 != n {
      assert (BUILT_IN + leaves)[|BUILT_IN| + i] == leaves[i];
    }
    forall i | 0 <= i < |BUILT_IN| ensures BUILT_IN[i].0 != n {
      assert (BUILT_IN + leaves)[i] == BUILT_IN[i];
    }
  }

  /** A fallback that is not found is no leaf; and no group either if references lead to every group fallen back to. */
  lemma {:induction false} ArrangedFallback(leaves: seq<(Name, Kind)>, os: seq<GroupOption>, order: seq<nat>,
                                            providers: map<Name, Provider>, allProxies: seq<Name>,
                                            allProviders: seq<Name>)
    requires Distinct(os) && Permutes(order, |os|) && InOrder(os, order)
    requires forall n :: n in NamesIn(os) ==> n in NamesOf(Arrange(os, order))
    ensures var r := Parsed(leaves, NamesIn(os), Arrange(os, order), providers, allProxies, allProviders);
            r.Err? && r.error.FallbackNotFound? ==>
              NoLeaf(r.error.name, leaves) && (AllReached(os) ==> Unknown(r.error.name, leaves, os))
  {
    var r := Parsed(leaves, NamesIn(os), Arrange(os, order), providers, allProxies, allProviders);
    var built := AddLeaves(Reg([], map[], providers), BUILT_IN + leaves);
    LeafErrors(Reg([], map[], providers), BUILT_IN + leaves);
    if built.Ok? {
      FallbackMissing(built.value, os, order, allProxies, allProviders);
      if r.Err? && r.error.FallbackNotFound? {
        LeavesAreNamed(leaves, providers, r.error.name);
        NamesListed(os, r.error.name);
      }
    }
  }

  lemma {:induction false} ArrangedResult(leaves: seq<(Name, Kind)>, os: seq<GroupOption>, order: seq<nat>,
                                          providers: map<Name, Provider>,
                                          allProxies: seq<Name>, allProviders: seq<Name>)
    requires Permutes(order, |os|) && DagSort.Sorted(AsGroups(Arrange(os, order)))
    requires forall n :: n in allProxies ==> n in Offered(leaves, [])
    ensures forall n :: n in NamesIn(os) ==> n in NamesOf(Arrange(os, order))
    ensures var r := Parsed(leaves, NamesIn(os), Arrange(os, order), providers, allProxies, allProviders);
            && (r.Ok? ==> WellBuilt(r.value, os))
            && (r.Err? && r.error.MemberNotFound? ==> Unknown(r.error.name, leaves, os))
  {
    forall n ensures n in NamesOf(Arrange(os, order)) <==> n in NamesOf(os) {
      SameNames(os, order, n);
    }
    forall n | n in NamesIn(os) ensures n in NamesOf(os) {
      NamesListed(os, n);
    }
    ParsedIsLayered(leaves, NamesIn(os), Arrange(os, order), providers, allProxies, allProviders);
    ParsedFindsMembers(leaves, NamesIn(os), Arrange(os, order), providers, allProxies, allProviders);
    var r := Parsed(leaves, NamesIn(os), Arrange(os, order), providers, allProxies, allProviders);
    if r.Ok? {
      forall i | 0 <= i < |os| ensures os[i].name in r.value.proxies {
        assert NamesIn(os)[i] in NamesIn(os);
      }
    }
    if r.Err? && r.error.MemberNotFound? {
      forall i | 0 <= i < |os| ensures os[i].name != r.error.name {
        var j := PlaceOf(order, i);
        assert Arrange(os, order)[j] == os[i];
      }
    }
  }

  /** `r` is what the groups, rearranged so that each stands after those it lists, are built into. */
  ghost predicate BuiltFrom(r: Result<Reg>, leaves: seq<(Name, Kind)>, os: seq<GroupOption>, order: seq<nat>,
                            providers: map<Name, Provider>, allProxies: seq<Name>, allProviders: seq<Name>)
  {
    && Permutes(order, |os|) && DagSort.Sorted(AsGroups(Arrange(os, order)))
    && (forall n :: n in NamesIn(os) ==> n in NamesOf(Arrange(os, order)))
    && r == Parsed(leaves, NamesIn(os), Arrange(os, order), providers, allProxies, allProviders)
  }

  /**
   The whole of it: leaves, sort, groups, GLOBAL. Once the groups are sortable, a failed member lookup
   concerns a name nobody has, and so does a failed fallback lookup if references lead to every group fallen
   back to. From any proxy of a registry that was built, whatever the groups select at each step, unwrapping
   passes at most all the groups and one adapter more.
   */
  method ParseProxies(leaves: seq<(Name, Kind)>, os: seq<GroupOption>, providers: map<Name, Provider>,
                      allProxies: seq<Name>, allProviders: seq<Name>) returns (r: Result<Reg>)
    requires forall n :: n in allProxies ==> n in Offered(leaves, [])
    ensures var built := AddLeaves(Reg([], map[], providers), BUILT_IN + leaves);
            if built.Err? then r == Err(built.error) else r.Err? && r.error.Unsorted? <==> !Sortable(os)
    ensures AddLeaves(Reg([], map[], providers), BUILT_IN + leaves).Ok? && Sortable(os) ==>
              exists order :: BuiltFrom(r, leaves, os, order, providers, allProxies, allProviders)
    ensures r.Ok? ==> WellBuilt(r.value, os)
    ensures r.Err? && r.error.MemberNotFound? ==> Unknown(r.error.name, leaves, os)
    ensures r.Err? && r.error.FallbackNotFound? ==>
              NoLeaf(r.error.name, leaves) && (AllReached(os) ==> Unknown(r.error.name, leaves, os))
    ensures r.Ok? ==>
              forall n, w :: n in r.value.proxies && Walk(r.value.store, w) && w[0] == Known(r.value.proxies[n]) ==>
                        |w| <= |os| + (if "GLOBAL" in NamesOf(os) then 0 else 1) + 1
  {
    r := BuildLeaves(Reg([], map[], providers), BUILT_IN + leaves);
    if r.Err? {
      LeafErrors(Reg([], map[], providers), BUILT_IN + leaves);
      return;
    }
    var sorted, err, order := SortGroups(os);
    if err.Some? {
      return Err(Unsorted(err.value));
    }
    ArrangedResult(leaves, os, order, providers, allProxies, allProviders);
    GroupErrors(r.value, sorted, allProxies, allProviders);
    SortedIsInOrder(os, order);
    ArrangedFallback(leaves, os, order, providers, allProxies, allProviders);
    r := BuildRest(r.value, leaves, NamesIn(os), sorted, providers, allProxies, allProviders);
    assert BuiltFrom(r, leaves, os, order, providers, allProxies, allProviders);
    if r.Ok? {
      forall n, w | n in r.value.proxies && Walk(r.value.store, w) && w[0] == Known(r.value.proxies[n])
        ensures |w| <= |os| + (if "GLOBAL" in NamesOf(os) then 0 else 1) + 1
      {
        WalkFits(r.value.store, w);
      }
    }
  }
}
