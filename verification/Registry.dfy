/** Building the proxy groups in sorted order, and unwrapping nested groups at match time. */
module Registry {
  import opened Seqs
  import opened Graphs
  import DagSort

  /** What the unwrapping walks look for; every other adapter type counts as `Plain`. */
  datatype Kind = Pass | PassRule | Plain

  /**
   An adapter object, identified by its place in the store. `external`: the group also draws from proxy
   providers, whose contents are leaves from outside the store.
   */
  datatype Adapter = Leaf(kind: Kind) | Group(members: seq<nat>, fallback: nat, external: bool)

  datatype Provider = External | Compatible(members: seq<nat>)

  datatype Reg = Reg(store: seq<Adapter>, proxies: map<Name, nat>, providers: map<Name, Provider>)

  /** The group types; `relay` was removed from the repository, and an empty type is a format error. */
  datatype GroupType = NoType | UrlTest | Select | Fallback | LoadBalance | Unsupported

  /**
   A decoded group; `emptyFallback` absent for COMPATIBLE; `filters` empty for no filter, a filter being the
   names it matches.
   */
  datatype GroupOption = GroupOption(
    name: Name, groupType: GroupType, proxies: seq<Name>, use: seq<Name>, emptyFallback: Option<Name>,
    includeAll: bool, includeAllProxies: bool, includeAllProviders: bool, filters: seq<Name -> bool>)

  datatype Error =
    | BadFormat
    | FallbackNotFound(name: Name)
    | MissingProxy
    | ProviderNotFound(name: Name)
    | GroupInUse(name: Name)
    | MemberNotFound(name: Name)
    | DuplicateProvider
    | BadType
    | DuplicateName(name: Name)
    | Unsorted(error: DagSort.Error)

  datatype Result<+T> = Ok(value: T) | Err(error: Error)

  // ---- member resolution ----

  /** `getProxies`: every name looked up, in order; the first unknown one is an error. */
  function Resolve(proxies: map<Name, nat>, list: seq<Name>): (r: Result<seq<nat>>)
    ensures r.Ok? ==> forall i :: 0 <= i < |list| ==> list[i] in proxies
    ensures r.Ok? ==> |r.value| == |list| && forall i :: 0 <= i < |list| ==> r.value[i] == proxies[list[i]]
    ensures r.Err? ==> r.error.MemberNotFound? && r.error.name in list && r.error.name !in proxies
  {
    if list == [] then Ok([]) else
    match Resolve(proxies, Init(list))
    case Err(e) => Err(e)
    case Ok(ps) => if Last(list) in proxies then Ok(ps + [proxies[Last(list)]]) else Err(MemberNotFound(Last(list)))
  }

  method GetProxies(proxies: map<Name, nat>, list: seq<Name>) returns (r: Result<seq<nat>>)
    ensures r == Resolve(proxies, list)
  {
    var ps: seq<nat> := [];
    for i := 0 to |list|
      invariant Resolve(proxies, list[..i]) == Ok(ps)
    {
      assert list[..i + 1] == list[..i] + [list[i]] && Init(list[..i + 1]) == list[..i];
      if list[i] !in proxies {
        ResolveStops(proxies, list, i + 1);
        return Err(MemberNotFound(list[i]));
      }
      ps := ps + [proxies[list[i]]];
    }
    assert list[..|list|] == list;
    r := Ok(ps);
  }

  lemma {:induction false} ResolveStops(proxies: map<Name, nat>, list: seq<Name>, i: nat)
    requires i <= |list| && Resolve(proxies, list[..i]).Err?
    ensures Resolve(proxies, list) == Resolve(proxies, list[..i])
    decreases |list| - i
  {
    if i < |list| {
      assert Init(list[..i + 1]) == list[..i];
      ResolveStops(proxies, list, i + 1);
    } else {
      assert list[..i] == list;
    }
  }

  /** `getProviders`: the first name that is unknown, or that belongs to a group, is an error. */
  function CheckUse(providers: map<Name, Provider>, list: seq<Name>): (r: Option<Error>)
    ensures r == None <==> forall n :: n in list ==> n in providers && providers[n].External?
    ensures r.Some? ==> r.value.ProviderNotFound? || r.value.GroupInUse?
    ensures r.Some? ==> r.value.name in list
    ensures r.Some? ==> if r.value.ProviderNotFound? then r.value.name !in providers
                        else r.value.name in providers && providers[r.value.name].Compatible?
  {
    if list == [] then None else
    var n := list[0];
    assert list == [n] + list[1..];
    if n !in providers then Some(ProviderNotFound(n))
    else if providers[n].Compatible? then Some(GroupInUse(n))
    else CheckUse(providers, list[1..])
  }

  /** The proxies a filter list picks out of all proxies: one entry per matching filter. */
  function Filtered(all: seq<Name>, filters: seq<Name -> bool>): (r: seq<Name>)
    ensures forall n :: n in r ==> n in all
  {
    if all == [] then [] else Filtered(Init(all), filters) + Matches(Last(all), filters)
  }

  function Matches(n: Name, filters: seq<Name -> bool>): (r: seq<Name>)
    ensures forall m :: m in r ==> m == n
  {
    if filters == [] then [] else Matches(n, Init(filters)) + if Last(filters)(n) then [n] else []
  }

  function FallbackName(o: GroupOption): Name {
    match o.emptyFallback case None => "COMPATIBLE" case Some(n) => n
  }

  function UseNames(o: GroupOption, allProviders: seq<Name>): seq<Name> {
    if o.includeAll || o.includeAllProviders then allProviders else o.use
  }

  /** The names whose proxies the group holds, after the include-all options. */
  function MemberNames(o: GroupOption, allProxies: seq<Name>, allProviders: seq<Name>): (r: seq<Name>)
    ensures forall n :: n in r ==> n in o.proxies || n in allProxies || n == FallbackName(o)
  {
    if !(o.includeAll || o.includeAllProxies) then o.proxies else
    var ps := o.proxies + if o.filters == [] then allProxies else Filtered(allProxies, o.filters);
    if ps == [] && UseNames(o, allProviders) == [] then [FallbackName(o)] else ps
  }

  /** `ParseProxyGroup` and the duplicate check after it. */
  function AddGroup(reg: Reg, o: GroupOption, allProxies: seq<Name>, allProviders: seq<Name>): (r: Result<Reg>)
    ensures r.Ok? ==> r.value.proxies.Keys == reg.proxies.Keys + {o.name} && o.name !in reg.proxies
    ensures r.Err? && r.error.MemberNotFound? ==>
              r.error.name !in reg.proxies && (r.error.name in o.proxies || r.error.name in allProxies)
  {
    if o.groupType == NoType || o.name == "" then Err(BadFormat) else
    if FallbackName(o) !in reg.proxies then Err(FallbackNotFound(FallbackName(o))) else
    var use, names := UseNames(o, allProviders), MemberNames(o, allProxies, allProviders);
    if names == [] && use == [] then Err(MissingProxy) else
    var used := CheckUse(reg.providers, use);
    if used.Some? then Err(used.value) else
    match Resolve(reg.proxies, names)
    case Err(e) => Err(e)
    case Ok(members) =>
      if names != [] && o.name in reg.providers then Err(DuplicateProvider)
      else if o.groupType == Unsupported then Err(BadType)
      else if o.name in reg.proxies then Err(DuplicateName(o.name))
      else
        var group := Group(members, reg.proxies[FallbackName(o)], use != []);
        Ok(Reg(reg.store + [group], reg.proxies[o.name := |reg.store|],
               if names == [] then reg.providers else reg.providers[o.name := Compatible(members)]))
  }

  /** The group-building loop of `parseProxies`. */
  function AddGroups(reg: Reg, os: seq<GroupOption>, allProxies: seq<Name>, allProviders: seq<Name>): Result<Reg> {
    if os == [] then Ok(reg) else
    match AddGroups(reg, Init(os), allProxies, allProviders)
    case Err(e) => Err(e)
    case Ok(r) => AddGroup(r, Last(os), allProxies, allProviders)
  }

  /** The group sort sees a group as its name and its own list, and carries its place along. */
  function AsGroups(os: seq<GroupOption>): (gs: seq<DagSort.Group>)
    ensures |gs| == |os| && forall i :: 0 <= i < |os| ==> gs[i] == DagSort.Group(os[i].name, os[i].proxies, i)
  {
    seq(|os|, i requires 0 <= i < |os| => DagSort.Group(os[i].name, os[i].proxies, i))
  }

  /** A failed member lookup, traced to the group that listed it: none of the groups before has that name. */
  lemma {:induction false} FailureAt(reg: Reg, os: seq<GroupOption>, allProxies: seq<Name>, allProviders: seq<Name>)
    returns (i: nat)
    requires forall n :: n in allProxies ==> n in reg.proxies
    requires var r := AddGroups(reg, os, allProxies, allProviders); r.Err? && r.error.MemberNotFound?
    ensures var x := AddGroups(reg, os, allProxies, allProviders).error.name;
            x !in reg.proxies && i < |os| && x in os[i].proxies && x !in NamesOf(os[..i])
  {
    var rest := Init(os);
    var before := AddGroups(reg, rest, allProxies, allProviders);
    if before.Err? {
      i := FailureAt(reg, rest, allProxies, allProviders);
      assert rest[..i] == os[..i] && rest[i] == os[i];
    } else {
      BuiltNames(reg, rest, allProxies, allProviders);
      i := |os| - 1;
    }
  }

  /** The names the map gains from groups that were all added. */
  lemma {:induction false} BuiltNames(reg: Reg, os: seq<GroupOption>, allProxies: seq<Name>, allProviders: seq<Name>)
    requires AddGroups(reg, os, allProxies, allProviders).Ok?
    ensures AddGroups(reg, os, allProxies, allProviders).value.proxies.Keys == reg.proxies.Keys + NamesOf(os)
  {
    if os != [] {
      BuiltNames(reg, Init(os), allProxies, allProviders);
    }
  }

  function NamesOf(os: seq<GroupOption>): (r: set<Name>)
    ensures forall i :: 0 <= i < |os| ==> os[i].name in r
  {
    if os == [] then {} else NamesOf(Init(os)) + {Last(os).name}
  }

  /**
   In sorted order, a member that cannot be found is never a group: only names that are neither a
   group nor a proxy fail.
   */
  lemma {:induction false} SortedMembersAreFound(reg: Reg, os: seq<GroupOption>, allProxies: seq<Name>,
                                                 allProviders: seq<Name>)
    requires DagSort.Sorted(AsGroups(os)) && forall n :: n in allProxies ==> n in reg.proxies
    ensures var r := AddGroups(reg, os, allProxies, allProviders);
            r.Err? && r.error.MemberNotFound? ==>
              r.error.name !in reg.proxies && forall i :: 0 <= i < |os| ==> os[i].name != r.error.name
  {
    var r := AddGroups(reg, os, allProxies, allProviders);
    if r.Err? && r.error.MemberNotFound? {
      var i := FailureAt(reg, os, allProxies, allProviders);
      forall j | 0 <= j < |os| ensures os[j].name != r.error.name {
        if j < i {
          assert os[..i][j].name in NamesOf(os[..i]);
        } else {
          assert AsGroups(os)[j].name !in AsGroups(os)[i].proxies;
        }
      }
    }
  }

  // ---- the empty fallback is not part of the sort ----

  lemma {:induction false} FallbackError(reg: Reg, o: GroupOption, allProxies: seq<Name>, allProviders: seq<Name>)
    requires o.groupType != NoType && o.name != ""
    ensures var f := FallbackName(o);
            AddGroup(reg, o, allProxies, allProviders) == Err(FallbackNotFound(f)) <==> f !in reg.proxies
  {
  }

  /**
   Exactly when a fallback lookup fails although the name is a group's: the sort does not look at
   fallbacks, so that group may stand at or after the one that falls back to it.
   */
  lemma {:induction false} FallbackLookup(reg: Reg, os: seq<GroupOption>, i: nat, allProxies: seq<Name>,
                                          allProviders: seq<Name>)
    requires i < |os| && os[i].groupType != NoType && os[i].name != ""
    requires AddGroups(reg, os[..i], allProxies, allProviders).Ok?
    ensures var f := FallbackName(os[i]);
            AddGroups(reg, os[..i + 1], allProxies, allProviders) == Err(FallbackNotFound(f))
            <==> f !in reg.proxies && f !in NamesOf(os[..i])
  {
    assert Init(os[..i + 1]) == os[..i] && Last(os[..i + 1]) == os[i];
    BuiltNames(reg, os[..i], allProxies, allProviders);
    FallbackError(AddGroups(reg, os[..i], allProxies, allProviders).value, os[i], allProxies, allProviders);
  }

  /** A sorted configuration that fails for that reason: A falls back to B, which stands after it. */
  lemma FallbackOutOfOrder(reg: Reg)
    requires "A" !in reg.proxies && "B" !in reg.proxies
    ensures exists os: seq<GroupOption> ::
              && DagSort.Sorted(AsGroups(os)) && "B" in NamesOf(os)
              && AddGroups(reg, os, [], []) == Err(FallbackNotFound("B"))
  {
    var a := GroupOption("A", Select, [], ["p"], Some("B"), false, false, false, []);
    var b := GroupOption("B", Select, [], ["p"], None, false, false, false, []);
    var os := [a, b];
    assert Init(os) == [a] && Init([a]) == [];
    assert os[1].name in NamesOf(os);
    assert AddGroups(reg, [a], [], []) == Err(FallbackNotFound("B"));
    assert DagSort.Sorted(AsGroups(os));
  }

  lemma {:induction false} FallbackErrorName(reg: Reg, o: GroupOption, allProxies: seq<Name>, allProviders: seq<Name>)
    ensures var r := AddGroup(reg, o, allProxies, allProviders);
            r.Err? && r.error.FallbackNotFound? ==> r.error.name == FallbackName(o) && r.error.name !in reg.proxies
  {
  }

  /** A failed fallback lookup, traced to its group: no group before has that name. */
  lemma {:induction false} FallbackFailureAt(reg: Reg, os: seq<GroupOption>, allProxies: seq<Name>,
                                             allProviders: seq<Name>)
    returns (i: nat)
    requires var r := AddGroups(reg, os, allProxies, allProviders); r.Err? && r.error.FallbackNotFound?
    ensures var x := AddGroups(reg, os, allProxies, allProviders).error.name;
            x !in reg.proxies && i < |os| && x == FallbackName(os[i]) && x !in NamesOf(os[..i])
  {
    var rest := Init(os);
    var before := AddGroups(reg, rest, allProxies, allProviders);
    if before.Err? {
      i := FallbackFailureAt(reg, rest, allProxies, allProviders);
      assert rest[..i] == os[..i] && rest[i] == os[i];
    } else {
      BuiltNames(reg, rest, allProxies, allProviders);
      FallbackErrorName(before.value, Last(os), allProxies, allProviders);
      i := |os| - 1;
    }
  }

  // ---- the whole of parseProxies after decoding ----

  const BUILT_IN: seq<(Name, Kind)> :=
    [("DIRECT", Plain), ("REJECT", Plain), ("REJECT-DROP", Plain), ("COMPATIBLE", Plain),
     ("PASS", Pass), ("PASS-RULE", PassRule)]

  /** Leaves under their names; a repeated name is an error. */
  function AddLeaves(reg: Reg, leaves: seq<(Name, Kind)>): Result<Reg> {
    if leaves == [] then Ok(reg) else
    match AddLeaves(reg, Init(leaves))
    case Err(e) => Err(e)
    case Ok(r) =>
      var (n, k) := Last(leaves);
      if n in r.proxies then Err(DuplicateName(n))
      else Ok(r.(store := r.store + [Leaf(k)], proxies := r.proxies[n := |r.store|]))
  }

  /** The ids listed for GLOBAL: everything but PASS and PASS-RULE leaves. */
  function Listed(reg: Reg, names: seq<Name>): (ids: seq<nat>)
    requires forall n :: n in names ==> n in reg.proxies
    requires forall n :: n in reg.proxies ==> reg.proxies[n] < |reg.store|
    ensures forall id :: id in ids ==> id < |reg.store|
  {
    if names == [] then [] else
    var id := reg.proxies[Last(names)];
    assert Last(names) in names && forall n :: n in Init(names) ==> n in names;
    Listed(reg, Init(names)) + if reg.store[id] == Leaf(Pass) || reg.store[id] == Leaf(PassRule) then [] else [id]
  }

  /** The GLOBAL selector over everything listed, unless a configured group has that name. */
  function AddGlobal(reg: Reg, names: seq<Name>): Reg
    requires forall n :: n in names ==> n in reg.proxies
    requires forall n :: n in reg.proxies ==> reg.proxies[n] < |reg.store|
    requires "COMPATIBLE" in reg.proxies
  {
    Reg(reg.store + [Group(Listed(reg, names), reg.proxies["COMPATIBLE"], false)],
        reg.proxies["GLOBAL" := |reg.store|], reg.providers)
  }

  // ---- groups only hold what was there before them ----

  ghost predicate Layered(reg: Reg) {
    && (forall n :: n in reg.proxies ==> reg.proxies[n] < |reg.store|)
    && LayeredStore(reg.store)
  }

  ghost predicate LayeredStore(store: seq<Adapter>) {
    forall i :: 0 <= i < |store| && store[i].Group? ==>
      store[i].fallback < i && forall m :: m in store[i].members ==> m < i
  }

  lemma {:induction false} AddGroupLayered(reg: Reg, o: GroupOption, allProxies: seq<Name>, allProviders: seq<Name>)
    requires Layered(reg) && AddGroup(reg, o, allProxies, allProviders).Ok?
    ensures Layered(AddGroup(reg, o, allProxies, allProviders).value)
  {
    var names := MemberNames(o, allProxies, allProviders);
    var members := Resolve(reg.proxies, names).value;
    forall m | m in members ensures m < |reg.store| {
      var i :| 0 <= i < |members| && members[i] == m;
      assert members[i] == reg.proxies[names[i]];
    }
  }

  lemma {:induction false} AddGroupsLayered(reg: Reg, os: seq<GroupOption>, allProxies: seq<Name>,
                                            allProviders: seq<Name>)
    requires Layered(reg) && AddGroups(reg, os, allProxies, allProviders).Ok?
    ensures Layered(AddGroups(reg, os, allProxies, allProviders).value)
  {
    if os != [] {
      AddGroupsLayered(reg, Init(os), allProxies, allProviders);
      AddGroupLayered(AddGroups(reg, Init(os), allProxies, allProviders).value, Last(os), allProxies, allProviders);
    }
  }

  /** Every group has something to offer: members of its own, or proxy providers. */
  ghost predicate GroupsOffer(store: seq<Adapter>) {
    forall a :: a in store && a.Group? ==> a.members != [] || a.external
  }

  lemma {:induction false} AddGroupOffers(reg: Reg, o: GroupOption, allProxies: seq<Name>, allProviders: seq<Name>)
    requires GroupsOffer(reg.store) && AddGroup(reg, o, allProxies, allProviders).Ok?
    ensures GroupsOffer(AddGroup(reg, o, allProxies, allProviders).value.store)
  {
  }

  /** No configured group is built without a provider. */
  lemma {:induction false} AddGroupsOffer(reg: Reg, os: seq<GroupOption>, allProxies: seq<Name>,
                                          allProviders: seq<Name>)
    requires GroupsOffer(reg.store) && AddGroups(reg, os, allProxies, allProviders).Ok?
    ensures GroupsOffer(AddGroups(reg, os, allProxies, allProviders).value.store)
  {
    if os != [] {
      AddGroupsOffer(reg, Init(os), allProxies, allProviders);
      AddGroupOffers(AddGroups(reg, Init(os), allProxies, allProviders).value, Last(os), allProxies, allProviders);
    }
  }

  lemma {:induction false} AddLeavesLayered(reg: Reg, leaves: seq<(Name, Kind)>)
    requires Layered(reg) && AddLeaves(reg, leaves).Ok?
    ensures Layered(AddLeaves(reg, leaves).value)
    ensures reg.proxies.Keys <= AddLeaves(reg, leaves).value.proxies.Keys
    ensures forall i :: 0 <= i < |leaves| ==> leaves[i].0 in AddLeaves(reg, leaves).value.proxies
  {
    if leaves != [] {
      AddLeavesLayered(reg, Init(leaves));
      assert leaves == Init(leaves) + [Last(leaves)];
    }
  }

  lemma AddGlobalLayered(reg: Reg, names: seq<Name>)
    requires Layered(reg) && (forall n :: n in names ==> n in reg.proxies) && "COMPATIBLE" in reg.proxies
    ensures Layered(AddGlobal(reg, names))
  {
  }

  // ---- unwrapping ----

  /** Where a walk stands: at an adapter of the store, or at a leaf a proxy provider supplied. */
  datatype Stop = Known(id: nat) | Outside(kind: Kind)

  function KindOf(store: seq<Adapter>, a: Stop): Kind
    requires a.Known? ==> a.id < |store|
  {
    match a
    case Outside(k) => k
    case Known(id) => if store[id].Leaf? then store[id].kind else Plain
  }

  /** PASS or PASS-RULE: a leaf of that kind, in the store or from a provider. */
  predicate Meets(store: seq<Adapter>, wanted: Kind, a: Stop) {
    a == Outside(wanted) || (a.Known? && a.id < |store| && store[a.id] == Leaf(wanted))
  }

  ghost predicate MetOn(store: seq<Adapter>, wanted: Kind, w: seq<Stop>) {
    exists a :: a in w && Meets(store, wanted, a)
  }

  lemma MetByKind(store: seq<Adapter>, wanted: Kind, w: seq<Stop>)
    requires wanted != Plain && forall a :: a in w && a.Known? ==> a.id < |store|
    ensures MetOn(store, wanted, w) <==> exists a :: a in w && KindOf(store, a) == wanted
  {
    forall a | a in w ensures Meets(store, wanted, a) <==> KindOf(store, a) == wanted {
    }
  }

  predicate IsGroup(store: seq<Adapter>, a: Stop) {
    a.Known? && a.id < |store| && store[a.id].Group?
  }

  /** `b` is among what the group at `a` can select: a member, its empty fallback, or something a provider holds. */
  predicate CanUnwrap(store: seq<Adapter>, a: Stop, b: Stop) {
    IsGroup(store, a) &&
    match b
    case Outside(_) => store[a.id].external
    case Known(j) => j in store[a.id].members || j == store[a.id].fallback
  }

  ghost predicate Walk(store: seq<Adapter>, w: seq<Stop>) {
    w != [] && forall i :: 0 <= i < |w| - 1 ==> CanUnwrap(store, w[i], w[i + 1])
  }

  function Groups(store: seq<Adapter>): nat {
    if store == [] then 0 else Groups(Init(store)) + if Last(store).Group? then 1 else 0
  }

  lemma {:induction false} GroupsGrow(store: seq<Adapter>, i: nat, j: nat)
    requires i <= j <= |store|
    ensures Groups(store[..i]) <= Groups(store[..j])
    decreases j - i
  {
    if i < j {
      GroupsGrow(store, i, j - 1);
      assert Init(store[..j]) == store[..j - 1];
    }
  }

  /** However the groups select at each step, a walk visits at most the groups up to its start, and one adapter more. */
  lemma {:induction false} WalkIsShort(store: seq<Adapter>, w: seq<Stop>)
    requires LayeredStore(store) && Walk(store, w) && w[0].Known? && w[0].id < |store|
    ensures |w| <= Groups(store[..w[0].id + 1]) + 1
    decreases |w|
  {
    if |w| > 1 {
      var i := w[0].id;
      assert CanUnwrap(store, w[0], w[1]);
      assert Init(store[..i + 1]) == store[..i] && Last(store[..i + 1]) == store[i];
      var rest := w[1..];
      assert Walk(store, rest) by {
        forall k | 0 <= k < |rest| - 1 ensures CanUnwrap(store, rest[k], rest[k + 1]) {
          assert CanUnwrap(store, w[k + 1], w[k + 2]);
        }
      }
      match w[1]
      case Outside(_) => assert |rest| > 1 ==> CanUnwrap(store, rest[0], rest[1]);
      case Known(j) =>
        WalkIsShort(store, rest);
        GroupsGrow(store, j + 1, i);
    }
  }

  lemma WalkFits(store: seq<Adapter>, w: seq<Stop>)
    requires LayeredStore(store) && Walk(store, w) && w[0].Known? && w[0].id < |store|
    ensures |w| <= Groups(store) + 1
  {
    WalkIsShort(store, w);
    GroupsGrow(store, w[0].id + 1, |store|);
    assert store[..|store|] == store;
  }

  /** The selection state, free to change at every step of a walk: a group selects something it can. */
  ghost predicate Selects(store: seq<Adapter>, choose: (nat, Stop) -> Stop) {
    forall k: nat, a: Stop :: IsGroup(store, a) ==> CanUnwrap(store, a, choose(k, a))
  }

  /** The adapters a walk passes from step `k` on, up to the wanted kind or a leaf. */
  function Trail(store: seq<Adapter>, wanted: Kind, choose: (nat, Stop) -> Stop, a: Stop, k: nat): (w: seq<Stop>)
    requires LayeredStore(store) && Selects(store, choose) && (a.Known? ==> a.id < |store|)
    ensures w != [] && w[0] == a && forall b :: b in w && b.Known? ==> b.id < |store|
    decreases if IsGroup(store, a) then a.id + 1 else 0
  {
    if KindOf(store, a) == wanted || !IsGroup(store, a) then [a] else
    assert CanUnwrap(store, a, choose(k, a));
    [a] + Trail(store, wanted, choose, choose(k, a), k + 1)
  }

  /** A trail is a walk along the selections; only its last adapter may be of the wanted kind, and else it is a leaf. */
  lemma {:induction false} TrailIsWalk(store: seq<Adapter>, wanted: Kind, choose: (nat, Stop) -> Stop, a: Stop, k: nat)
    requires LayeredStore(store) && Selects(store, choose) && (a.Known? ==> a.id < |store|)
    ensures var w := Trail(store, wanted, choose, a, k);
            && Walk(store, w) && (KindOf(store, Last(w)) == wanted || !IsGroup(store, Last(w)))
            && forall i :: 0 <= i < |w| - 1 ==> KindOf(store, w[i]) != wanted && w[i + 1] == choose(k + i, w[i])
    decreases if IsGroup(store, a) then a.id + 1 else 0
  {
    if KindOf(store, a) != wanted && IsGroup(store, a) {
      var b := choose(k, a);
      assert CanUnwrap(store, a, b);
      TrailIsWalk(store, wanted, choose, b, k + 1);
      var rest := Trail(store, wanted, choose, b, k + 1);
      forall i | 0 <= i < |rest|
        ensures var w := [a] + rest;
                CanUnwrap(store, w[i], w[i + 1]) && KindOf(store, w[i]) != wanted && w[i + 1] == choose(k + i, w[i])
      {
        if i > 0 { assert CanUnwrap(store, rest[i - 1], rest[i]); }
      }
    }
  }

  lemma TrailFits(store: seq<Adapter>, wanted: Kind, choose: (nat, Stop) -> Stop, start: nat)
    requires LayeredStore(store) && Selects(store, choose) && start < |store|
    ensures |Trail(store, wanted, choose, Known(start), 0)| <= Groups(store) + 1
  {
    TrailIsWalk(store, wanted, choose, Known(start), 0);
    WalkFits(store, Trail(store, wanted, choose, Known(start), 0));
  }

  /** The walks of `match` and `CheckPassRule`: unwrap until the wanted kind or a leaf. */
  method FindKind(store: seq<Adapter>, start: nat, wanted: Kind, choose: (nat, Stop) -> Stop) returns (found: bool)
    requires LayeredStore(store) && Selects(store, choose) && start < |store|
    ensures found <==> exists a :: a in Trail(store, wanted, choose, Known(start), 0) && KindOf(store, a) == wanted
    ensures wanted != Plain ==> (found <==> MetOn(store, wanted, Trail(store, wanted, choose, Known(start), 0)))
  {
    var a := Known(start);
    ghost var w := Trail(store, wanted, choose, a, 0);
    if wanted != Plain { MetByKind(store, wanted, w); }
    TrailIsWalk(store, wanted, choose, a, 0);
    var step: nat := 0;
    while true
      invariant a.Known? ==> a.id < |store|
      invariant step < |w| && w[step..] == Trail(store, wanted, choose, a, step)
      decreases |w| - step
    {
      assert w[step] == w[step..][0] == a;
      if KindOf(store, a) == wanted {
        assert a in w;
        return true;
      }
      if !IsGroup(store, a) {
        assert |w[step..]| == 1;
        return false;
      }
      assert CanUnwrap(store, a, choose(step, a));
      assert w[step + 1..] == w[step..][1..];
      a := choose(step, a);
      step := step + 1;
    }
  }

  // ---- the building loops ----

  lemma GroupsPush(store: seq<Adapter>, a: Adapter)
    ensures Groups(store + [a]) == Groups(store) + if a.Group? then 1 else 0
  {
    assert Init(store + [a]) == store;
  }

  lemma {:induction false} GroupsAdded(reg: Reg, os: seq<GroupOption>, allProxies: seq<Name>, allProviders: seq<Name>)
    requires AddGroups(reg, os, allProxies, allProviders).Ok?
    ensures Groups(AddGroups(reg, os, allProxies, allProviders).value.store) == Groups(reg.store) + |os|
  {
    if os != [] {
      GroupsAdded(reg, Init(os), allProxies, allProviders);
      var before := AddGroups(reg, Init(os), allProxies, allProviders).value;
      var after := AddGroup(before, Last(os), allProxies, allProviders).value;
      GroupsPush(before.store, Last(after.store));
    }
  }

  lemma {:induction false} LeavesAdded(reg: Reg, leaves: seq<(Name, Kind)>)
    requires AddLeaves(reg, leaves).Ok?
    ensures Groups(AddLeaves(reg, leaves).value.store) == Groups(reg.store)
  {
    if leaves != [] {
      LeavesAdded(reg, Init(leaves));
      var before := AddLeaves(reg, Init(leaves)).value;
      GroupsPush(before.store, Leaf(Last(leaves).1));
    }
  }

  lemma {:induction false} AddLeavesStops(reg: Reg, leaves: seq<(Name, Kind)>, i: nat)
    requires i <= |leaves| && AddLeaves(reg, leaves[..i]).Err?
    ensures AddLeaves(reg, leaves) == AddLeaves(reg, leaves[..i])
    decreases |leaves| - i
  {
    if i < |leaves| {
      assert Init(leaves[..i + 1]) == leaves[..i];
      AddLeavesStops(reg, leaves, i + 1);
    } else {
      assert leaves[..i] == leaves;
    }
  }

  lemma {:induction false} AddGroupsStops(reg: Reg, os: seq<GroupOption>, i: nat, allProxies: seq<Name>,
                                          allProviders: seq<Name>)
    requires i <= |os| && AddGroups(reg, os[..i], allProxies, allProviders).Err?
    ensures AddGroups(reg, os, allProxies, allProviders).Err?
    ensures AddGroups(reg, os, allProxies, allProviders).error
      == AddGroups(reg, os[..i], allProxies, allProviders).error
    decreases |os| - i
  {
    if i < |os| {
      assert Init(os[..i + 1]) == os[..i];
      AddGroupsStops(reg, os, i + 1, allProxies, allProviders);
    } else {
      assert os[..i] == os;
    }
  }

  /** The loop over the configured proxies. */
  method BuildLeaves(start: Reg, leaves: seq<(Name, Kind)>) returns (r: Result<Reg>)
    ensures r == AddLeaves(start, leaves)
  {
    var reg := start;
    for i := 0 to |leaves|
      invariant AddLeaves(start, leaves[..i]) == Ok(reg)
    {
      assert Init(leaves[..i + 1]) == leaves[..i];
      var (n, k) := leaves[i];
      if n in reg.proxies {
        AddLeavesStops(start, leaves, i + 1);
        return Err(DuplicateName(n));
      }
      reg := reg.(store := reg.store + [Leaf(k)], proxies := reg.proxies[n := |reg.store|]);
    }
    assert leaves[..|leaves|] == leaves;
    r := Ok(reg);
  }

  /** The loop over the sorted groups. */
  method BuildGroups(start: Reg, os: seq<GroupOption>, allProxies: seq<Name>, allProviders: seq<Name>)
    returns (r: Result<Reg>)
    ensures r == AddGroups(start, os, allProxies, allProviders)
  {
    var reg := start;
    for i := 0 to |os|
      invariant AddGroups(start, os[..i], allProxies, allProviders) == Ok(reg)
    {
      assert Init(os[..i + 1]) == os[..i];
      r := AddGroup(reg, os[i], allProxies, allProviders);
      if r.Err? {
        AddGroupsStops(start, os, i + 1, allProxies, allProviders);
        return;
      }
      reg := r.value;
    }
    assert os[..|os|] == os;
    r := Ok(reg);
  }

  // ---- `parseProxies` from the sorted groups on ----

  /** The names offered to GLOBAL: two built-in ones, the configured proxies, and the groups as configured. */
  function Offered(leaves: seq<(Name, Kind)>, order: seq<Name>): seq<Name> {
    ["DIRECT", "REJECT"] + seq(|leaves|, i requires 0 <= i < |leaves| => leaves[i].0) + order
  }

  /** What the building loops leave: everything named is there, and groups only hold what came before them. */
  lemma {:induction false} BuiltIsKnown(leaves: seq<(Name, Kind)>, order: seq<Name>, os: seq<GroupOption>,
                                        providers: map<Name, Provider>,
                                       allProxies: seq<Name>, allProviders: seq<Name>)
    requires forall n :: n in order ==> n in NamesOf(os)
    requires AddLeaves(Reg([], map[], providers), BUILT_IN + leaves).Ok?
    requires AddGroups(AddLeaves(Reg([], map[], providers), BUILT_IN + leaves).value, os, allProxies, allProviders).Ok?
    ensures var base := AddLeaves(Reg([], map[], providers), BUILT_IN + leaves).value;
            var reg := AddGroups(base, os, allProxies, allProviders).value;
            && Layered(reg) && "COMPATIBLE" in reg.proxies && reg.proxies.Keys >= NamesOf(os)
            && (forall n :: n in Offered(leaves, order) ==> n in reg.proxies)
            && Groups(reg.store) == |os|
  {
    var empty := Reg([], map[], providers);
    var base := AddLeaves(empty, BUILT_IN + leaves).value;
    AddLeavesLayered(empty, BUILT_IN + leaves);
    LeavesAdded(empty, BUILT_IN + leaves);
    AddGroupsLayered(base, os, allProxies, allProviders);
    GroupsAdded(base, os, allProxies, allProviders);
    BuiltNames(base, os, allProxies, allProviders);
    OfferedAreLeaves(base, leaves, order);
  }

  lemma OfferedAreLeaves(base: Reg, leaves: seq<(Name, Kind)>, order: seq<Name>)
    requires forall i :: 0 <= i < |BUILT_IN + leaves| ==> (BUILT_IN + leaves)[i].0 in base.proxies
    ensures "COMPATIBLE" in base.proxies
    ensures forall n :: n in Offered(leaves, order) ==> n in base.proxies || n in order
  {
    var all := BUILT_IN + leaves;
    assert all[0].0 == "DIRECT" && all[1].0 == "REJECT" && all[3].0 == "COMPATIBLE";
    forall i | 0 <= i < |leaves| ensures leaves[i].0 in base.proxies {
      assert (BUILT_IN + leaves)[|BUILT_IN| + i] == leaves[i];
    }
  }

  /** The registry the configuration stands for; `order` holds the group names as configured. */
  function Parsed(leaves: seq<(Name, Kind)>, order: seq<Name>, os: seq<GroupOption>, providers: map<Name, Provider>,
                  allProxies: seq<Name>, allProviders: seq<Name>): Result<Reg>
    requires forall n :: n in order ==> n in NamesOf(os)
  {
    match AddLeaves(Reg([], map[], providers), BUILT_IN + leaves)
    case Err(e) => Err(e)
    case Ok(base) =>
      match AddGroups(base, os, allProxies, allProviders)
      case Err(e) => Err(e)
      case Ok(reg) =>
        if "GLOBAL" in NamesOf(os) then Ok(reg) else
        BuiltIsKnown(leaves, order, os, providers, allProxies, allProviders);
        Ok(AddGlobal(reg, Offered(leaves, order)))
  }

  /** From the sorted groups on: `base` is the registry of the leaves. */
  method BuildRest(base: Reg, leaves: seq<(Name, Kind)>, order: seq<Name>, os: seq<GroupOption>, providers: map<Name,
                   Provider>,
                   allProxies: seq<Name>, allProviders: seq<Name>) returns (r: Result<Reg>)
    requires forall n :: n in order ==> n in NamesOf(os)
    requires AddLeaves(Reg([], map[], providers), BUILT_IN + leaves) == Ok(base)
    ensures r == Parsed(leaves, order, os, providers, allProxies, allProviders)
  {
    r := BuildGroups(base, os, allProxies, allProviders);
    if r.Err? {
      return;
    }
    var hasGlobal := HasGlobal(os);
    if !hasGlobal {
      BuiltIsKnown(leaves, order, os, providers, allProxies, allProviders);
      r := Ok(AddGlobal(r.value, Offered(leaves, order)));
    }
  }

  /** A parsed registry has a GLOBAL, and its groups, GLOBAL included, only hold what was built before them. */
  lemma {:induction false} ParsedIsLayered(leaves: seq<(Name, Kind)>, order: seq<Name>, os: seq<GroupOption>,
                                           providers: map<Name, Provider>,
                                          allProxies: seq<Name>, allProviders: seq<Name>)
    requires forall n :: n in order ==> n in NamesOf(os)
    ensures var r := Parsed(leaves, order, os, providers, allProxies, allProviders);
            r.Ok? ==>
              && Layered(r.value) && "GLOBAL" in r.value.proxies && (forall n :: n in order ==> n in r.value.proxies)
              && Groups(r.value.store) == |os| + if "GLOBAL" in NamesOf(os) then 0 else 1
  {
    var r := Parsed(leaves, order, os, providers, allProxies, allProviders);
    if r.Ok? {
      BuiltIsKnown(leaves, order, os, providers, allProxies, allProviders);
      if "GLOBAL" !in NamesOf(os) {
        var base := AddLeaves(Reg([], map[], providers), BUILT_IN + leaves).value;
        var reg := AddGroups(base, os, allProxies, allProviders).value;
        AddGlobalLayered(reg, Offered(leaves, order));
        GroupsPush(reg.store, Last(r.value.store));
      }
    }
  }

  /** In sorted order, a member that cannot be found is neither a configured proxy, nor built in, nor any group. */
  lemma {:induction false} ParsedFindsMembers(leaves: seq<(Name, Kind)>, order: seq<Name>, os: seq<GroupOption>,
                                              providers: map<Name, Provider>,
                                             allProxies: seq<Name>, allProviders: seq<Name>)
    requires forall n :: n in order ==> n in NamesOf(os)
    requires DagSort.Sorted(AsGroups(os)) && forall n :: n in allProxies ==> n in Offered(leaves, [])
    ensures var r := Parsed(leaves, order, os, providers, allProxies, allProviders);
            r.Err? && r.error.MemberNotFound? ==>
              && (forall i :: 0 <= i < |os| ==> os[i].name != r.error.name)
              && (forall i :: 0 <= i < |leaves| ==> leaves[i].0 != r.error.name)
              && (forall i :: 0 <= i < |BUILT_IN| ==> BUILT_IN[i].0 != r.error.name)
  {
    var empty := Reg([], map[], providers);
    var built := AddLeaves(empty, BUILT_IN + leaves);
    LeafErrors(empty, BUILT_IN + leaves);
    if built.Ok? {
      AddLeavesLayered(empty, BUILT_IN + leaves);
      OfferedAreLeaves(built.value, leaves, []);
      SortedMembersAreFound(built.value, os, allProxies, allProviders);
      forall i | 0 <= i < |leaves| ensures leaves[i].0 in built.value.proxies {
        assert (BUILT_IN + leaves)[|BUILT_IN| + i] == leaves[i];
      }
      forall i | 0 <= i < |BUILT_IN| ensures BUILT_IN[i].0 in built.value.proxies {
        assert (BUILT_IN + leaves)[i] == BUILT_IN[i];
      }
    }
  }

  /**
   From any proxy, whatever the groups select at each step, unwrapping passes at most all the groups and one
   adapter more.
   */
  lemma {:induction false} ParsedWalksEnd(leaves: seq<(Name, Kind)>, order: seq<Name>, os: seq<GroupOption>,
                                          providers: map<Name, Provider>,
                                         allProxies: seq<Name>, allProviders: seq<Name>, n: Name, w: seq<Stop>)
    requires forall n :: n in order ==> n in NamesOf(os)
    ensures var r := Parsed(leaves, order, os, providers, allProxies, allProviders);
            r.Ok? && n in r.value.proxies && Walk(r.value.store, w) && w[0] == Known(r.value.proxies[n]) ==>
              |w| <= |os| + (if "GLOBAL" in NamesOf(os) then 0 else 1) + 1
  {
    var r := Parsed(leaves, order, os, providers, allProxies, allProviders);
    if r.Ok? && n in r.value.proxies && Walk(r.value.store, w) && w[0] == Known(r.value.proxies[n]) {
      ParsedIsLayered(leaves, order, os, providers, allProxies, allProviders);
      WalkFits(r.value.store, w);
    }
  }

  lemma {:induction false} LeafErrors(reg: Reg, leaves: seq<(Name, Kind)>)
    ensures AddLeaves(reg, leaves).Err? ==> AddLeaves(reg, leaves).error.DuplicateName?
  {
    if leaves != [] {
      LeafErrors(reg, Init(leaves));
    }
  }

  /** Building groups has no sorting errors of its own. */
  lemma {:induction false} GroupErrors(reg: Reg, os: seq<GroupOption>, allProxies: seq<Name>, allProviders: seq<Name>)
    ensures var r := AddGroups(reg, os, allProxies, allProviders); r.Err? ==> !r.error.Unsorted?
  {
    if os != [] {
      GroupErrors(reg, Init(os), allProxies, allProviders);
      var before := AddGroups(reg, Init(os), allProxies, allProviders);
      if before.Ok? { GroupError(before.value, Last(os), allProxies, allProviders); }
    }
  }

  lemma {:induction false} GroupError(reg: Reg, o: GroupOption, allProxies: seq<Name>, allProviders: seq<Name>)
    ensures var r := AddGroup(reg, o, allProxies, allProviders); r.Err? ==> !r.error.Unsorted?
  {
  }

  method HasGlobal(os: seq<GroupOption>) returns (has: bool)
    ensures has <==> "GLOBAL" in NamesOf(os)
  {
    has := false;
    for i := 0 to |os|
      invariant has <==> "GLOBAL" in NamesOf(os[..i])
    {
      assert Init(os[..i + 1]) == os[..i];
      if os[i].name == "GLOBAL" {
        has := true;
      }
    }
    assert os[..|os|] == os;
  }
}
