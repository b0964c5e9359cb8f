/**
 Which proxies a group holds after its options are applied, when it is built, and what GLOBAL lists, in terms
 of the configuration alone.
 */
module Members {
  import opened Graphs
  import opened Registry
  import opened Seqs

  /** Every proxy is included if no filter is given, or some filter matches it. */
  ghost predicate Included(o: GroupOption, allProxies: seq<Name>, n: Name) {
    && (o.includeAll || o.includeAllProxies) && n in allProxies
    && (o.filters == [] || exists i :: 0 <= i < |o.filters| && o.filters[i](n))
  }

  /** The providers the group draws from. */
  ghost predicate Uses(o: GroupOption, allProviders: seq<Name>, n: Name) {
    if o.includeAll || o.includeAllProviders then n in allProviders else n in o.use
  }

  /** The group's empty fallback. */
  function EmptyName(o: GroupOption): Name {
    if o.emptyFallback == None then "COMPATIBLE" else o.emptyFallback.value
  }

  /** Including everything brought nothing in, and the group has nothing of its own. */
  ghost predicate LeftEmpty(o: GroupOption, allProxies: seq<Name>, allProviders: seq<Name>) {
    && (o.includeAll || o.includeAllProxies) && o.proxies == []
    && (forall n :: n in allProxies ==> !Included(o, allProxies, n))
    && !exists n :: Uses(o, allProviders, n)
  }

  /** The names a group holds: its own, the included ones, and the empty fallback if that leaves nothing. */
  ghost predicate IsMember(o: GroupOption, allProxies: seq<Name>, allProviders: seq<Name>, n: Name) {
    || n in o.proxies
    || Included(o, allProxies, n)
    || (LeftEmpty(o, allProxies, allProviders) && n == EmptyName(o))
  }

  lemma UseNamesExactly(o: GroupOption, allProviders: seq<Name>, n: Name)
    ensures n in UseNames(o, allProviders) <==> Uses(o, allProviders, n)
  {
  }

  lemma UseNamesEmpty(o: GroupOption, allProviders: seq<Name>)
    ensures UseNames(o, allProviders) == [] <==> !exists n :: Uses(o, allProviders, n)
  {
    var use := UseNames(o, allProviders);
    if use != [] {
      UseNamesExactly(o, allProviders, use[0]);
      assert use[0] in use;
    }
    if n :| Uses(o, allProviders, n) {
      UseNamesExactly(o, allProviders, n);
    }
  }

  // ---- one entry per proxy and matching filter ----

  /** `r` goes through the pairs of a proxy and a filter matching it, proxy by proxy and filter by filter. */
  ghost predicate Pairs(all: seq<Name>, filters: seq<Name -> bool>, r: seq<Name>, at: seq<(nat, nat)>) {
    && |at| == |r|
    && (forall k :: 0 <= k < |r| ==>
          at[k].0 < |all| && at[k].1 < |filters| && filters[at[k].1](all[at[k].0]) && r[k] == all[at[k].0])
    && (forall i, j :: 0 <= i < |all| && 0 <= j < |filters| && filters[j](all[i]) ==> (i, j) in at)
    && forall k, l :: 0 <= k < l < |r| ==> at[k].0 < at[l].0 || (at[k].0 == at[l].0 && at[k].1 < at[l].1)
  }

  lemma MatchPairs(n: Name, filters: seq<Name -> bool>) returns (at: seq<nat>)
    ensures |at| == |Matches(n, filters)|
    ensures forall k :: 0 <= k < |at| ==> at[k] < |filters| && filters[at[k]](n) && Matches(n, filters)[k] == n
    ensures forall j :: 0 <= j < |filters| && filters[j](n) ==> j in at
    ensures forall k, l :: 0 <= k < l < |at| ==> at[k] < at[l]
  {
    at := [];
    for i := 0 to |filters|
      invariant |at| == |Matches(n, filters[..i])|
      invariant forall k :: 0 <= k < |at| ==> at[k] < i && filters[at[k]](n)
      invariant forall j :: 0 <= j < i && filters[j](n) ==> j in at
      invariant forall k, l :: 0 <= k < l < |at| ==> at[k] < at[l]
    {
      assert Init(filters[..i + 1]) == filters[..i] && Last(filters[..i + 1]) == filters[i];
      if filters[i](n) { at := at + [i]; }
    }
    assert filters[..|filters|] == filters;
    forall k | 0 <= k < |at| ensures Matches(n, filters)[k] == n {
      assert Matches(n, filters)[k] in Matches(n, filters);
    }
  }

  lemma FilteredPairs(all: seq<Name>, filters: seq<Name -> bool>) returns (at: seq<(nat, nat)>)
    ensures Pairs(all, filters, Filtered(all, filters), at)
  {
    at := [];
    for i := 0 to |all|
      invariant Pairs(all[..i], filters, Filtered(all[..i], filters), at)
    {
      at := NextPairs(all[..i], all[i], filters, at);
      assert all[..i + 1] == all[..i] + [all[i]];
    }
    assert all[..|all|] == all;
  }

  lemma NextPairs(all: seq<Name>, n: Name, filters: seq<Name -> bool>, at: seq<(nat, nat)>)
    returns (longer: seq<(nat, nat)>)
    requires Pairs(all, filters, Filtered(all, filters), at)
    ensures Pairs(all + [n], filters, Filtered(all + [n], filters), longer)
  {
    FilteredSnoc(all, n, filters);
    var js := MatchPairs(n, filters);
    var here: nat := |all|;
    var more := seq(|js|, k requires 0 <= k < |js| => (here, js[k]));
    MorePairs(all, n, filters, Filtered(all, filters), at, js, more);
    longer := at + more;
  }

  lemma FilteredSnoc(all: seq<Name>, n: Name, filters: seq<Name -> bool>)
    ensures Filtered(all + [n], filters) == Filtered(all, filters) + Matches(n, filters)
    ensures forall k :: 0 <= k < |Matches(n, filters)| ==> Matches(n, filters)[k] == n
  {
    assert Init(all + [n]) == all;
    forall k | 0 <= k < |Matches(n, filters)| ensures Matches(n, filters)[k] == n {
      assert Matches(n, filters)[k] in Matches(n, filters);
    }
  }

  lemma MorePairs(all: seq<Name>, n: Name, filters: seq<Name -> bool>, r: seq<Name>, at: seq<(nat, nat)>,
                  js: seq<nat>, more: seq<(nat, nat)>)
    requires Pairs(all, filters, r, at)
    requires |js| == |more| == |Matches(n, filters)| && forall k :: 0 <= k < |js| ==> more[k] == (|all|, js[k])
    requires forall k :: 0 <= k < |Matches(n, filters)| ==> Matches(n, filters)[k] == n
    requires forall k :: 0 <= k < |js| ==> js[k] < |filters| && filters[js[k]](n)
    requires forall j :: 0 <= j < |filters| && filters[j](n) ==> j in js
    requires forall k, l :: 0 <= k < l < |js| ==> js[k] < js[l]
    ensures Pairs(all + [n], filters, r + Matches(n, filters), at + more)
  {
    PairsHit(all, n, filters, r, Matches(n, filters), at, js, more);
    PairsCover(all, n, filters, r, at, js, more);
    PairsOrdered(all, filters, r, at, js, more);
  }

  lemma PairsOrdered(all: seq<Name>, filters: seq<Name -> bool>, r: seq<Name>, at: seq<(nat, nat)>, js: seq<nat>,
                     more: seq<(nat, nat)>)
    requires Pairs(all, filters, r, at)
    requires |js| == |more| && forall k :: 0 <= k < |js| ==> more[k] == (|all|, js[k])
    requires forall k, l :: 0 <= k < l < |js| ==> js[k] < js[l]
    ensures forall k, l :: 0 <= k < l < |at + more| ==>
              var a, b := (at + more)[k], (at + more)[l]; a.0 < b.0 || (a.0 == b.0 && a.1 < b.1)
  {
    forall k, l | 0 <= k < l < |at + more|
      ensures var a, b := (at + more)[k], (at + more)[l]; a.0 < b.0 || (a.0 == b.0 && a.1 < b.1)
    {
      if k < |at| <= l { assert at[k].0 < |all|; }
    }
  }

  lemma PairsHit(all: seq<Name>, n: Name, filters: seq<Name -> bool>, r: seq<Name>, ns: seq<Name>,
                 at: seq<(nat, nat)>, js: seq<nat>, more: seq<(nat, nat)>)
    requires Pairs(all, filters, r, at)
    requires |js| == |more| == |ns| && forall k :: 0 <= k < |js| ==> more[k] == (|all|, js[k]) && ns[k] == n
    requires forall k :: 0 <= k < |js| ==> js[k] < |filters| && filters[js[k]](n)
    ensures forall k :: 0 <= k < |r + ns| ==>
              var a := (at + more)[k];
              a.0 < |all + [n]| && a.1 < |filters| && filters[a.1]((all + [n])[a.0]) && (r + ns)[k] == (all + [n])[a.0]
  {
    forall k | 0 <= k < |r + ns|
      ensures var a := (at + more)[k];
              a.0 < |all + [n]| && a.1 < |filters| && filters[a.1]((all + [n])[a.0]) && (r + ns)[k] == (all + [n])[a.0]
    {
      if k < |r| {
        assert filters[at[k].1](all[at[k].0]);
      } else {
        assert filters[js[k - |r|]](n);
      }
    }
  }

  lemma PairsCover(all: seq<Name>, n: Name, filters: seq<Name -> bool>, r: seq<Name>, at: seq<(nat, nat)>,
                   js: seq<nat>, more: seq<(nat, nat)>)
    requires Pairs(all, filters, r, at)
    requires |js| == |more| && forall k :: 0 <= k < |js| ==> more[k] == (|all|, js[k])
    requires forall j :: 0 <= j < |filters| && filters[j](n) ==> j in js
    ensures forall i, j :: 0 <= i < |all + [n]| && 0 <= j < |filters| && filters[j]((all + [n])[i]) ==>
              (i, j) in at + more
  {
    forall i, j | 0 <= i < |all + [n]| && 0 <= j < |filters| && filters[j]((all + [n])[i])
      ensures (i, j) in at + more
    {
      if i < |all| {
        assert filters[j](all[i]) && (i, j) in at;
      } else {
        var k :| 0 <= k < |js| && js[k] == j;
        assert more[k] == (i, j) && more[k] in more;
      }
    }
  }

  lemma FilteredExactly(all: seq<Name>, filters: seq<Name -> bool>, n: Name)
    ensures n in Filtered(all, filters) <==> n in all && exists j :: 0 <= j < |filters| && filters[j](n)
  {
    var r := Filtered(all, filters);
    var at := FilteredPairs(all, filters);
    if n in r {
      var k :| 0 <= k < |r| && r[k] == n;
      assert filters[at[k].1](n);
    }
    if n in all && exists j :: 0 <= j < |filters| && filters[j](n) {
      var i :| 0 <= i < |all| && all[i] == n;
      var j :| 0 <= j < |filters| && filters[j](n);
      assert (i, j) in at;
      var k :| 0 <= k < |at| && at[k] == (i, j);
      assert r[k] == n;
    }
  }

  // ---- the member names ----

  /** What the include-all options append. */
  function Appended(o: GroupOption, allProxies: seq<Name>): seq<Name> {
    if !(o.includeAll || o.includeAllProxies) then []
    else if o.filters == [] then allProxies else Filtered(allProxies, o.filters)
  }

  lemma {:induction false} AppendedExactly(o: GroupOption, allProxies: seq<Name>, n: Name)
    ensures n in Appended(o, allProxies) <==> Included(o, allProxies, n)
  {
    FilteredExactly(allProxies, o.filters, n);
  }

  lemma {:induction false} EmptyExactly(o: GroupOption, allProxies: seq<Name>, allProviders: seq<Name>)
    requires o.includeAll || o.includeAllProxies
    ensures o.proxies + Appended(o, allProxies) == [] && UseNames(o, allProviders) == []
            <==> LeftEmpty(o, allProxies, allProviders)
  {
    UseNamesEmpty(o, allProviders);
    var ps := Appended(o, allProxies);
    forall n | n in allProxies ensures n in ps <==> Included(o, allProxies, n) {
      AppendedExactly(o, allProxies, n);
    }
    if ps != [] {
      assert ps[0] in ps;
      AppendedExactly(o, allProxies, ps[0]);
    }
  }

  /** The member names are exactly these. */
  lemma {:induction false} MemberExactly(o: GroupOption, allProxies: seq<Name>, allProviders: seq<Name>, n: Name)
    ensures n in MemberNames(o, allProxies, allProviders) <==> IsMember(o, allProxies, allProviders, n)
  {
    AppendedExactly(o, allProxies, n);
    if o.includeAll || o.includeAllProxies { EmptyExactly(o, allProxies, allProviders); }
  }

  /** In order: the group's own list first, then the appended ones, all of them or pair by pair. */
  lemma {:induction false} MembersInOrder(o: GroupOption, allProxies: seq<Name>, allProviders: seq<Name>)
    returns (at: seq<(nat, nat)>)
    requires !LeftEmpty(o, allProxies, allProviders)
    ensures var names := MemberNames(o, allProxies, allProviders);
            && o.proxies <= names
            && (!o.includeAll && !o.includeAllProxies ==> names == o.proxies)
            && ((o.includeAll || o.includeAllProxies) && o.filters == [] ==> names == o.proxies + allProxies)
            && ((o.includeAll || o.includeAllProxies) && o.filters != [] ==>
                  Pairs(allProxies, o.filters, names[|o.proxies|..], at))
  {
    at := FilteredPairs(allProxies, o.filters);
    if o.includeAll || o.includeAllProxies { EmptyExactly(o, allProxies, allProviders); }
  }

  /** The only member of a group left empty is its fallback. */
  lemma {:induction false} MembersLeftEmpty(o: GroupOption, allProxies: seq<Name>, allProviders: seq<Name>)
    requires LeftEmpty(o, allProxies, allProviders)
    ensures MemberNames(o, allProxies, allProviders)
         == [EmptyName(o)]
  {
    EmptyExactly(o, allProxies, allProviders);
  }

  // ---- building a group ----

  /** The group has members, or providers. */
  ghost predicate HasMember(o: GroupOption, allProxies: seq<Name>, allProviders: seq<Name>) {
    exists n :: IsMember(o, allProxies, allProviders, n)
  }

  ghost predicate HasProvider(o: GroupOption, allProviders: seq<Name>) {
    exists n :: Uses(o, allProviders, n)
  }

  /** Exactly what a group needs to be built. */
  ghost predicate Buildable(reg: Reg, o: GroupOption, allProxies: seq<Name>, allProviders: seq<Name>) {
    && o.groupType in {UrlTest, Select, Fallback, LoadBalance}
    && o.name != "" && o.name !in reg.proxies && EmptyName(o) in reg.proxies
    && (HasMember(o, allProxies, allProviders) || HasProvider(o, allProviders))
    && (forall n :: Uses(o, allProviders, n) ==> n in reg.providers && reg.providers[n] == External)
    && (forall n :: IsMember(o, allProxies, allProviders, n) ==> n in reg.proxies)
    && (HasMember(o, allProxies, allProviders) ==> o.name !in reg.providers)
  }

  lemma {:induction false} ResolveExactly(proxies: map<Name, nat>, list: seq<Name>)
    ensures Resolve(proxies, list).Ok? <==> forall n :: n in list ==> n in proxies
  {
  }

  lemma {:induction false} MembersExist(o: GroupOption, allProxies: seq<Name>, allProviders: seq<Name>)
    ensures MemberNames(o, allProxies, allProviders) != [] <==> HasMember(o, allProxies, allProviders)
  {
    var names := MemberNames(o, allProxies, allProviders);
    if names != [] {
      assert names[0] in names;
      MemberExactly(o, allProxies, allProviders, names[0]);
    }
    if n :| IsMember(o, allProxies, allProviders, n) {
      MemberExactly(o, allProxies, allProviders, n);
    }
  }

  lemma {:induction false} MembersKnown(reg: Reg, o: GroupOption, allProxies: seq<Name>, allProviders: seq<Name>)
    ensures Resolve(reg.proxies, MemberNames(o, allProxies, allProviders)).Ok?
            <==> forall n :: IsMember(o, allProxies, allProviders, n) ==> n in reg.proxies
  {
    ResolveExactly(reg.proxies, MemberNames(o, allProxies, allProviders));
    forall n ensures n in MemberNames(o, allProxies, allProviders) <==> IsMember(o, allProxies, allProviders, n) {
      MemberExactly(o, allProxies, allProviders, n);
    }
  }

  lemma {:induction false} ProvidersKnown(reg: Reg, o: GroupOption, allProviders: seq<Name>)
    ensures CheckUse(reg.providers, UseNames(o, allProviders)) == None
            <==> forall n :: Uses(o, allProviders, n) ==> n in reg.providers && reg.providers[n] == External
  {
    forall n ensures n in UseNames(o, allProviders) <==> Uses(o, allProviders, n) {
      UseNamesExactly(o, allProviders, n);
    }
  }

  /** A group is built exactly when nothing of this is missing. */
  lemma {:induction false} BuiltExactly(reg: Reg, o: GroupOption, allProxies: seq<Name>, allProviders: seq<Name>)
    ensures AddGroup(reg, o, allProxies, allProviders).Ok? <==> Buildable(reg, o, allProxies, allProviders)
  {
    MembersExist(o, allProxies, allProviders);
    MembersKnown(reg, o, allProxies, allProviders);
    ProvidersKnown(reg, o, allProviders);
    UseNamesEmpty(o, allProviders);
  }

  /** Which of it is missing when a group is not built. */
  ghost predicate Missing(reg: Reg, o: GroupOption, allProxies: seq<Name>, allProviders: seq<Name>, e: Error) {
    match e
    case BadFormat => o.groupType == NoType || o.name == ""
    case FallbackNotFound(n) => n == EmptyName(o) && n !in reg.proxies
    case MissingProxy => !HasMember(o, allProxies, allProviders) && !HasProvider(o, allProviders)
    case ProviderNotFound(n) => Uses(o, allProviders, n) && n !in reg.providers
    case GroupInUse(n) => Uses(o, allProviders, n) && n in reg.providers && reg.providers[n].Compatible?
    case MemberNotFound(n) => IsMember(o, allProxies, allProviders, n) && n !in reg.proxies
    case DuplicateProvider => HasMember(o, allProxies, allProviders) && o.name in reg.providers
    case BadType => o.groupType == Unsupported
    case DuplicateName(n) => n == o.name && n in reg.proxies
    case Unsorted(_) => false
  }

  lemma {:induction false} ErrorSays(reg: Reg, o: GroupOption, allProxies: seq<Name>, allProviders: seq<Name>)
    ensures var r := AddGroup(reg, o, allProxies, allProviders);
            r.Err? ==> Missing(reg, o, allProxies, allProviders, r.error)
  {
    var r := AddGroup(reg, o, allProxies, allProviders);
    MembersExist(o, allProxies, allProviders);
    UseNamesEmpty(o, allProviders);
    if r.Err? && (r.error.ProviderNotFound? || r.error.GroupInUse?) {
      UseNamesExactly(o, allProviders, r.error.name);
    }
    if r.Err? && r.error.MemberNotFound? {
      MemberExactly(o, allProxies, allProviders, r.error.name);
    }
  }

  /** `g` is the group `o` asks for: its members are what the member names stand for, its own list first. */
  ghost predicate Holds(proxies: map<Name, nat>, o: GroupOption, allProxies: seq<Name>, allProviders: seq<Name>,
                        g: Adapter)
  {
    && g.Group? && EmptyName(o) in proxies && g.fallback == proxies[EmptyName(o)]
    && (g.external <==> HasProvider(o, allProviders))
    && (forall n :: IsMember(o, allProxies, allProviders, n) ==> n in proxies && proxies[n] in g.members)
    && (forall id :: id in g.members ==>
          exists n :: n in proxies && proxies[n] == id && IsMember(o, allProxies, allProviders, n))
    && |o.proxies| <= |g.members|
    && forall i :: 0 <= i < |o.proxies| ==> o.proxies[i] in proxies && g.members[i] == proxies[o.proxies[i]]
  }

  lemma {:induction false} OwnFirst(o: GroupOption, allProxies: seq<Name>, allProviders: seq<Name>)
    ensures o.proxies <= MemberNames(o, allProxies, allProviders)
  {
  }

  lemma {:induction false} ResolvedHold(proxies: map<Name, nat>, o: GroupOption, allProxies: seq<Name>,
                                        allProviders: seq<Name>, fallback: nat, external: bool)
    requires var r := Resolve(proxies, MemberNames(o, allProxies, allProviders)); r.Ok?
    requires EmptyName(o) in proxies && fallback == proxies[EmptyName(o)]
    requires external <==> HasProvider(o, allProviders)
    ensures var ids := Resolve(proxies, MemberNames(o, allProxies, allProviders)).value;
            Holds(proxies, o, allProxies, allProviders, Group(ids, fallback, external))
  {
    var names := MemberNames(o, allProxies, allProviders);
    var ids := Resolve(proxies, names).value;
    OwnFirst(o, allProxies, allProviders);
    forall n | IsMember(o, allProxies, allProviders, n) ensures n in proxies && proxies[n] in ids {
      MemberExactly(o, allProxies, allProviders, n);
      var i :| 0 <= i < |names| && names[i] == n;
      assert ids[i] == proxies[names[i]];
    }
    forall id | id in ids
      ensures exists n :: n in proxies && proxies[n] == id && IsMember(o, allProxies, allProviders, n)
    {
      var i :| 0 <= i < |ids| && ids[i] == id;
      assert names[i] in names;
      MemberExactly(o, allProxies, allProviders, names[i]);
    }
  }

  /** What building a group adds: the group under its name, and its members as a provider of that name if it has any. */
  lemma {:induction false} BuiltGroup(reg: Reg, o: GroupOption, allProxies: seq<Name>, allProviders: seq<Name>)
    requires Buildable(reg, o, allProxies, allProviders)
    ensures var r := AddGroup(reg, o, allProxies, allProviders);
            && r.Ok? && |r.value.store| == |reg.store| + 1 && r.value.store[..|reg.store|] == reg.store
            && r.value.proxies == reg.proxies[o.name := |reg.store|]
            && Holds(reg.proxies, o, allProxies, allProviders, r.value.store[|reg.store|])
            && r.value.providers == if HasMember(o, allProxies, allProviders)
                                    then reg.providers[o.name := Compatible(r.value.store[|reg.store|].members)]
                                    else reg.providers
  {
    BuiltExactly(reg, o, allProxies, allProviders);
    MembersExist(o, allProxies, allProviders);
    UseNamesEmpty(o, allProviders);
    ResolvedHold(reg.proxies, o, allProxies, allProviders, reg.proxies[EmptyName(o)],
                 UseNames(o, allProviders) != []);
  }

  // ---- in the finished registry ----

  /** `later` has all of `reg`, under the same names and at the same places. */
  ghost predicate Extends(later: Reg, reg: Reg) {
    && |reg.store| <= |later.store| && later.store[..|reg.store|] == reg.store
    && forall n :: n in reg.proxies ==> n in later.proxies && later.proxies[n] == reg.proxies[n]
  }

  lemma ExtendsOn(a: Reg, b: Reg, c: Reg)
    requires Extends(b, a) && Extends(c, b)
    ensures Extends(c, a)
  {
    assert c.store[..|a.store|] == b.store[..|a.store|];
  }

  lemma {:induction false} HoldsOn(later: map<Name, nat>, proxies: map<Name, nat>, o: GroupOption,
                                   allProxies: seq<Name>, allProviders: seq<Name>, g: Adapter)
    requires Holds(proxies, o, allProxies, allProviders, g)
    requires forall n :: n in proxies ==> n in later && later[n] == proxies[n]
    ensures Holds(later, o, allProxies, allProviders, g)
  {
    forall id | id in g.members
      ensures exists n :: n in later && later[n] == id && IsMember(o, allProxies, allProviders, n)
    {
      var n :| n in proxies && proxies[n] == id && IsMember(o, allProxies, allProviders, n);
      assert later[n] == id;
    }
  }

  lemma {:induction false} GroupsExtend(reg: Reg, os: seq<GroupOption>, allProxies: seq<Name>, allProviders: seq<Name>)
    requires AddGroups(reg, os, allProxies, allProviders).Ok?
    ensures Extends(AddGroups(reg, os, allProxies, allProviders).value, reg)
  {
    if os != [] {
      GroupsExtend(reg, Init(os), allProxies, allProviders);
      var before := AddGroups(reg, Init(os), allProxies, allProviders).value;
      BuiltExactly(before, Last(os), allProxies, allProviders);
      BuiltGroup(before, Last(os), allProxies, allProviders);
      ExtendsOn(reg, before, AddGroups(reg, os, allProxies, allProviders).value);
    }
  }

  /** The name stands for the group it configures. */
  ghost predicate Stands(reg: Reg, o: GroupOption, allProxies: seq<Name>, allProviders: seq<Name>) {
    && o.name in reg.proxies && reg.proxies[o.name] < |reg.store|
    && Holds(reg.proxies, o, allProxies, allProviders, reg.store[reg.proxies[o.name]])
  }

  lemma {:induction false} StandsOn(later: Reg, reg: Reg, o: GroupOption, allProxies: seq<Name>,
                                    allProviders: seq<Name>)
    requires Stands(reg, o, allProxies, allProviders) && Extends(later, reg)
    ensures Stands(later, o, allProxies, allProviders)
  {
    var g := reg.store[reg.proxies[o.name]];
    assert later.store[reg.proxies[o.name]] == later.store[..|reg.store|][reg.proxies[o.name]] == g;
    HoldsOn(later.proxies, reg.proxies, o, allProxies, allProviders, g);
  }

  /** Once all groups are built, each configured name stands for a group with exactly the members it asks for. */
  lemma {:induction false} GroupsStand(reg: Reg, os: seq<GroupOption>, i: nat, allProxies: seq<Name>,
                                       allProviders: seq<Name>)
    requires AddGroups(reg, os, allProxies, allProviders).Ok? && i < |os|
    ensures Stands(AddGroups(reg, os, allProxies, allProviders).value, os[i], allProxies, allProviders)
    decreases |os|
  {
    var before := AddGroups(reg, Init(os), allProxies, allProviders).value;
    LastStands(before, Last(os), allProxies, allProviders);
    if i < |os| - 1 {
      GroupsStand(reg, Init(os), i, allProxies, allProviders);
      StandsOn(AddGroups(reg, os, allProxies, allProviders).value, before, os[i], allProxies, allProviders);
    }
  }

  lemma {:induction false} LastStands(reg: Reg, o: GroupOption, allProxies: seq<Name>, allProviders: seq<Name>)
    requires AddGroup(reg, o, allProxies, allProviders).Ok?
    ensures var r := AddGroup(reg, o, allProxies, allProviders).value;
            Extends(r, reg) && Stands(r, o, allProxies, allProviders)
  {
    BuiltExactly(reg, o, allProxies, allProviders);
    BuiltGroup(reg, o, allProxies, allProviders);
    var r := AddGroup(reg, o, allProxies, allProviders).value;
    HoldsOn(r.proxies, reg.proxies, o, allProxies, allProviders, r.store[|reg.store|]);
  }

  /** The name stands for a leaf of that kind. */
  ghost predicate IsLeaf(reg: Reg, n: Name, kind: Kind) {
    n in reg.proxies && reg.proxies[n] < |reg.store| && reg.store[reg.proxies[n]] == Leaf(kind)
  }

  lemma IsLeafOn(later: Reg, reg: Reg, n: Name, kind: Kind)
    requires IsLeaf(reg, n, kind) && Extends(later, reg)
    ensures IsLeaf(later, n, kind)
  {
    assert later.store[..|reg.store|][reg.proxies[n]] == Leaf(kind);
  }

  ghost predicate NamesLeaf(leaves: seq<(Name, Kind)>, n: Name) {
    exists i :: 0 <= i < |leaves| && leaves[i].0 == n
  }

  lemma NamesLeafLast(leaves: seq<(Name, Kind)>, n: Name)
    requires leaves != []
    ensures NamesLeaf(leaves, n) <==> NamesLeaf(Init(leaves), n) || n == Last(leaves).0
  {
    if NamesLeaf(Init(leaves), n) {
      var i :| 0 <= i < |Init(leaves)| && Init(leaves)[i].0 == n;
      assert leaves[i].0 == n;
    }
    if NamesLeaf(leaves, n) && n != Last(leaves).0 {
      var i :| 0 <= i < |leaves| && leaves[i].0 == n;
      assert Init(leaves)[i].0 == n;
    }
  }

  lemma {:induction false} LeafNames(reg: Reg, leaves: seq<(Name, Kind)>, n: Name)
    requires AddLeaves(reg, leaves).Ok?
    ensures n in AddLeaves(reg, leaves).value.proxies <==> n in reg.proxies || NamesLeaf(leaves, n)
    decreases |leaves|
  {
    if leaves != [] {
      LeafNames(reg, Init(leaves), n);
      NamesLeafLast(leaves, n);
    }
  }

  ghost predicate AllNew(reg: Reg, leaves: seq<(Name, Kind)>) {
    && (forall i :: 0 <= i < |leaves| ==> leaves[i].0 !in reg.proxies)
    && forall i, j :: 0 <= i < j < |leaves| ==> leaves[i].0 != leaves[j].0
  }

  lemma AllNewLast(reg: Reg, leaves: seq<(Name, Kind)>)
    requires leaves != []
    ensures var n := Last(leaves).0;
            AllNew(reg, leaves) <==> AllNew(reg, Init(leaves)) && n !in reg.proxies && !NamesLeaf(Init(leaves), n)
  {
    assert leaves == Init(leaves) + [Last(leaves)];
    if i :| 0 <= i < |Init(leaves)| && Init(leaves)[i].0 == Last(leaves).0 {
      assert leaves[i].0 == leaves[|leaves| - 1].0;
    }
  }

  /** Leaves are added exactly if every name is new. */
  lemma {:induction false} LeavesExactly(reg: Reg, leaves: seq<(Name, Kind)>)
    ensures AddLeaves(reg, leaves).Ok? <==> AllNew(reg, leaves)
    decreases |leaves|
  {
    if leaves != [] {
      LeavesExactly(reg, Init(leaves));
      AllNewLast(reg, leaves);
      if AddLeaves(reg, Init(leaves)).Ok? { LeafNames(reg, Init(leaves), Last(leaves).0); }
    }
  }

  lemma {:induction false} LeavesExtend(reg: Reg, leaves: seq<(Name, Kind)>)
    requires AddLeaves(reg, leaves).Ok?
    ensures Extends(AddLeaves(reg, leaves).value, reg)
    decreases |leaves|
  {
    if leaves != [] {
      LeavesExtend(reg, Init(leaves));
      var before, after := AddLeaves(reg, Init(leaves)).value, AddLeaves(reg, leaves).value;
      assert after.store == before.store + [Leaf(Last(leaves).1)];
      ExtendsOn(reg, before, after);
    }
  }

  /** Each name then stands for a leaf of its kind. */
  lemma {:induction false} LeavesStand(reg: Reg, leaves: seq<(Name, Kind)>, i: nat)
    requires AddLeaves(reg, leaves).Ok? && i < |leaves|
    ensures IsLeaf(AddLeaves(reg, leaves).value, leaves[i].0, leaves[i].1)
    decreases |leaves|
  {
    if i < |leaves| - 1 {
      LeavesStand(reg, Init(leaves), i);
      IsLeafOn(AddLeaves(reg, leaves).value, AddLeaves(reg, Init(leaves)).value, leaves[i].0, leaves[i].1);
    }
  }

  // ---- GLOBAL ----

  /** The places of the names that do not stand for a PASS or PASS-RULE leaf, in order. */
  ghost predicate Places(reg: Reg, names: seq<Name>, ids: seq<nat>, at: seq<nat>) {
    && |at| == |ids|
    && (forall k :: 0 <= k < |ids| ==>
          && at[k] < |names| && names[at[k]] in reg.proxies && ids[k] == reg.proxies[names[at[k]]]
          && !Passes(reg, names[at[k]]))
    && (forall i: nat :: i < |names| && !Passes(reg, names[i]) ==> i in at)
    && forall k, l :: 0 <= k < l < |at| ==> at[k] < at[l]
  }

  ghost predicate Passes(reg: Reg, n: Name) {
    IsLeaf(reg, n, Pass) || IsLeaf(reg, n, PassRule)
  }

  lemma {:induction false} ListedPlaces(reg: Reg, names: seq<Name>) returns (at: seq<nat>)
    requires forall n :: n in names ==> n in reg.proxies
    requires forall n :: n in reg.proxies ==> reg.proxies[n] < |reg.store|
    ensures Places(reg, names, Listed(reg, names), at)
    decreases |names|
  {
    at := [];
    if names != [] {
      assert Last(names) in names && forall n :: n in Init(names) ==> n in names;
      var before := ListedPlaces(reg, Init(names));
      at := before + if Passes(reg, Last(names)) then [] else [|names| - 1];
      assert names == Init(names) + [Last(names)];
      MorePlaces(reg, Init(names), Last(names), Listed(reg, Init(names)), before);
    }
  }

  lemma MorePlaces(reg: Reg, names: seq<Name>, n: Name, ids: seq<nat>, at: seq<nat>)
    requires n in reg.proxies && Places(reg, names, ids, at)
    ensures Places(reg, names + [n], ids + if Passes(reg, n) then [] else [reg.proxies[n]],
                   at + if Passes(reg, n) then [] else [|names|])
  {
    var longer := at + if Passes(reg, n) then [] else [|names|];
    forall i: nat | i < |names + [n]| && !Passes(reg, (names + [n])[i]) ensures i in longer {
      if i < |names| {
        assert !Passes(reg, names[i]) && i in at;
      } else {
        assert longer[|at|] == i;
      }
    }
  }

  /** GLOBAL is a group of its own that falls back to COMPATIBLE and holds the names given, PASS ones left out. */
  ghost predicate IsGlobal(r: Reg, reg: Reg, names: seq<Name>, at: seq<nat>) {
    && |r.store| == |reg.store| + 1 && r.store[..|reg.store|] == reg.store
    && r.proxies == reg.proxies["GLOBAL" := |reg.store|] && r.providers == reg.providers
    && var g := r.store[|reg.store|];
       g.Group? && !g.external && "COMPATIBLE" in reg.proxies && g.fallback == reg.proxies["COMPATIBLE"]
       && Places(reg, names, g.members, at)
  }

  lemma {:induction false} GlobalAdded(reg: Reg, names: seq<Name>) returns (at: seq<nat>)
    requires forall n :: n in names ==> n in reg.proxies
    requires forall n :: n in reg.proxies ==> reg.proxies[n] < |reg.store|
    requires "COMPATIBLE" in reg.proxies
    ensures IsGlobal(AddGlobal(reg, names), reg, names, at)
  {
    at := ListedPlaces(reg, names);
  }

  /** DIRECT, REJECT, the configured proxies, and the groups as configured. */
  ghost predicate InOrder(leaves: seq<(Name, Kind)>, order: seq<Name>, names: seq<Name>) {
    && |names| == 2 + |leaves| + |order| && names[0] == "DIRECT" && names[1] == "REJECT"
    && (forall i :: 0 <= i < |leaves| ==> names[2 + i] == leaves[i].0)
    && names[2 + |leaves|..] == order
  }

  lemma OfferedInOrder(leaves: seq<(Name, Kind)>, order: seq<Name>)
    ensures InOrder(leaves, order, Offered(leaves, order))
  {
  }

  /** What a parsed registry has beyond its leaves and groups: a GLOBAL, unless a configured group has that name. */
  lemma {:induction false} GlobalHolds(leaves: seq<(Name, Kind)>, order: seq<Name>, os: seq<GroupOption>,
                                       providers: map<Name, Provider>, allProxies: seq<Name>, allProviders: seq<Name>)
    returns (reg: Reg, names: seq<Name>, at: seq<nat>)
    requires forall n :: n in order ==> n in NamesOf(os)
    requires Parsed(leaves, order, os, providers, allProxies, allProviders).Ok?
    ensures AddLeaves(Reg([], map[], providers), BUILT_IN + leaves).Ok?
    ensures AddGroups(AddLeaves(Reg([], map[], providers), BUILT_IN + leaves).value, os, allProxies, allProviders)
         == Ok(reg)
    ensures InOrder(leaves, order, names)
    ensures var r := Parsed(leaves, order, os, providers, allProxies, allProviders).value;
            if exists i :: 0 <= i < |os| && os[i].name == "GLOBAL" then r == reg else IsGlobal(r, reg, names, at)
  {
    reg := AddGroups(AddLeaves(Reg([], map[], providers), BUILT_IN + leaves).value, os, allProxies, allProviders).value;
    names := Offered(leaves, order);
    OfferedInOrder(leaves, order);
    GlobalNamed(os);
    BuiltIsKnown(leaves, order, os, providers, allProxies, allProviders);
    at := GlobalAdded(reg, names);
  }

  lemma {:induction false} GlobalNamed(os: seq<GroupOption>)
    ensures "GLOBAL" in NamesOf(os) <==> exists i :: 0 <= i < |os| && os[i].name == "GLOBAL"
    decreases |os|
  {
    if os != [] {
      GlobalNamed(Init(os));
      if i :| 0 <= i < |Init(os)| && Init(os)[i].name == "GLOBAL" {
        assert os[i].name == "GLOBAL";
      }
      if i :| 0 <= i < |os| - 1 && os[i].name == "GLOBAL" {
        assert Init(os)[i].name == "GLOBAL";
      }
    }
  }

  lemma {:induction false} LeafStands(leaves: seq<(Name, Kind)>, order: seq<Name>, os: seq<GroupOption>,
                                      providers: map<Name, Provider>, allProxies: seq<Name>, allProviders: seq<Name>,
                                      i: nat)
    requires forall n :: n in order ==> n in NamesOf(os)
    requires Parsed(leaves, order, os, providers, allProxies, allProviders).Ok?
    requires i < |BUILT_IN + leaves| && (BUILT_IN + leaves)[i].0 != "GLOBAL"
    ensures var r := Parsed(leaves, order, os, providers, allProxies, allProviders).value;
            IsLeaf(r, (BUILT_IN + leaves)[i].0, (BUILT_IN + leaves)[i].1)
  {
    var all := BUILT_IN + leaves;
    var base := AddLeaves(Reg([], map[], providers), all).value;
    GroupsExtend(base, os, allProxies, allProviders);
    LeavesStand(Reg([], map[], providers), all, i);
    IsLeafOn(AddGroups(base, os, allProxies, allProviders).value, base, all[i].0, all[i].1);
  }

  /**
   In a parsed registry a built-in or configured proxy is still a leaf of its kind; but a configured proxy
   called GLOBAL gives its name to the group.
   */
  lemma {:induction false} ParsedStands(leaves: seq<(Name, Kind)>, order: seq<Name>, os: seq<GroupOption>,
                                        providers: map<Name, Provider>, allProxies: seq<Name>, allProviders: seq<Name>)
    requires forall n :: n in order ==> n in NamesOf(os)
    requires Parsed(leaves, order, os, providers, allProxies, allProviders).Ok?
    ensures var r := Parsed(leaves, order, os, providers, allProxies, allProviders).value;
            && (forall i :: 0 <= i < |BUILT_IN| ==> IsLeaf(r, BUILT_IN[i].0, BUILT_IN[i].1))
            && forall i :: 0 <= i < |leaves| && leaves[i].0 != "GLOBAL" ==> IsLeaf(r, leaves[i].0, leaves[i].1)
  {
    var r := Parsed(leaves, order, os, providers, allProxies, allProviders).value;
    forall i | 0 <= i < |BUILT_IN| ensures IsLeaf(r, BUILT_IN[i].0, BUILT_IN[i].1) {
      LeafStands(leaves, order, os, providers, allProxies, allProviders, i);
    }
    forall i | 0 <= i < |leaves| && leaves[i].0 != "GLOBAL" ensures IsLeaf(r, leaves[i].0, leaves[i].1) {
      assert (BUILT_IN + leaves)[|BUILT_IN| + i] == leaves[i];
      LeafStands(leaves, order, os, providers, allProxies, allProviders, |BUILT_IN| + i);
    }
  }
}
