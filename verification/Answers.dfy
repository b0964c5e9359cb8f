/** What a group answers with, case by case, without the functions that compute it. */
module Answers {
  import opened Seqs
  import opened Selection
  import opened FilterOrder

  /** Some exclusion names the proxy, or its type. */
  ghost predicate Out(cfg: Config, p: Proxy) {
    || (exists i :: 0 <= i < |cfg.excludeFilters| && cfg.excludeFilters[i](p.name))
    || (exists i :: 0 <= i < |cfg.excludeKinds| && cfg.excludeKinds[i](p.kind))
  }

  /** The proxies of `ps` that no exclusion hits, in order. */
  ghost function Survivors(cfg: Config, ps: seq<Proxy>): seq<Proxy> {
    if ps == [] then [] else Survivors(cfg, ps[..|ps| - 1]) + if Out(cfg, ps[|ps| - 1]) then [] else [ps[|ps| - 1]]
  }

  /** The contents of the providers, one after the other. */
  function Joined(cs: seq<Content>): seq<Proxy> {
    if cs == [] then [] else Joined(cs[..|cs| - 1]) + cs[|cs| - 1].proxies
  }

  /** The proxies some filter matches, in order. */
  ghost function SomeMatch(ps: seq<Proxy>, filters: seq<Filter>): seq<Proxy> {
    if ps == [] then [] else
    var p := ps[|ps| - 1];
    SomeMatch(ps[..|ps| - 1], filters) + if exists i :: 0 <= i < |filters| && filters[i](p.name) then [p] else []
  }

  /** What the providers bring in: all of a Compatible one, of the others what some filter matches. */
  ghost function Brought(cfg: Config, cs: seq<Content>): seq<Proxy> {
    if cs == [] then [] else
    var c := cs[|cs| - 1];
    Brought(cfg, cs[..|cs| - 1]) + if c.compatible then c.proxies else SomeMatch(c.proxies, cfg.filters)
  }

  /** Provider by provider: all of a Compatible one, of others the first of each name, by first matching filter. */
  function OneByOne(cfg: Config, cs: seq<Content>): seq<Proxy> {
    if cs == [] then [] else
    var c := cs[|cs| - 1];
    OneByOne(cfg, cs[..|cs| - 1]) + if c.compatible then c.proxies else Ranked(c.proxies, cfg.filters, |cfg.filters|)
  }

  /** The list before exclusions. */
  ghost function Listed(cfg: Config, cs: seq<Content>): seq<Proxy> {
    if cfg.filters == [] then Joined(cs)
    else if |cs| <= 1 || |cfg.filters| == 1 then OneByOne(cfg, cs)
    else Ranked(Brought(cfg, cs), cfg.filters, |cfg.filters| + 1)
  }

  lemma OutIsExcluded(cfg: Config, p: Proxy)
    ensures Out(cfg, p) <==> Excluded(cfg, p)
  {
  }

  lemma {:induction false} RemainingSurvive(cfg: Config, ps: seq<Proxy>)
    ensures Remaining(cfg, ps) == Survivors(cfg, ps)
    decreases |ps|
  {
    if ps != [] {
      OutIsExcluded(cfg, Last(ps));
      RemainingSurvive(cfg, Init(ps));
    }
  }

  lemma SnocParts(cfg: Config, cs: seq<Content>)
    requires cs != []
    ensures Flatten(Parts(cfg, cs)) == Flatten(Parts(cfg, Init(cs))) + Part(cfg, Last(cs))
    ensures Flatten(Kept(cfg, cs)) == Flatten(Kept(cfg, Init(cs))) + KeptOf(cfg, Last(cs))
  {
    assert Init(Parts(cfg, cs)) == Parts(cfg, Init(cs)) && Last(Parts(cfg, cs)) == Part(cfg, Last(cs));
    assert Init(Kept(cfg, cs)) == Kept(cfg, Init(cs)) && Last(Kept(cfg, cs)) == KeptOf(cfg, Last(cs));
  }

  lemma {:induction false} UnfilteredParts(cfg: Config, cs: seq<Content>)
    requires cfg.filters == []
    ensures Flatten(Parts(cfg, cs)) == Joined(cs)
    decreases |cs|
  {
    if cs != [] {
      SnocParts(cfg, cs);
      UnfilteredParts(cfg, Init(cs));
    }
  }

  lemma {:induction false} FilteredParts(cfg: Config, cs: seq<Content>)
    requires cfg.filters != []
    ensures Flatten(Parts(cfg, cs)) == OneByOne(cfg, cs)
    decreases |cs|
  {
    if cs != [] {
      SnocParts(cfg, cs);
      FilteredParts(cfg, Init(cs));
      OrderIsRanked(Last(cs).proxies, cfg.filters, |cfg.filters|);
    }
  }

  lemma MatchedByRank(n: Name, filters: seq<Filter>)
    ensures Rank(n, filters) < |filters| <==> exists i :: 0 <= i < |filters| && filters[i](n)
  {
  }

  lemma {:induction false} MatchedSomeMatch(ps: seq<Proxy>, filters: seq<Filter>)
    ensures Matched(ps, filters) == SomeMatch(ps, filters)
    decreases |ps|
  {
    if ps != [] {
      MatchedByRank(Last(ps).name, filters);
      MatchedSomeMatch(Init(ps), filters);
    }
  }

  lemma {:induction false} KeptIsBrought(cfg: Config, cs: seq<Content>)
    requires cfg.filters != []
    ensures Flatten(Kept(cfg, cs)) == Brought(cfg, cs)
    decreases |cs|
  {
    if cs != [] {
      SnocParts(cfg, cs);
      KeptIsBrought(cfg, Init(cs));
      MatchedSomeMatch(Last(cs).proxies, cfg.filters);
    }
  }

  /** What every group computes, whatever its filters and however many its providers. */
  lemma ComputeIs(cfg: Config, cs: seq<Content>)
    ensures Compute(cfg, cs) == Survivors(cfg, Listed(cfg, cs))
  {
    RemainingSurvive(cfg, Listed(cfg, cs));
    if cfg.filters == [] {
      UnfilteredParts(cfg, cs);
    } else if |cs| <= 1 || |cfg.filters| == 1 {
      FilteredParts(cfg, cs);
    } else {
      ComputeIsStableSort(cfg, cs);
      KeptIsBrought(cfg, cs);
    }
  }

  /** The parts one after the other. */
  function Concat(parts: seq<seq<Proxy>>): seq<Proxy> {
    if parts == [] then [] else Concat(parts[..|parts| - 1]) + parts[|parts| - 1]
  }

  lemma {:induction false} FlattenIsConcat(parts: seq<seq<Proxy>>)
    ensures Flatten(parts) == Concat(parts)
    decreases |parts|
  {
    if parts != [] {
      FlattenIsConcat(Init(parts));
    }
  }

  /** The same from any parts, as when contents change while they are read. */
  lemma AssembleIs(cfg: Config, parts: seq<seq<Proxy>>)
    ensures var all := Concat(parts);
            Assemble(cfg, parts)
            == Survivors(cfg, if |parts| <= 1 || |cfg.filters| <= 1 then all
                              else Ranked(all, cfg.filters, |cfg.filters| + 1))
  {
    var all := Concat(parts);
    FlattenIsConcat(parts);
    OrderIsRanked(all, cfg.filters, |cfg.filters| + 1);
    RemainingSurvive(cfg, all);
    RemainingSurvive(cfg, Ranked(all, cfg.filters, |cfg.filters| + 1));
  }

  // ---- what the sort holds, by positions ----

  /** No earlier proxy of `ps` has the name of the one at `k`. */
  ghost predicate FirstAt(ps: seq<Proxy>, k: nat) {
    k < |ps| && forall j :: 0 <= j < k ==> ps[j].name != ps[k].name
  }

  lemma FirstAtIsFirst(ps: seq<Proxy>, k: nat)
    requires k < |ps|
    ensures FirstAt(ps, k) <==> IsFirst(ps, k)
  {
    if FirstAt(ps, k) {
      forall i | 0 <= i < |ps[..k]| ensures ps[..k][i].name != ps[k].name {
      }
    } else {
      var j :| 0 <= j < k && ps[j].name == ps[k].name;
      assert ps[..k][j].name == ps[k].name;
    }
  }

  /**
   The positions a sort by filters takes: first ones of their name only, all of those whose first matching
   filter is below `ranks`, by that filter and then by position.
   */
  ghost predicate Positions(ps: seq<Proxy>, filters: seq<Filter>, ranks: nat, r: seq<Proxy>, idx: seq<nat>) {
    && |idx| == |r|
    && (forall i :: 0 <= i < |r| ==> FirstAt(ps, idx[i]) && r[i] == ps[idx[i]] && Rank(r[i].name, filters) < ranks)
    && (forall k: nat :: FirstAt(ps, k) && Rank(ps[k].name, filters) < ranks ==> k in idx)
    && forall i, j :: 0 <= i < j < |r| ==>
         var a, b := Rank(r[i].name, filters), Rank(r[j].name, filters);
         a < b || (a == b && idx[i] < idx[j])
  }

  lemma RankedPositions(ps: seq<Proxy>, filters: seq<Filter>, ranks: nat) returns (idx: seq<nat>)
    ensures Positions(ps, filters, ranks, Ranked(ps, filters, ranks), idx)
  {
    idx := Order(ps, filters, ranks);
    OrderIsRanked(ps, filters, ranks);
    OrderAscends(ps, filters, ranks);
    var r := Ranked(ps, filters, ranks);
    forall i | 0 <= i < |r| ensures FirstAt(ps, idx[i]) && r[i] == ps[idx[i]] && Rank(r[i].name, filters) < ranks {
      assert idx[i] in idx;
      FirstAtIsFirst(ps, idx[i]);
    }
    forall k: nat | FirstAt(ps, k) && Rank(ps[k].name, filters) < ranks ensures k in idx {
      FirstAtIsFirst(ps, k);
    }
    forall i, j | 0 <= i < j < |r|
      ensures var a, b := Rank(r[i].name, filters), Rank(r[j].name, filters); a < b || (a == b && idx[i] < idx[j])
    {
      assert Before(ps, filters, idx[i], idx[j]);
    }
  }

  // ---- which names are answered ----

  ghost predicate Answers(r: seq<Proxy>, n: Name) {
    exists i :: 0 <= i < |r| && r[i].name == n
  }

  /** A survivor is a proxy of the list that no exclusion hits. */
  lemma {:induction false} SurvivorsHold(cfg: Config, ps: seq<Proxy>, p: Proxy)
    ensures p in Survivors(cfg, ps) <==> p in ps && !Out(cfg, p)
    decreases |ps|
  {
    if ps != [] {
      assert ps == Init(ps) + [Last(ps)];
      SurvivorsHold(cfg, Init(ps), p);
    }
  }

  lemma AnswersBy(r: seq<Proxy>, p: Proxy)
    requires p in r
    ensures Answers(r, p.name)
  {
    var i :| 0 <= i < |r| && r[i] == p;
  }

  /**
   A name that a sorted list brings in is answered exactly when the first proxy of that name is not
   excluded: a later one of another type does not stand in for it.
   */
  lemma FirstDecides(cfg: Config, ps: seq<Proxy>, ranks: nat, k: nat)
    requires FirstAt(ps, k) && Rank(ps[k].name, cfg.filters) < ranks
    ensures Answers(Survivors(cfg, Ranked(ps, cfg.filters, ranks)), ps[k].name) <==> !Out(cfg, ps[k])
  {
    var r, n := Ranked(ps, cfg.filters, ranks), ps[k].name;
    var idx := RankedPositions(ps, cfg.filters, ranks);
    var m :| 0 <= m < |idx| && idx[m] == k;
    assert r[m] == ps[k] && r[m] in r;
    SurvivorsHold(cfg, r, ps[k]);
    if !Out(cfg, ps[k]) {
      AnswersBy(Survivors(cfg, r), ps[k]);
    }
    if Answers(Survivors(cfg, r), n) {
      var s := Survivors(cfg, r);
      var i :| 0 <= i < |s| && s[i].name == n;
      SurvivorsHold(cfg, r, s[i]);
      assert s[i] in s;
      OnlyFirst(ps, cfg.filters, ranks, idx, k, s[i]);
    }
  }

  /** The only proxy of its name that a sorted list holds is the first one. */
  lemma OnlyFirst(ps: seq<Proxy>, filters: seq<Filter>, ranks: nat, idx: seq<nat>, k: nat, p: Proxy)
    requires Positions(ps, filters, ranks, Ranked(ps, filters, ranks), idx)
    requires FirstAt(ps, k) && p in Ranked(ps, filters, ranks) && p.name == ps[k].name
    ensures p == ps[k]
  {
    var r := Ranked(ps, filters, ranks);
    var i :| 0 <= i < |r| && r[i] == p;
    assert FirstAt(ps, idx[i]) && ps[idx[i]].name == ps[k].name;
  }

  /** Without filters every proxy of every provider is answered unless an exclusion hits it. */
  lemma UnfilteredAnswers(cfg: Config, cs: seq<Content>, p: Proxy)
    requires cfg.filters == []
    ensures p in Compute(cfg, cs) <==> p in Joined(cs) && !Out(cfg, p)
  {
    ComputeIs(cfg, cs);
    SurvivorsHold(cfg, Joined(cs), p);
  }

  /**
   A provider by itself answers a name: a Compatible one with any proxy of that name that is not excluded,
   another one if some filter matches the name and the first proxy of that name is not excluded.
   */
  ghost predicate Offers(cfg: Config, c: Content, n: Name) {
    if c.compatible then exists p :: p in c.proxies && p.name == n && !Out(cfg, p)
    else Rank(n, cfg.filters) < |cfg.filters| && FirstSurvives(cfg, c.proxies, n)
  }

  /** The first proxy of that name is there and not excluded. */
  ghost predicate FirstSurvives(cfg: Config, ps: seq<Proxy>, n: Name) {
    exists k: nat :: FirstAt(ps, k) && ps[k].name == n && !Out(cfg, ps[k])
  }

  lemma {:induction false} SurvivorsOfBoth(cfg: Config, a: seq<Proxy>, b: seq<Proxy>)
    ensures Survivors(cfg, a + b) == Survivors(cfg, a) + Survivors(cfg, b)
    decreases |b|
  {
    if b == [] {
      assert a + b == a;
    } else {
      assert Init(a + b) == a + Init(b) && Last(a + b) == Last(b);
      SurvivorsOfBoth(cfg, a, Init(b));
    }
  }

  lemma AnswersOfBoth(a: seq<Proxy>, b: seq<Proxy>, n: Name)
    ensures Answers(a + b, n) <==> Answers(a, n) || Answers(b, n)
  {
    if Answers(a + b, n) {
      var i :| 0 <= i < |a + b| && (a + b)[i].name == n;
      assert i < |a| ==> a[i].name == n;
      assert i >= |a| ==> b[i - |a|].name == n;
    }
    if Answers(a, n) {
      var i :| 0 <= i < |a| && a[i].name == n;
      assert (a + b)[i].name == n;
    }
    if Answers(b, n) {
      var i :| 0 <= i < |b| && b[i].name == n;
      assert (a + b)[|a| + i].name == n;
    }
  }

  lemma CompatibleOffers(cfg: Config, ps: seq<Proxy>, n: Name)
    ensures Answers(Survivors(cfg, ps), n) <==> exists p :: p in ps && p.name == n && !Out(cfg, p)
  {
    var s := Survivors(cfg, ps);
    if Answers(s, n) {
      var i :| 0 <= i < |s| && s[i].name == n;
      SurvivorsHold(cfg, ps, s[i]);
      assert s[i] in s;
    }
    if p :| p in ps && p.name == n && !Out(cfg, p) {
      SurvivorsHold(cfg, ps, p);
      AnswersBy(s, p);
    }
  }

  lemma RankedAreFirst(ps: seq<Proxy>, filters: seq<Filter>, ranks: nat, p: Proxy) returns (k: nat)
    requires p in Ranked(ps, filters, ranks)
    ensures FirstAt(ps, k) && ps[k] == p && Rank(p.name, filters) < ranks
  {
    var idx := RankedPositions(ps, filters, ranks);
    var m :| 0 <= m < |idx| && Ranked(ps, filters, ranks)[m] == p;
    k := idx[m];
  }

  /** A sorted list answers a name exactly when some counted filter, or none, matches and the first of it survives. */
  lemma RankedAnswers(cfg: Config, ps: seq<Proxy>, ranks: nat, n: Name)
    ensures Answers(Survivors(cfg, Ranked(ps, cfg.filters, ranks)), n)
            <==> Rank(n, cfg.filters) < ranks && FirstSurvives(cfg, ps, n)
  {
    var r := Ranked(ps, cfg.filters, ranks);
    var s := Survivors(cfg, r);
    if Answers(s, n) {
      var i :| 0 <= i < |s| && s[i].name == n;
      assert s[i] in s;
      SurvivorsHold(cfg, r, s[i]);
      var k := RankedAreFirst(ps, cfg.filters, ranks, s[i]);
    }
    if Rank(n, cfg.filters) < ranks && FirstSurvives(cfg, ps, n) {
      var k: nat :| FirstAt(ps, k) && ps[k].name == n && !Out(cfg, ps[k]);
      FirstDecides(cfg, ps, ranks, k);
    }
  }

  /**
   With several providers and filters, a name is answered exactly when the first proxy of that name that
   any of them brings in is not excluded.
   */
  lemma FirstBroughtDecides(cfg: Config, cs: seq<Content>, n: Name)
    requires |cs| > 1 && |cfg.filters| > 1
    ensures Answers(Compute(cfg, cs), n) <==> FirstSurvives(cfg, Brought(cfg, cs), n)
  {
    ComputeIs(cfg, cs);
    RankedAnswers(cfg, Brought(cfg, cs), |cfg.filters| + 1, n);
  }

  ghost predicate SomeOffers(cfg: Config, cs: seq<Content>, n: Name) {
    exists i :: 0 <= i < |cs| && Offers(cfg, cs[i], n)
  }

  /** With one filter, or one provider, a name is answered exactly when some provider by itself offers it. */
  lemma SomeProviderDecides(cfg: Config, cs: seq<Content>, n: Name)
    requires cfg.filters != [] && (|cs| <= 1 || |cfg.filters| == 1)
    ensures Answers(Compute(cfg, cs), n) <==> exists i :: 0 <= i < |cs| && Offers(cfg, cs[i], n)
  {
    ComputeIs(cfg, cs);
    OneByOneOffers(cfg, cs, n);
  }

  lemma OneByOneOffers(cfg: Config, cs: seq<Content>, n: Name)
    ensures Answers(Survivors(cfg, OneByOne(cfg, cs)), n) <==> SomeOffers(cfg, cs, n)
  {
    for i := 0 to |cs|
      invariant Answers(Survivors(cfg, OneByOne(cfg, cs[..i])), n) <==> SomeOffers(cfg, cs[..i], n)
    {
      OneMoreOffers(cfg, cs[..i], cs[i], n);
      assert cs[..i] + [cs[i]] == cs[..i + 1];
    }
    assert cs[..|cs|] == cs;
  }

  lemma OneMoreOffers(cfg: Config, cs: seq<Content>, c: Content, n: Name)
    requires Answers(Survivors(cfg, OneByOne(cfg, cs)), n) <==> SomeOffers(cfg, cs, n)
    ensures Answers(Survivors(cfg, OneByOne(cfg, cs + [c])), n) <==> SomeOffers(cfg, cs + [c], n)
  {
    assert (cs + [c])[..|cs|] == cs;
    LastOffers(cfg, OneByOne(cfg, cs), c, n);
    SomeOffersSnoc(cfg, cs, c, n);
  }

  lemma LastOffers(cfg: Config, before: seq<Proxy>, c: Content, n: Name)
    ensures var part := if c.compatible then c.proxies else Ranked(c.proxies, cfg.filters, |cfg.filters|);
            Answers(Survivors(cfg, before + part), n) <==> Answers(Survivors(cfg, before), n) || Offers(cfg, c, n)
  {
    var part := if c.compatible then c.proxies else Ranked(c.proxies, cfg.filters, |cfg.filters|);
    SurvivorsOfBoth(cfg, before, part);
    AnswersOfBoth(Survivors(cfg, before), Survivors(cfg, part), n);
    if c.compatible { CompatibleOffers(cfg, c.proxies, n); } else { RankedAnswers(cfg, c.proxies, |cfg.filters|, n); }
  }

  lemma SomeOffersSnoc(cfg: Config, cs: seq<Content>, c: Content, n: Name)
    ensures SomeOffers(cfg, cs + [c], n) <==> SomeOffers(cfg, cs, n) || Offers(cfg, c, n)
  {
    assert (cs + [c])[|cs|] == c;
    forall i | 0 <= i < |cs| ensures (cs + [c])[i] == cs[i] {
    }
    if SomeOffers(cfg, cs, n) {
      var i :| 0 <= i < |cs| && Offers(cfg, cs[i], n);
      assert Offers(cfg, (cs + [c])[i], n);
    }
  }

  predicate AnyName(n: Name) { true }

  predicate KindX(k: string) { k == "x" }

  /** A proxy that no exclusion hits, hidden by an excluded one of the same name before it. */
  lemma HiddenByExcluded(a: Proxy, b: Proxy, cfg: Config)
    requires a.name == b.name && a.kind == "x" && b.kind == "y"
    requires cfg == Config([AnyName], [], [KindX])
    ensures !Out(cfg, b) && !Answers(Compute(cfg, [Content(false, [a, b])]), b.name)
  {
    assert cfg.filters[0](a.name) && cfg.excludeKinds[0](a.kind);
    MatchedByRank(a.name, cfg.filters);
    var c := Content(false, [a, b]);
    OneAnswers(cfg, c, a.name);
    assert FirstAt(c.proxies, 0) && !FirstAt(c.proxies, 1);
  }

  lemma OneAnswers(cfg: Config, c: Content, n: Name)
    requires cfg.filters != []
    ensures Answers(Compute(cfg, [c]), n) <==> Offers(cfg, c, n)
  {
    SomeProviderDecides(cfg, [c], n);
    assert [c][0] == c;
  }
}
