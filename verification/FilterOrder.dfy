/** The passes of `GetProxies` taken together: filtering each provider and reordering the whole is one stable sort. */
module FilterOrder {
  import opened Seqs
  import opened Selection

  // ---- a stable sort by rank, in terms of values ----

  /** The proxies whose first matching filter is `rank`, in order. */
  function OfRank(ps: seq<Proxy>, filters: seq<Filter>, rank: nat): (r: seq<Proxy>)
    ensures forall p :: p in r ==> Rank(p.name, filters) == rank
  {
    if ps == [] then [] else
    OfRank(Init(ps), filters, rank) + if Rank(Last(ps).name, filters) == rank then [Last(ps)] else []
  }

  /** The first proxy of each name, in order. */
  function Firsts(ps: seq<Proxy>): (r: seq<Proxy>)
    ensures forall p :: p in r ==> p in ps
  {
    if ps == [] then [] else
    assert ps == Init(ps) + [Last(ps)];
    Firsts(Init(ps)) + if NameIn(Init(ps), Last(ps).name) then [] else [Last(ps)]
  }

  /** The first proxies of each name, by first matching filter and within it in order, for the filters below `ranks`. */
  function Ranked(ps: seq<Proxy>, filters: seq<Filter>, ranks: nat): seq<Proxy> {
    if ranks == 0 then [] else Ranked(ps, filters, ranks - 1) + Firsts(OfRank(ps, filters, ranks - 1))
  }

  lemma NameInConcat(a: seq<Proxy>, b: seq<Proxy>, n: Name)
    ensures NameIn(a + b, n) <==> NameIn(a, n) || NameIn(b, n)
  {
    forall i | 0 <= i < |a| && a[i].name == n ensures NameIn(a + b, n) {
      assert (a + b)[i].name == n;
    }
    forall i | 0 <= i < |b| && b[i].name == n ensures NameIn(a + b, n) {
      assert (a + b)[|a| + i].name == n;
    }
  }

  lemma NameInOne(p: Proxy, n: Name)
    ensures NameIn([p], n) <==> p.name == n
  {
    assert [p][0].name == p.name;
  }

  lemma {:induction false} NameInFirsts(ps: seq<Proxy>, n: Name)
    ensures NameIn(Firsts(ps), n) <==> NameIn(ps, n)
  {
    if ps != [] {
      var p := Last(ps);
      assert ps == Init(ps) + [p];
      NameInFirsts(Init(ps), n);
      NameInConcat(Init(ps), [p], n);
      NameInConcat(Firsts(Init(ps)), [p], n);
      NameInOne(p, n);
      assert Firsts(Init(ps)) + [] == Firsts(Init(ps));
    }
  }

  /** A name's rank is the same wherever it occurs. */
  lemma {:induction false} NameInOfRank(ps: seq<Proxy>, filters: seq<Filter>, n: Name)
    ensures NameIn(OfRank(ps, filters, Rank(n, filters)), n) <==> NameIn(ps, n)
  {
    if ps != [] {
      var p, rank := Last(ps), Rank(n, filters);
      assert ps == Init(ps) + [p];
      NameInOfRank(Init(ps), filters, n);
      NameInConcat(Init(ps), [p], n);
      NameInConcat(OfRank(Init(ps), filters, rank), [p], n);
      NameInOne(p, n);
      assert OfRank(Init(ps), filters, rank) + [] == OfRank(Init(ps), filters, rank);
    }
  }

  lemma FirstsAppend(ps: seq<Proxy>, p: Proxy)
    ensures Firsts(ps + [p]) == if NameIn(ps, p.name) then Firsts(ps) else Firsts(ps) + [p]
  {
    assert Init(ps + [p]) == ps && Last(ps + [p]) == p;
    assert Firsts(ps) + [] == Firsts(ps);
  }

  lemma OfRankAppend(ps: seq<Proxy>, p: Proxy, filters: seq<Filter>, rank: nat)
    ensures OfRank(ps + [p], filters, rank)
      == if Rank(p.name, filters) == rank then OfRank(ps, filters, rank) + [p] else OfRank(ps, filters, rank)
  {
    assert Init(ps + [p]) == ps && Last(ps + [p]) == p;
    assert OfRank(ps, filters, rank) + [] == OfRank(ps, filters, rank);
  }

  /** One position further; `before` and `after` are the values of a bucket below and at it. */
  lemma FirstsNext(ps: seq<Proxy>, filters: seq<Filter>, rank: nat, k: nat, before: seq<Proxy>, after: seq<Proxy>)
    requires k < |ps| && before == Firsts(OfRank(ps[..k], filters, rank))
    requires after == if IsFirst(ps, k) && Rank(ps[k].name, filters) == rank then before + [ps[k]] else before
    ensures after == Firsts(OfRank(ps[..k + 1], filters, rank))
  {
    OfRankAppend(ps[..k], ps[k], filters, rank);
    assert ps[..k + 1] == ps[..k] + [ps[k]];
    if Rank(ps[k].name, filters) == rank {
      NameInOfRank(ps[..k], filters, ps[k].name);
      FirstsAppend(OfRank(ps[..k], filters, rank), ps[k]);
    }
  }

  /** The bucket of indices picks those values. */
  lemma BucketIsFirsts(ps: seq<Proxy>, filters: seq<Filter>, rank: nat, n: nat)
    requires n <= |ps|
    ensures Pick(ps, Bucket(ps, filters, rank, n)) == Firsts(OfRank(ps[..n], filters, rank))
  {
    var k: nat := 0;
    assert ps[..0] == [] && Bucket(ps, filters, rank, 0) == [];
    while k < n
      invariant k <= n && Pick(ps, Bucket(ps, filters, rank, k)) == Firsts(OfRank(ps[..k], filters, rank))
    {
      BucketNext(ps, filters, rank, k);
      var before, after := Pick(ps, Bucket(ps, filters, rank, k)), Pick(ps, Bucket(ps, filters, rank, k + 1));
      FirstsNext(ps, filters, rank, k, before, after);
      k := k + 1;
    }
  }

  /** The buckets one after the other are the stable sort. */
  lemma OrderIsRanked(ps: seq<Proxy>, filters: seq<Filter>, ranks: nat)
    ensures Pick(ps, Order(ps, filters, ranks)) == Ranked(ps, filters, ranks)
  {
    var rank: nat := 0;
    assert Order(ps, filters, 0) == [];
    while rank < ranks
      invariant rank <= ranks && Pick(ps, Order(ps, filters, rank)) == Ranked(ps, filters, rank)
    {
      OrderStep(ps, filters, rank);
      rank := rank + 1;
    }
  }

  lemma OrderStep(ps: seq<Proxy>, filters: seq<Filter>, rank: nat)
    requires Pick(ps, Order(ps, filters, rank)) == Ranked(ps, filters, rank)
    ensures Pick(ps, Order(ps, filters, rank + 1)) == Ranked(ps, filters, rank + 1)
  {
    PickConcat(ps, Order(ps, filters, rank), Bucket(ps, filters, rank, |ps|));
    BucketIsFirsts(ps, filters, rank, |ps|);
    assert ps[..|ps|] == ps;
  }

  // ---- dropping later proxies of a name early changes nothing ----

  lemma AppendAssoc(a: seq<Proxy>, b: seq<Proxy>, p: Proxy)
    ensures a + (b + [p]) == (a + b) + [p]
  {
  }

  lemma {:induction false} FirstsOfFront(a: seq<Proxy>, b: seq<Proxy>)
    ensures Firsts(Firsts(a) + b) == Firsts(a + b)
    decreases |b|
  {
    if b == [] {
      FirstsOfBack([], a);
      assert [] + Firsts(a) == Firsts(a) && [] + a == a;
      assert Firsts(a) + b == Firsts(a) && a + b == a;
    } else {
      FirstsOfFront(a, Init(b));
      assert b == Init(b) + [Last(b)];
      FrontStep(a, Init(b), Last(b));
    }
  }

  lemma FrontStep(a: seq<Proxy>, b: seq<Proxy>, p: Proxy)
    requires Firsts(Firsts(a) + b) == Firsts(a + b)
    ensures Firsts(Firsts(a) + (b + [p])) == Firsts(a + (b + [p]))
  {
    NameInFirsts(a, p.name);
    NameInConcat(Firsts(a), b, p.name);
    NameInConcat(a, b, p.name);
    FirstsAppend(Firsts(a) + b, p);
    FirstsAppend(a + b, p);
    AppendAssoc(Firsts(a), b, p);
    AppendAssoc(a, b, p);
  }

  lemma {:induction false} FirstsOfBack(a: seq<Proxy>, b: seq<Proxy>)
    ensures Firsts(a + Firsts(b)) == Firsts(a + b)
    decreases |b|
  {
    if b != [] {
      FirstsOfBack(a, Init(b));
      assert b == Init(b) + [Last(b)];
      BackStep(a, Init(b), Last(b));
    }
  }

  lemma BackStep(a: seq<Proxy>, b: seq<Proxy>, p: Proxy)
    requires Firsts(a + Firsts(b)) == Firsts(a + b)
    ensures Firsts(a + Firsts(b + [p])) == Firsts(a + (b + [p]))
  {
    FirstsAppend(b, p);
    FirstsAppend(a + b, p);
    FirstsAppend(a + Firsts(b), p);
    assert NameIn(a + Firsts(b), p.name) == NameIn(a + b, p.name) && (NameIn(b, p.name) ==> NameIn(a + b, p.name)) by {
      NameInFirsts(b, p.name);
      NameInConcat(a, b, p.name);
      NameInConcat(a, Firsts(b), p.name);
    }
    AppendAssoc(a, b, p);
    AppendAssoc(a, Firsts(b), p);
  }

  // ---- ranks of lists put together ----

  lemma {:induction false} OfRankConcat(a: seq<Proxy>, b: seq<Proxy>, filters: seq<Filter>, rank: nat)
    ensures OfRank(a + b, filters, rank) == OfRank(a, filters, rank) + OfRank(b, filters, rank)
  {
    if b == [] {
      assert a + b == a;
    } else {
      assert Init(a + b) == a + Init(b) && Last(a + b) == Last(b);
      OfRankConcat(a, Init(b), filters, rank);
    }
  }

  /** A list all of one rank. */
  lemma {:induction false} OfOneRank(ps: seq<Proxy>, filters: seq<Filter>, own: nat, rank: nat)
    requires forall p :: p in ps ==> Rank(p.name, filters) == own
    ensures OfRank(ps, filters, rank) == if rank == own then ps else []
  {
    if ps != [] {
      assert ps == Init(ps) + [Last(ps)];
      OfOneRank(Init(ps), filters, own, rank);
    }
  }

  lemma FirstsOfOneRank(ps: seq<Proxy>, filters: seq<Filter>, own: nat, rank: nat)
    ensures var top := Firsts(OfRank(ps, filters, own)); OfRank(top, filters, rank) == if rank == own then top else []
  {
    var ranked := OfRank(ps, filters, own);
    assert forall p :: p in Firsts(ranked) ==> p in ranked;
    OfOneRank(Firsts(ranked), filters, own, rank);
  }

  /** What a stable sort of the filters below `ranks` holds of one rank. */
  function Share(ps: seq<Proxy>, filters: seq<Filter>, ranks: nat, rank: nat): seq<Proxy> {
    if rank < ranks then Firsts(OfRank(ps, filters, rank)) else []
  }

  lemma OfRankRanked(ps: seq<Proxy>, filters: seq<Filter>, ranks: nat, rank: nat)
    ensures OfRank(Ranked(ps, filters, ranks), filters, rank) == Share(ps, filters, ranks, rank)
  {
    var top: nat := 0;
    assert Ranked(ps, filters, 0) == [];
    while top < ranks
      invariant top <= ranks && OfRank(Ranked(ps, filters, top), filters, rank) == Share(ps, filters, top, rank)
    {
      OfRankStep(ps, filters, top, rank);
      top := top + 1;
    }
  }

  lemma OfRankStep(ps: seq<Proxy>, filters: seq<Filter>, top: nat, rank: nat)
    ensures OfRank(Ranked(ps, filters, top), filters, rank) == Share(ps, filters, top, rank) ==>
              OfRank(Ranked(ps, filters, top + 1), filters, rank) == Share(ps, filters, top + 1, rank)
  {
    OfRankConcat(Ranked(ps, filters, top), Firsts(OfRank(ps, filters, top)), filters, rank);
    FirstsOfOneRank(ps, filters, top, rank);
  }

  /** The proxies some filter matches, in order. */
  function Matched(ps: seq<Proxy>, filters: seq<Filter>): seq<Proxy> {
    if ps == [] then [] else
    Matched(Init(ps), filters) + if Rank(Last(ps).name, filters) < |filters| then [Last(ps)] else []
  }

  lemma {:induction false} OfRankMatched(ps: seq<Proxy>, filters: seq<Filter>, rank: nat)
    ensures OfRank(Matched(ps, filters), filters, rank) == if rank < |filters| then OfRank(ps, filters, rank) else []
  {
    if ps != [] {
      var p, rest := Last(ps), Matched(Init(ps), filters);
      OfRankMatched(Init(ps), filters, rank);
      if Rank(p.name, filters) < |filters| {
        OfRankConcat(rest, [p], filters, rank);
        OfOneRank([p], filters, Rank(p.name, filters), rank);
      } else {
        assert rest + [] == rest;
      }
    }
  }

  // ---- the whole computation ----

  /**
   What a provider brings in, before any order: everything if Compatible or unfiltered, else what a filter
   matches.
   */
  function Kept(cfg: Config, cs: seq<Content>): (r: seq<seq<Proxy>>)
    ensures |r| == |cs|
  {
    seq(|cs|, i requires 0 <= i < |cs| => KeptOf(cfg, cs[i]))
  }

  function KeptOf(cfg: Config, c: Content): seq<Proxy> {
    if cfg.filters == [] || c.compatible then c.proxies else Matched(c.proxies, cfg.filters)
  }

  lemma PartKeepsFirsts(cfg: Config, c: Content, rank: nat)
    ensures Firsts(OfRank(Part(cfg, c), cfg.filters, rank)) == Firsts(OfRank(KeptOf(cfg, c), cfg.filters, rank))
  {
    if cfg.filters != [] && !c.compatible {
      var ranked := OfRank(c.proxies, cfg.filters, rank);
      OrderIsRanked(c.proxies, cfg.filters, |cfg.filters|);
      OfRankRanked(c.proxies, cfg.filters, |cfg.filters|, rank);
      OfRankMatched(c.proxies, cfg.filters, rank);
      FirstsOfFront(ranked, []);
      assert Firsts(ranked) + [] == Firsts(ranked) && ranked + [] == ranked;
    }
  }

  /** Lists that agree part by part agree as a whole. */
  lemma {:induction false} FlattenKeepsFirsts(a: seq<seq<Proxy>>, b: seq<seq<Proxy>>, filters: seq<Filter>, rank: nat)
    requires |a| == |b|
    requires forall i :: 0 <= i < |a| ==> Firsts(OfRank(a[i], filters, rank)) == Firsts(OfRank(b[i], filters, rank))
    ensures Firsts(OfRank(Flatten(a), filters, rank)) == Firsts(OfRank(Flatten(b), filters, rank))
  {
    if a != [] {
      FlattenKeepsFirsts(Init(a), Init(b), filters, rank);
      SplitFirsts(Flatten(Init(a)), Last(a), filters, rank);
      SplitFirsts(Flatten(Init(b)), Last(b), filters, rank);
    }
  }

  lemma SplitFirsts(x: seq<Proxy>, y: seq<Proxy>, filters: seq<Filter>, rank: nat)
    ensures Firsts(OfRank(x + y, filters, rank))
      == Firsts(Firsts(OfRank(x, filters, rank)) + Firsts(OfRank(y, filters, rank)))
  {
    var a, b := OfRank(x, filters, rank), OfRank(y, filters, rank);
    OfRankConcat(x, y, filters, rank);
    FirstsOfFront(a, b);
    FirstsOfBack(Firsts(a), b);
  }

  lemma SameRanked(x: seq<Proxy>, y: seq<Proxy>, filters: seq<Filter>, ranks: nat)
    requires forall rank: nat :: Firsts(OfRank(x, filters, rank)) == Firsts(OfRank(y, filters, rank))
    ensures Ranked(x, filters, ranks) == Ranked(y, filters, ranks)
  {
    var rank: nat := 0;
    while rank < ranks
      invariant rank <= ranks && Ranked(x, filters, rank) == Ranked(y, filters, rank)
    {
      assert Firsts(OfRank(x, filters, rank)) == Firsts(OfRank(y, filters, rank));
      rank := rank + 1;
    }
  }

  /** Filtering each provider first makes no difference to the reordering, but for what no filter matches. */
  lemma TwoPassesAreOne(cfg: Config, cs: seq<Content>)
    ensures Reordered(Flatten(Parts(cfg, cs)), cfg.filters) == Reordered(Flatten(Kept(cfg, cs)), cfg.filters)
  {
    var x, y, filters := Flatten(Parts(cfg, cs)), Flatten(Kept(cfg, cs)), cfg.filters;
    forall rank: nat ensures Firsts(OfRank(x, filters, rank)) == Firsts(OfRank(y, filters, rank)) {
      forall i | 0 <= i < |cs|
        ensures Firsts(OfRank(Parts(cfg, cs)[i], filters, rank)) == Firsts(OfRank(Kept(cfg, cs)[i], filters, rank))
      {
        PartKeepsFirsts(cfg, cs[i], rank);
      }
      FlattenKeepsFirsts(Parts(cfg, cs), Kept(cfg, cs), filters, rank);
    }
    SameRanked(x, y, filters, |filters| + 1);
    OrderIsRanked(x, filters, |filters| + 1);
    OrderIsRanked(y, filters, |filters| + 1);
  }

  /**
   With several providers and filters: of what the providers bring in, the first proxy of each name, by
   first matching filter, within it in order, unmatched ones last, and then the excluded ones taken out.
   */
  lemma ComputeIsStableSort(cfg: Config, cs: seq<Content>)
    requires |cs| > 1 && |cfg.filters| > 1
    ensures Compute(cfg, cs) == Remaining(cfg, Ranked(Flatten(Kept(cfg, cs)), cfg.filters, |cfg.filters| + 1))
  {
    TwoPassesAreOne(cfg, cs);
    OrderIsRanked(Flatten(Kept(cfg, cs)), cfg.filters, |cfg.filters| + 1);
  }
}
