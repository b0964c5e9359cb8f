/** What a proxy group offers: filter passes, whole-list reordering and exclusions of `GetProxies`. */
module Selection {
  import opened Seqs

  type Name = string

  /** `id` tells apart proxy objects that share a name. */
  datatype Proxy = Proxy(id: nat, name: Name, kind: string)

  type Filter = Name -> bool

  /** `excludeKinds` holds, for each excluded type, the case-insensitive comparison with it. */
  datatype Config = Config(filters: seq<Filter>, excludeFilters: seq<Filter>, excludeKinds: seq<string -> bool>)

  /** A provider's content; a Compatible provider's is never filtered. */
  datatype Content = Content(compatible: bool, proxies: seq<Proxy>)

  // ---- specification: indices by first matching filter ----

  /** The first filter that matches, or their number. */
  function Rank(n: Name, filters: seq<Filter>): (r: nat)
    ensures r <= |filters|
    ensures r < |filters| ==> filters[r](n)
    ensures forall i :: 0 <= i < r ==> !filters[i](n)
  {
    if filters == [] then 0 else
    var r := Rank(n, Init(filters));
    if r < |filters| - 1 || Last(filters)(n) then r else r + 1
  }

  predicate NameIn(ps: seq<Proxy>, n: Name) {
    exists i :: 0 <= i < |ps| && ps[i].name == n
  }

  /** No earlier proxy of `ps` has the name of the one at `k`. */
  predicate IsFirst(ps: seq<Proxy>, k: nat)
    requires k < |ps|
  {
    !NameIn(ps[..k], ps[k].name)
  }

  /** Below position `n`: the first proxies of their name whose first matching filter is `rank`, in order. */
  function Bucket(ps: seq<Proxy>, filters: seq<Filter>, rank: nat, n: nat): (idx: seq<nat>)
    requires n <= |ps|
    ensures forall k :: k in idx ==> k < n && IsFirst(ps, k) && Rank(ps[k].name, filters) == rank
    ensures forall k :: 0 <= k < n && IsFirst(ps, k) && Rank(ps[k].name, filters) == rank ==> k in idx
    ensures forall i, j :: 0 <= i < j < |idx| ==> idx[i] < idx[j]
  {
    if n == 0 then [] else
    var idx := Bucket(ps, filters, rank, n - 1);
    assert forall i :: 0 <= i < |idx| ==> idx[i] in idx;
    if IsFirst(ps, n - 1) && Rank(ps[n - 1].name, filters) == rank then idx + [n - 1] else idx
  }

  /** The buckets of the ranks below `ranks`, one after the other. */
  function Order(ps: seq<Proxy>, filters: seq<Filter>, ranks: nat): (idx: seq<nat>)
    ensures forall k :: k in idx ==> k < |ps| && IsFirst(ps, k) && Rank(ps[k].name, filters) < ranks
    ensures forall k :: 0 <= k < |ps| && IsFirst(ps, k) && Rank(ps[k].name, filters) < ranks ==> k in idx
  {
    if ranks == 0 then [] else Order(ps, filters, ranks - 1) + Bucket(ps, filters, ranks - 1, |ps|)
  }

  function Pick(ps: seq<Proxy>, idx: seq<nat>): (r: seq<Proxy>)
    requires forall k :: k in idx ==> k < |ps|
    ensures |r| == |idx|
  {
    seq(|idx|, i requires 0 <= i < |idx| => assert idx[i] in idx; ps[idx[i]])
  }

  /** One filter pass over one list. */
  function Filtered(ps: seq<Proxy>, filters: seq<Filter>): seq<Proxy> {
    Pick(ps, Order(ps, filters, |filters|))
  }

  /** The reordering of the whole list: matched proxies by filter, the others at the end. */
  function Reordered(ps: seq<Proxy>, filters: seq<Filter>): seq<Proxy> {
    Pick(ps, Order(ps, filters, |filters| + 1))
  }

  // ---- the order, uniquely: a stable sort by rank of the first proxies of each name ----

  /** By rank, then by position. */
  predicate Before(ps: seq<Proxy>, filters: seq<Filter>, a: nat, b: nat)
    requires a < |ps| && b < |ps|
  {
    var ra, rb := Rank(ps[a].name, filters), Rank(ps[b].name, filters);
    ra < rb || (ra == rb && a < b)
  }

  ghost predicate Ascending(ps: seq<Proxy>, filters: seq<Filter>, idx: seq<nat>) {
    && (forall i :: 0 <= i < |idx| ==> idx[i] < |ps|)
    && forall i, j :: 0 <= i < j < |idx| ==> Before(ps, filters, idx[i], idx[j])
  }

  lemma ConcatAscends(ps: seq<Proxy>, filters: seq<Filter>, a: seq<nat>, b: seq<nat>, rank: nat)
    requires Ascending(ps, filters, a)
    requires forall i :: 0 <= i < |a| ==> a[i] < |ps| && Rank(ps[a[i]].name, filters) < rank
    requires forall i :: 0 <= i < |b| ==> b[i] < |ps| && Rank(ps[b[i]].name, filters) == rank
    requires forall i, j :: 0 <= i < j < |b| ==> b[i] < b[j]
    ensures Ascending(ps, filters, a + b)
  {
  }

  lemma OrderRanks(ps: seq<Proxy>, filters: seq<Filter>, ranks: nat)
    ensures forall i :: 0 <= i < |Order(ps, filters, ranks)| ==>
              var k := Order(ps, filters, ranks)[i]; k < |ps| && Rank(ps[k].name, filters) < ranks
  {
    forall i | 0 <= i < |Order(ps, filters, ranks)|
      ensures var k := Order(ps, filters, ranks)[i]; k < |ps| && Rank(ps[k].name, filters) < ranks
    {
      assert Order(ps, filters, ranks)[i] in Order(ps, filters, ranks);
    }
  }

  lemma BucketRanks(ps: seq<Proxy>, filters: seq<Filter>, rank: nat)
    ensures forall i :: 0 <= i < |Bucket(ps, filters, rank, |ps|)| ==>
              var k := Bucket(ps, filters, rank, |ps|)[i]; k < |ps| && Rank(ps[k].name, filters) == rank
  {
    forall i | 0 <= i < |Bucket(ps, filters, rank, |ps|)|
      ensures var k := Bucket(ps, filters, rank, |ps|)[i]; k < |ps| && Rank(ps[k].name, filters) == rank
    {
      assert Bucket(ps, filters, rank, |ps|)[i] in Bucket(ps, filters, rank, |ps|);
    }
  }

  lemma {:induction false} OrderAscends(ps: seq<Proxy>, filters: seq<Filter>, ranks: nat)
    ensures Ascending(ps, filters, Order(ps, filters, ranks))
  {
    if ranks > 0 {
      OrderAscends(ps, filters, ranks - 1);
      OrderRanks(ps, filters, ranks - 1);
      BucketRanks(ps, filters, ranks - 1);
      ConcatAscends(ps, filters, Order(ps, filters, ranks - 1), Bucket(ps, filters, ranks - 1, |ps|), ranks - 1);
    }
  }

  lemma FirstIn<T>(q: seq<T>)
    ensures q == [] || q[0] in q
  {
  }

  /** An ascending list is determined by its members. */
  lemma {:induction false} AscendingUnique(ps: seq<Proxy>, filters: seq<Filter>, a: seq<nat>, b: seq<nat>)
    requires Ascending(ps, filters, a) && Ascending(ps, filters, b)
    requires (forall k :: k in a ==> k in b) && (forall k :: k in b ==> k in a)
    ensures a == b
  {
    FirstIn(b);
    if a != [] {
      assert a[0] in b && a[0] in a;
      var j :| 0 <= j < |b| && b[j] == a[0];
      var i :| 0 <= i < |a| && a[i] == b[0] by { assert b[0] in b; }
      assert i == 0 && j == 0;
      forall k | k in a[1..] ensures k in b[1..] {
        var m :| 0 <= m < |a[1..]| && a[1..][m] == k;
        assert a[m + 1] == k && k in a && k != a[0];
        var n :| 0 <= n < |b| && b[n] == k;
        assert b[1..][n - 1] == k;
      }
      forall k | k in b[1..] ensures k in a[1..] {
        var m :| 0 <= m < |b[1..]| && b[1..][m] == k;
        assert b[m + 1] == k && k in b && k != b[0];
        var n :| 0 <= n < |a| && a[n] == k;
        assert a[1..][n - 1] == k;
      }
      AscendingUnique(ps, filters, a[1..], b[1..]);
      assert a == [a[0]] + a[1..] && b == [b[0]] + b[1..];
    }
  }

  // ---- the loops ----

  /** Names recorded so far: all of a rank below `rank`, and those of rank `rank` below position `k`. */
  ghost predicate Seen(ps: seq<Proxy>, filters: seq<Filter>, rank: nat, k: nat, names: set<Name>)
    requires k <= |ps|
  {
    forall m :: 0 <= m < |ps| ==>
      (ps[m].name in names <==>
        var r := Rank(ps[m].name, filters); r < rank || (r == rank && NameIn(ps[..k], ps[m].name)))
  }

  lemma NameInNext(ps: seq<Proxy>, k: nat, n: Name)
    requires k < |ps|
    ensures NameIn(ps[..k + 1], n) <==> NameIn(ps[..k], n) || ps[k].name == n
  {
    if NameIn(ps[..k], n) {
      var i :| 0 <= i < |ps[..k]| && ps[..k][i].name == n;
      assert ps[..k + 1][i].name == n;
    }
    if ps[k].name == n { assert ps[..k + 1][k].name == n; }
    if NameIn(ps[..k + 1], n) && ps[k].name != n {
      var i :| 0 <= i < |ps[..k + 1]| && ps[..k + 1][i].name == n;
      assert ps[..k][i].name == n;
    }
  }

  lemma SeenNext(ps: seq<Proxy>, filters: seq<Filter>, rank: nat, k: nat, names: set<Name>)
    requires k < |ps| && rank <= |filters| && Seen(ps, filters, rank, k, names)
    ensures var n, r := ps[k].name, Rank(ps[k].name, filters);
            var taken := (rank == |filters| || filters[rank](n)) && n !in names;
            && (taken <==> r == rank && IsFirst(ps, k))
            && Seen(ps, filters, rank, k + 1, if taken then names + {n} else names)
  {
    var n := ps[k].name;
    forall m | 0 <= m < |ps|
      ensures NameIn(ps[..k + 1], ps[m].name) <==> NameIn(ps[..k], ps[m].name) || n == ps[m].name
    {
      NameInNext(ps, k, ps[m].name);
    }
  }

  lemma BucketNext(ps: seq<Proxy>, filters: seq<Filter>, rank: nat, k: nat)
    requires k < |ps|
    ensures var picked := Pick(ps, Bucket(ps, filters, rank, k));
            Pick(ps, Bucket(ps, filters, rank, k + 1))
            == if IsFirst(ps, k) && Rank(ps[k].name, filters) == rank then picked + [ps[k]] else picked
  {
  }

  /** One more position of a sweep. */
  lemma SweepStep(ps: seq<Proxy>, filters: seq<Filter>, rank: nat, k: nat, r: seq<Proxy>, taken: set<Name>)
    requires rank <= |filters| && k < |ps| && Seen(ps, filters, rank, k, taken)
    requires r == Pick(ps, Bucket(ps, filters, rank, k))
    ensures var p := ps[k];
            var takes := (rank == |filters| || filters[rank](p.name)) && p.name !in taken;
            var (r', taken') := if takes then (r + [p], taken + {p.name}) else (r, taken);
            r' == Pick(ps, Bucket(ps, filters, rank, k + 1)) && Seen(ps, filters, rank, k + 1, taken')
  {
    BucketNext(ps, filters, rank, k);
    SeenNext(ps, filters, rank, k, taken);
  }

  /** One position: take the proxy if the filter matches and its name is not recorded yet. */
  method SweepOne(ps: seq<Proxy>, filters: seq<Filter>, rank: nat, k: nat, r: seq<Proxy>, taken: set<Name>)
    returns (bucket: seq<Proxy>, names: set<Name>)
    requires rank <= |filters| && k < |ps| && Seen(ps, filters, rank, k, taken)
    requires r == Pick(ps, Bucket(ps, filters, rank, k))
    ensures Seen(ps, filters, rank, k + 1, names) && bucket == Pick(ps, Bucket(ps, filters, rank, k + 1))
  {
    SweepStep(ps, filters, rank, k, r, taken);
    var p := ps[k];
    bucket, names := r, taken;
    if rank == |filters| || filters[rank](p.name) {
      if p.name !in names {
        names := names + {p.name};
        bucket := bucket + [p];
      }
    }
  }

  /** One filter over one list, or the closing loop over the unmatched when `rank` is the number of filters. */
  method Sweep(ps: seq<Proxy>, filters: seq<Filter>, rank: nat, before: set<Name>)
    returns (bucket: seq<Proxy>, names: set<Name>)
    requires rank <= |filters| && Seen(ps, filters, rank, 0, before)
    ensures bucket == Pick(ps, Bucket(ps, filters, rank, |ps|)) && Seen(ps, filters, rank, |ps|, names)
  {
    bucket, names := [], before;
    for k := 0 to |ps|
      invariant Seen(ps, filters, rank, k, names) && bucket == Pick(ps, Bucket(ps, filters, rank, k))
    {
      bucket, names := SweepOne(ps, filters, rank, k, bucket, names);
    }
  }

  lemma SeenNextRank(ps: seq<Proxy>, filters: seq<Filter>, rank: nat, names: set<Name>)
    requires Seen(ps, filters, rank, |ps|, names)
    ensures Seen(ps, filters, rank + 1, 0, names)
  {
    forall m | 0 <= m < |ps| ensures NameIn(ps[..|ps|], ps[m].name) && !NameIn(ps[..0], ps[m].name) {
      assert ps[..|ps|][m].name == ps[m].name;
    }
  }

  lemma PickConcat(ps: seq<Proxy>, a: seq<nat>, b: seq<nat>)
    requires forall k :: k in a ==> k < |ps|
    requires forall k :: k in b ==> k < |ps|
    ensures forall k :: k in a + b ==> k < |ps|
    ensures Pick(ps, a + b) == Pick(ps, a) + Pick(ps, b)
  {
  }

  /** The filter loop, with the closing loop if `keepRest`: the list in filter order, one proxy a name. */
  method Passes(ps: seq<Proxy>, filters: seq<Filter>, keepRest: bool) returns (r: seq<Proxy>)
    ensures r == if keepRest then Reordered(ps, filters) else Filtered(ps, filters)
  {
    r := [];
    var names: set<Name> := {};
    var bucket: seq<Proxy>;
    for i := 0 to |filters|
      invariant Seen(ps, filters, i, 0, names) && r == Pick(ps, Order(ps, filters, i))
    {
      bucket, names := Sweep(ps, filters, i, names);
      SeenNextRank(ps, filters, i, names);
      PickConcat(ps, Order(ps, filters, i), Bucket(ps, filters, i, |ps|));
      r := r + bucket;
    }
    if keepRest {
      bucket, names := Sweep(ps, filters, |filters|, names);
      PickConcat(ps, Order(ps, filters, |filters|), Bucket(ps, filters, |filters|, |ps|));
      r := r + bucket;
    }
  }

  // ---- a second pass over an already filtered list changes nothing ----

  function Upto(n: nat): (idx: seq<nat>)
    ensures |idx| == n && forall k :: 0 <= k < n ==> idx[k] == k
    ensures forall k :: k in idx ==> k < n
    ensures forall k :: 0 <= k < n ==> k in idx
  {
    if n == 0 then [] else Upto(n - 1) + [n - 1]
  }

  lemma SortedIsFixed(r: seq<Proxy>, filters: seq<Filter>)
    requires forall i, j :: 0 <= i < j < |r| ==>
               r[i].name != r[j].name && Rank(r[i].name, filters) <= Rank(r[j].name, filters)
    ensures Reordered(r, filters) == r
  {
    forall k | 0 <= k < |r| ensures IsFirst(r, k) {
      forall i | 0 <= i < k ensures r[..k][i].name != r[k].name {
      }
    }
    OrderAscends(r, filters, |filters| + 1);
    AscendingUnique(r, filters, Order(r, filters, |filters| + 1), Upto(|r|));
  }

  lemma FirstsDiffer(ps: seq<Proxy>, a: nat, b: nat)
    requires a < b < |ps| && IsFirst(ps, b)
    ensures ps[a].name != ps[b].name
  {
    assert ps[..b][a].name == ps[a].name;
  }

  /** One provider: the reordering that is skipped would have left the filtered list as it is. */
  lemma SecondPassIdle(ps: seq<Proxy>, filters: seq<Filter>)
    ensures Reordered(Filtered(ps, filters), filters) == Filtered(ps, filters)
  {
    var idx := Order(ps, filters, |filters|);
    var r := Filtered(ps, filters);
    OrderAscends(ps, filters, |filters|);
    forall i, j | 0 <= i < j < |r|
      ensures r[i].name != r[j].name && Rank(r[i].name, filters) <= Rank(r[j].name, filters)
    {
      assert idx[i] in idx && idx[j] in idx;
      assert Before(ps, filters, idx[i], idx[j]);
      if idx[i] < idx[j] { FirstsDiffer(ps, idx[i], idx[j]); }
    }
    SortedIsFixed(r, filters);
  }

  // ---- the whole computation ----

  function Flatten(lists: seq<seq<Proxy>>): seq<Proxy> {
    if lists == [] then [] else Flatten(Init(lists)) + Last(lists)
  }

  /** One provider's part. */
  function Part(cfg: Config, c: Content): seq<Proxy> {
    if cfg.filters == [] || c.compatible then c.proxies else Filtered(c.proxies, cfg.filters)
  }

  function Parts(cfg: Config, cs: seq<Content>): (r: seq<seq<Proxy>>)
    ensures |r| == |cs|
  {
    seq(|cs|, i requires 0 <= i < |cs| => Part(cfg, cs[i]))
  }

  /** Is some test of `tests` true of `x`? */
  predicate Hit(x: string, tests: seq<string -> bool>) {
    exists i :: 0 <= i < |tests| && tests[i](x)
  }

  predicate Excluded(cfg: Config, p: Proxy) {
    Hit(p.name, cfg.excludeFilters) || Hit(p.kind, cfg.excludeKinds)
  }

  /** The proxies of `ps` that are not excluded, in order. */
  function Remaining(cfg: Config, ps: seq<Proxy>): (r: seq<Proxy>)
    ensures forall p :: p in r ==> p in ps && !Excluded(cfg, p)
    ensures forall p :: p in ps && !Excluded(cfg, p) ==> p in r
  {
    if ps == [] then [] else
    assert ps == Init(ps) + [Last(ps)];
    if Excluded(cfg, Last(ps)) then Remaining(cfg, Init(ps)) else Remaining(cfg, Init(ps)) + [Last(ps)]
  }

  /** From the providers' parts to the list before the empty fallback. */
  function Assemble(cfg: Config, parts: seq<seq<Proxy>>): seq<Proxy> {
    var all := Flatten(parts);
    Remaining(cfg, if |parts| > 1 && |cfg.filters| > 1 then Reordered(all, cfg.filters) else all)
  }

  function Compute(cfg: Config, cs: seq<Content>): seq<Proxy> {
    Assemble(cfg, Parts(cfg, cs))
  }

  /** From the concatenated parts on: the reordering, and both exclusion loops. */
  method Finish(cfg: Config, all: seq<Proxy>, several: bool, ghost parts: seq<seq<Proxy>>) returns (r: seq<Proxy>)
    requires all == Flatten(parts) && (several <==> |parts| > 1)
    ensures r == Assemble(cfg, parts)
  {
    r := all;
    if several && |cfg.filters| > 1 {
      r := Passes(all, cfg.filters, true);
    }
    r := Exclude(cfg, r);
  }

  /** Both exclusion loops. */
  method Exclude(cfg: Config, ps: seq<Proxy>) returns (r: seq<Proxy>)
    ensures r == Remaining(cfg, ps)
  {
    var byName := ps;
    if |cfg.excludeFilters| > 0 {
      byName := Drop(ps, false, cfg.excludeFilters);
    }
    DropNone(ps, false, cfg.excludeFilters);
    r := Drop(byName, true, cfg.excludeKinds);
    DropTwice(cfg, ps);
  }

  /** What an exclusion looks at: the type or the name. */
  function Tested(p: Proxy, byKind: bool): string {
    if byKind then p.kind else p.name
  }

  /** The proxies whose name, or type, no test hits. */
  function Dropped(ps: seq<Proxy>, byKind: bool, tests: seq<string -> bool>): seq<Proxy> {
    if ps == [] then [] else
    var rest := Dropped(Init(ps), byKind, tests);
    if Hit(Tested(Last(ps), byKind), tests) then rest else rest + [Last(ps)]
  }

  lemma {:induction false} DropNone(ps: seq<Proxy>, byKind: bool, tests: seq<string -> bool>)
    ensures tests == [] ==> Dropped(ps, byKind, tests) == ps
  {
    if ps != [] {
      assert ps == Init(ps) + [Last(ps)];
      DropNone(Init(ps), byKind, tests);
    }
  }

  lemma DroppedAppend(d: seq<Proxy>, p: Proxy, byKind: bool, tests: seq<string -> bool>)
    ensures var rest := Dropped(d, byKind, tests);
            Dropped(d + [p], byKind, tests) == if Hit(Tested(p, byKind), tests) then rest else rest + [p]
  {
    assert Init(d + [p]) == d;
  }

  lemma {:induction false} DropTwice(cfg: Config, ps: seq<Proxy>)
    ensures Dropped(Dropped(ps, false, cfg.excludeFilters), true, cfg.excludeKinds) == Remaining(cfg, ps)
  {
    if ps != [] {
      DropTwice(cfg, Init(ps));
      DroppedAppend(Dropped(Init(ps), false, cfg.excludeFilters), Last(ps), true, cfg.excludeKinds);
    }
  }

  method Drop(ps: seq<Proxy>, byKind: bool, tests: seq<string -> bool>) returns (r: seq<Proxy>)
    ensures r == Dropped(ps, byKind, tests)
  {
    r := [];
    for k := 0 to |ps|
      invariant r == Dropped(ps[..k], byKind, tests)
    {
      assert Init(ps[..k + 1]) == ps[..k];
      var hit := false;
      for i := 0 to |tests|
        invariant !hit && !exists t :: 0 <= t < i && tests[t](Tested(ps[k], byKind))
      {
        if tests[i](Tested(ps[k], byKind)) {
          hit := true;
          break;
        }
      }
      if !hit {
        r := r + [ps[k]];
      }
    }
    assert ps[..|ps|] == ps;
  }
}
