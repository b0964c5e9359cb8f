/** What a group can select is what its `GetProxies` can answer with. */
module Unwraps {
  import opened Answers
  import opened Registry
  import opened Seqs
  import S = Selection

  function Ids(ps: seq<S.Proxy>): (r: seq<nat>)
    ensures |r| == |ps| && forall k :: 0 <= k < |r| ==> r[k] == ps[k].id
  {
    seq(|ps|, k requires 0 <= k < |ps| => ps[k].id)
  }

  /** The providers behind a group: one of its own members if it has any, then those it uses, with any content. */
  ghost predicate Backs(g: Adapter, cs: seq<S.Content>) {
    && g.Group? && cs != []
    && (g.members != [] ==> cs[0].compatible && Ids(cs[0].proxies) == g.members)
    && (forall j :: (if g.members == [] then 0 else 1) <= j < |cs| ==> !cs[j].compatible)
    && (g.external <==> |cs| > if g.members == [] then 0 else 1)
  }

  /** Where selecting `p` leads: to an adapter of the store, or to one only a used provider knows. */
  ghost predicate LeadsTo(g: Adapter, cs: seq<S.Content>, fallback: S.Proxy, p: S.Proxy, kindOf: S.Proxy -> Kind,
                          b: Stop)
    requires Backs(g, cs)
  {
    || (p == fallback && b == Known(p.id))
    || (g.members != [] && p in cs[0].proxies && b == Known(p.id))
    || ((exists j :: 0 <= j < |cs| && !cs[j].compatible && p in cs[j].proxies) && b == Outside(kindOf(p)))
  }

  /** What `GetProxies` hands out. */
  function Answer(cfg: S.Config, cs: seq<S.Content>, fallback: S.Proxy): seq<S.Proxy> {
    var now := S.Compute(cfg, cs);
    if now == [] then [fallback] else now
  }

  // ---- nothing comes out that no provider holds ----

  ghost predicate Provided(cs: seq<S.Content>, p: S.Proxy) {
    exists j :: 0 <= j < |cs| && p in cs[j].proxies
  }

  lemma ProvidedBefore(cs: seq<S.Content>, p: S.Proxy)
    requires cs != [] && (Provided(Init(cs), p) || p in Last(cs).proxies)
    ensures Provided(cs, p)
  {
    if j :| 0 <= j < |Init(cs)| && p in Init(cs)[j].proxies {
      assert p in cs[j].proxies;
    } else {
      assert p in cs[|cs| - 1].proxies;
    }
  }

  lemma {:induction false} SomeMatchHolds(ps: seq<S.Proxy>, filters: seq<S.Filter>, p: S.Proxy)
    requires p in SomeMatch(ps, filters)
    ensures p in ps
    decreases |ps|
  {
    if p in SomeMatch(Init(ps), filters) { SomeMatchHolds(Init(ps), filters, p); }
  }

  lemma {:induction false} JoinedHolds(cs: seq<S.Content>, p: S.Proxy)
    requires p in Joined(cs)
    ensures Provided(cs, p)
    decreases |cs|
  {
    if p in Joined(Init(cs)) { JoinedHolds(Init(cs), p); }
    ProvidedBefore(cs, p);
  }

  lemma {:induction false} BroughtHolds(cfg: S.Config, cs: seq<S.Content>, p: S.Proxy)
    requires p in Brought(cfg, cs)
    ensures Provided(cs, p)
    decreases |cs|
  {
    if p in Brought(cfg, Init(cs)) {
      BroughtHolds(cfg, Init(cs), p);
    } else if !Last(cs).compatible {
      SomeMatchHolds(Last(cs).proxies, cfg.filters, p);
    }
    ProvidedBefore(cs, p);
  }

  lemma {:induction false} OneByOneHolds(cfg: S.Config, cs: seq<S.Content>, p: S.Proxy)
    requires p in OneByOne(cfg, cs)
    ensures Provided(cs, p)
    decreases |cs|
  {
    if p in OneByOne(cfg, Init(cs)) {
      OneByOneHolds(cfg, Init(cs), p);
    } else if !Last(cs).compatible {
      var k := RankedAreFirst(Last(cs).proxies, cfg.filters, |cfg.filters|, p);
    }
    ProvidedBefore(cs, p);
  }

  lemma ComputeHolds(cfg: S.Config, cs: seq<S.Content>, p: S.Proxy)
    requires p in S.Compute(cfg, cs)
    ensures Provided(cs, p)
  {
    ComputeIs(cfg, cs);
    SurvivorsHold(cfg, Answers.Listed(cfg, cs), p);
    if cfg.filters == [] {
      JoinedHolds(cs, p);
    } else if |cs| <= 1 || |cfg.filters| == 1 {
      OneByOneHolds(cfg, cs, p);
    } else {
      var k := RankedAreFirst(Brought(cfg, cs), cfg.filters, |cfg.filters| + 1, p);
      BroughtHolds(cfg, cs, p);
    }
  }

  lemma OwnAreMembers(g: Adapter, cs: seq<S.Content>, p: S.Proxy)
    requires Backs(g, cs) && g.members != [] && p in cs[0].proxies
    ensures p.id in g.members
  {
    var k :| 0 <= k < |cs[0].proxies| && cs[0].proxies[k] == p;
    assert Ids(cs[0].proxies)[k] == p.id;
  }

  /** What some provider holds, by which of them it is. */
  lemma ProvidedUnwraps(store: seq<Adapter>, i: nat, cs: seq<S.Content>, p: S.Proxy, kind: Kind) returns (own: bool)
    requires i < |store| && Backs(store[i], cs) && Provided(cs, p)
    ensures own ==> store[i].members != [] && p in cs[0].proxies && CanUnwrap(store, Known(i), Known(p.id))
    ensures !own ==> (exists j :: 0 <= j < |cs| && !cs[j].compatible && p in cs[j].proxies)
                     && CanUnwrap(store, Known(i), Outside(kind))
  {
    var j :| 0 <= j < |cs| && p in cs[j].proxies;
    own := cs[j].compatible;
    if own { OwnAreMembers(store[i], cs, p); }
  }

  /** Whatever `GetProxies` answers, whatever the filters and the contents, the group can select. */
  lemma AnswersUnwrap(store: seq<Adapter>, i: nat, cfg: S.Config, cs: seq<S.Content>, fallback: S.Proxy, p: S.Proxy,
                      kindOf: S.Proxy -> Kind)
    returns (b: Stop)
    requires i < |store| && Backs(store[i], cs) && fallback.id == store[i].fallback && p in Answer(cfg, cs, fallback)
    ensures LeadsTo(store[i], cs, fallback, p, kindOf, b) && CanUnwrap(store, Known(i), b)
  {
    b := Known(p.id);
    if p != fallback {
      ComputeHolds(cfg, cs, p);
      var own := ProvidedUnwraps(store, i, cs, p, kindOf(p));
      if !own { b := Outside(kindOf(p)); }
    }
  }

  // ---- and everything it can select comes out for some ----

  function ProxiesOf(ids: seq<nat>): (ps: seq<S.Proxy>)
    ensures Ids(ps) == ids
  {
    seq(|ids|, k requires 0 <= k < |ids| => S.Proxy(ids[k], "", ""))
  }

  /** The group's own members, and `outside` in the provider it uses. */
  function Behind(g: Adapter, outside: seq<S.Proxy>): (cs: seq<S.Content>)
    requires g.Group? && (g.members != [] || g.external)
    ensures Backs(g, cs) && (g.external ==> Last(cs) == S.Content(false, outside))
    ensures g.members != [] ==> cs[0] == S.Content(true, ProxiesOf(g.members))
  {
    (if g.members == [] then [] else [S.Content(true, ProxiesOf(g.members))])
    + if g.external then [S.Content(false, outside)] else []
  }

  lemma {:induction false} JoinedHasAll(cs: seq<S.Content>, j: nat, p: S.Proxy)
    requires j < |cs| && p in cs[j].proxies
    ensures p in Joined(cs)
    decreases |cs|
  {
    if j < |cs| - 1 { JoinedHasAll(Init(cs), j, p); }
  }

  /** With no filters and no exclusions everything the providers hold is answered. */
  lemma AllAnswered(cs: seq<S.Content>, j: nat, p: S.Proxy, fallback: S.Proxy)
    requires j < |cs| && p in cs[j].proxies
    ensures p in Answer(S.Config([], [], []), cs, fallback)
  {
    JoinedHasAll(cs, j, p);
    UnfilteredAnswers(S.Config([], [], []), cs, p);
  }

  lemma AllExcluded(cs: seq<S.Content>, p: S.Proxy)
    ensures p !in S.Compute(S.Config([], [AnyName], []), cs)
  {
    var cfg := S.Config([], [AnyName], []);
    UnfilteredAnswers(cfg, cs, p);
    assert cfg.excludeFilters[0](p.name);
  }

  /** With everything excluded only the fallback is. */
  lemma NoneAnswered(cs: seq<S.Content>, fallback: S.Proxy)
    ensures Answer(S.Config([], [AnyName], []), cs, fallback) == [fallback]
  {
    var now := S.Compute(S.Config([], [AnyName], []), cs);
    if now != [] { AllExcluded(cs, now[0]); }
  }

  /** Everything a group can select is answered for some filters and contents. */
  lemma UnwrapsAnswer(store: seq<Adapter>, i: nat, b: Stop)
    returns (cfg: S.Config, cs: seq<S.Content>, fallback: S.Proxy, p: S.Proxy, kind: Kind)
    requires CanUnwrap(store, Known(i), b) && (store[i].members != [] || store[i].external)
    ensures Backs(store[i], cs) && fallback.id == store[i].fallback && p in Answer(cfg, cs, fallback)
    ensures LeadsTo(store[i], cs, fallback, p, (q: S.Proxy) => kind, b)
  {
    var g := store[i];
    kind := if b.Outside? then b.kind else Plain;
    fallback := S.Proxy(g.fallback, "", "");
    cfg := S.Config([], [], []);
    p := S.Proxy(0, "", "");
    cs := Behind(g, [p]);
    match b
    case Outside(_) =>
      assert Last(cs) == cs[|cs| - 1] && p in cs[|cs| - 1].proxies;
      AllAnswered(cs, |cs| - 1, p, fallback);
    case Known(j) =>
      if j in g.members {
        var k :| 0 <= k < |g.members| && g.members[k] == j;
        p := cs[0].proxies[k];
        assert Ids(cs[0].proxies)[k] == j;
        AllAnswered(cs, 0, p, fallback);
      } else {
        cfg, p := S.Config([], [AnyName], []), fallback;
        NoneAnswered(cs, fallback);
      }
  }
}
