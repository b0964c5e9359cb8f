/**
 `GetProxies` calls interleaved with provider updates, one step per lock section: reading a version,
 taking the group's mutex and looking at the cache, reading a provider's proxies (once per filter), and
 storing the answer.
 */
module ProviderProtocol {
  import opened Seqs
  import opened Selection

  /** A group over `|compatible|` providers. */
  datatype Setup = Setup(cfg: Config, compatible: seq<bool>, fallback: Proxy) {
    function Size(): nat { |compatible| }

    /** How often a computation asks provider `p` for its proxies. */
    function Reads(p: nat): (n: nat)
      requires p < Size()
      ensures n >= 1
    {
      if cfg.filters == [] || compatible[p] then 1 else |cfg.filters|
    }
  }

  /** Contents are named by the version under which they were set: their index in the provider's history. */
  datatype Phase =
    | Reading(seen: seq<nat>)
    | Computing(seen: seq<nat>, got: seq<seq<nat>>, part: seq<nat>)
    | Done(seen: seq<nat>, got: seq<seq<nat>>, list: seq<Proxy>)

  /** `start`: the versions in force when the call began. */
  datatype Call = Call(start: seq<nat>, phase: Phase)

  /** The cached list, and which contents it was computed from; before the first answer all of it is empty. */
  datatype Cache = Cache(versions: seq<nat>, got: seq<seq<nat>>, list: seq<Proxy>)

  /** Every content of each provider so far, the initial one first. */
  type History = seq<seq<seq<Proxy>>>

  datatype State = State(history: History, cache: Cache, holder: Option<nat>, calls: map<nat, Call>)

  datatype Event =
    | Update(provider: nat, proxies: seq<Proxy>)
    | Begin(call: nat)
    | ReadVersion(call: nat)
    | Enter(call: nat)
    | ReadProxies(call: nat)
    | Finish(call: nat)

  function Versions(s: State): (vs: seq<int>)
    ensures |vs| == |s.history|
  {
    seq(|s.history|, p requires 0 <= p < |s.history| => |s.history[p]| - 1)
  }

  // ---- answers ----

  /** One filter over one list, for the names not taken yet. */
  function SweepOver(ps: seq<Proxy>, f: Filter, names: set<Name>): (seq<Proxy>, set<Name>) {
    if ps == [] then ([], names) else
    var (r, taken) := SweepOver(Init(ps), f, names);
    var p := Last(ps);
    if f(p.name) && p.name !in taken then (r + [p], taken + {p.name}) else (r, taken)
  }

  /** A filter pass in which each filter may see another content. */
  function PassOver(lists: seq<seq<Proxy>>, filters: seq<Filter>): (seq<Proxy>, set<Name>)
    requires |lists| == |filters|
  {
    if filters == [] then ([], {}) else
    var (r, names) := PassOver(Init(lists), Init(filters));
    var (bucket, taken) := SweepOver(Last(lists), Last(filters), names);
    (r + bucket, taken)
  }

  predicate Readable(setup: Setup, h: History, got: seq<seq<nat>>) {
    && |h| == setup.Size() && |got| <= setup.Size()
    && (forall p :: 0 <= p < |got| ==> |got[p]| == setup.Reads(p))
    && (forall p, k :: 0 <= p < |got| && 0 <= k < |got[p]| ==> got[p][k] < |h[p]|)
  }

  /** What provider `p` held at each of the reads. */
  function ListsRead(setup: Setup, h: History, got: seq<seq<nat>>, p: nat): (lists: seq<seq<Proxy>>)
    requires Readable(setup, h, got) && p < |got|
    ensures |lists| == setup.Reads(p)
  {
    seq(|got[p]|, k requires 0 <= k < |got[p]| => h[p][got[p][k]])
  }

  /** The part of provider `p`, from the contents the computation read. */
  function PartRead(setup: Setup, h: History, got: seq<seq<nat>>, p: nat): seq<Proxy>
    requires Readable(setup, h, got) && p < |got|
  {
    var lists := ListsRead(setup, h, got, p);
    if setup.cfg.filters == [] || setup.compatible[p] then lists[0] else PassOver(lists, setup.cfg.filters).0
  }

  function PartsRead(setup: Setup, h: History, got: seq<seq<nat>>): (parts: seq<seq<Proxy>>)
    requires Readable(setup, h, got)
    ensures |parts| == |got|
  {
    seq(|got|, p requires 0 <= p < |got| => PartRead(setup, h, got, p))
  }

  function Answer(setup: Setup, h: History, got: seq<seq<nat>>): seq<Proxy>
    requires Readable(setup, h, got)
  {
    Assemble(setup.cfg, PartsRead(setup, h, got))
  }

  function OrFallback(setup: Setup, list: seq<Proxy>): seq<Proxy> {
    if list == [] then [setup.fallback] else list
  }

  // ---- steps ----

  function Current(s: State, p: nat): nat
    requires p < |s.history| && s.history[p] != []
  {
    |s.history[p]| - 1
  }

  function SetPhase(s: State, c: nat, phase: Phase): State
    requires c in s.calls
  {
    s.(calls := s.calls[c := s.calls[c].(phase := phase)])
  }

  /** `setProxies`: new content under the next version. */
  function OnUpdate(s: State, p: nat, ps: seq<Proxy>): State {
    if p < |s.history| then s.(history := s.history[p := s.history[p] + [ps]]) else s
  }

  function OnBegin(s: State, c: nat): State {
    if c in s.calls && !s.calls[c].phase.Done? then s else
    var now := seq(|s.history|, p requires 0 <= p < |s.history| => if s.history[p] == [] then 0 else Current(s, p));
    s.(calls := s.calls[c := Call(now, Reading([]))])
  }

  /** The next provider's `Version`. */
  function OnReadVersion(s: State, c: nat): State {
    if c !in s.calls || !s.calls[c].phase.Reading? then s else
    var seen := s.calls[c].phase.seen;
    if |seen| < |s.history| && s.history[|seen|] != []
    then SetPhase(s, c, Reading(seen + [Current(s, |seen|)])) else s
  }

  /**
   Take the mutex and compare the versions read with those of the cache. Without providers both are
   empty from the start, and the empty list is handed out.
   */
  function OnEnter(setup: Setup, s: State, c: nat): State {
    if c !in s.calls || !s.calls[c].phase.Reading? || s.holder.Some? then s else
    var seen := s.calls[c].phase.seen;
    if |seen| < setup.Size() then s
    else if s.cache.versions == seen then SetPhase(s, c, Done(seen, s.cache.got, s.cache.list))
    else SetPhase(s.(holder := Some(c)), c, Computing(seen, [], []))
  }

  /** The next `Proxies` call of the computation. */
  function OnReadProxies(setup: Setup, s: State, c: nat): State {
    if c !in s.calls || !s.calls[c].phase.Computing? then s else
    var Computing(seen, got, part) := s.calls[c].phase;
    if |got| < setup.Size() && |got| < |s.history| && s.history[|got|] != [] then
      var more := part + [Current(s, |got|)];
      var last := |more| == setup.Reads(|got|);
      SetPhase(s, c, if last then Computing(seen, got + [more], []) else Computing(seen, got, more))
    else s
  }

  /** Store a non-empty answer, hand it out or else the fallback, and release the mutex. */
  function OnFinish(setup: Setup, s: State, c: nat): State {
    if c !in s.calls || !s.calls[c].phase.Computing? then s else
    var Computing(seen, got, part) := s.calls[c].phase;
    if |got| == setup.Size() && Readable(setup, s.history, got) then
      var list := Answer(setup, s.history, got);
      var t := SetPhase(s, c, Done(seen, got, OrFallback(setup, list)));
      t.(holder := None, cache := if list == [] then s.cache else Cache(seen, got, list))
    else s
  }

  /** A step that is not enabled changes nothing. */
  function Apply(setup: Setup, s: State, e: Event): State {
    match e
    case Update(p, ps) => OnUpdate(s, p, ps)
    case Begin(c) => OnBegin(s, c)
    case ReadVersion(c) => OnReadVersion(s, c)
    case Enter(c) => OnEnter(setup, s, c)
    case ReadProxies(c) => OnReadProxies(setup, s, c)
    case Finish(c) => OnFinish(setup, s, c)
  }

  function Initial(contents: seq<seq<Proxy>>): State {
    State(seq(|contents|, p requires 0 <= p < |contents| => [contents[p]]), Cache([], [], []), None, map[])
  }

  function Run(setup: Setup, contents: seq<seq<Proxy>>, events: seq<Event>): State {
    if events == [] then Initial(contents) else Apply(setup, Run(setup, contents, Init(events)), Last(events))
  }

  // ---- the invariant ----

  /** Versions of the first |vs| providers, none newer than the present. */
  ghost predicate Known(s: State, vs: seq<nat>) {
    |vs| <= |s.history| && forall p :: 0 <= p < |vs| ==> vs[p] < |s.history[p]|
  }

  /** Contents read of the first |got| providers: none older than `seen`, none newer than the present. */
  ghost predicate Since(s: State, seen: seq<nat>, got: seq<seq<nat>>) {
    && |got| <= |seen| <= |s.history|
    && forall p, k :: 0 <= p < |got| && 0 <= k < |got[p]| ==> seen[p] <= got[p][k] < |s.history[p]|
  }

  ghost predicate AtLeast(vs: seq<nat>, low: seq<nat>) {
    |vs| <= |low| && forall p :: 0 <= p < |vs| ==> low[p] <= vs[p]
  }

  ghost predicate Complete(setup: Setup, got: seq<seq<nat>>) {
    |got| == setup.Size() && forall p :: 0 <= p < |got| ==> |got[p]| == setup.Reads(p)
  }

  ghost predicate CallInv(setup: Setup, s: State, c: nat, call: Call) {
    && |call.start| == setup.Size() && Known(s, call.start)
    && Known(s, call.phase.seen) && AtLeast(call.phase.seen, call.start)
    && (call.phase.Computing? ==> ComputingInv(setup, s, c, call.phase))
    && (call.phase.Done? ==> Delivered(setup, s, call.phase.seen, call.phase.got, call.phase.list))
  }

  /** `list` is what contents no older than `seen` give. */
  ghost predicate Computed(setup: Setup, s: State, seen: seq<nat>, got: seq<seq<nat>>, list: seq<Proxy>) {
    && |seen| == setup.Size() && Since(s, seen, got) && Complete(setup, got)
    && Readable(setup, s.history, got) && list == Answer(setup, s.history, got)
  }

  /** What a finished call hands out: a computed list or the fallback, and nothing without providers. */
  ghost predicate Delivered(setup: Setup, s: State, seen: seq<nat>, got: seq<seq<nat>>, list: seq<Proxy>) {
    if setup.Size() == 0 then seen == [] && got == [] && list == []
    else exists a :: Computed(setup, s, seen, got, a) && list == OrFallback(setup, a)
  }

  /** Nothing cached yet, or a non-empty list computed from contents no older than the cached versions. */
  ghost predicate CacheInv(setup: Setup, s: State, cache: Cache) {
    cache == Cache([], [], [])
    || (setup.Size() > 0 && Computed(setup, s, cache.versions, cache.got, cache.list) && cache.list != [])
  }

  /** The holder of the mutex, part of the way through the providers. */
  ghost predicate ComputingInv(setup: Setup, s: State, c: nat, phase: Phase)
    requires phase.Computing?
  {
    var p := |phase.got|;
    && setup.Size() > 0 && s.holder == Some(c)
    && |phase.seen| == setup.Size() == |s.history| && Since(s, phase.seen, phase.got)
    && (forall q :: 0 <= q < p ==> |phase.got[q]| == setup.Reads(q))
    && (phase.part != [] ==> p < setup.Size() && |phase.part| < setup.Reads(p))
    && (p < setup.Size() ==> forall k :: 0 <= k < |phase.part| ==> phase.seen[p] <= phase.part[k] < |s.history[p]|)
  }

  ghost predicate Inv(setup: Setup, s: State) {
    && |s.history| == setup.Size() && (forall p :: 0 <= p < |s.history| ==> s.history[p] != [])
    && CacheInv(setup, s, s.cache)
    && (forall c :: c in s.calls ==> CallInv(setup, s, c, s.calls[c]))
  }

  // ---- every step keeps it ----

  /** Histories only grow: a content never changes under its version. */
  ghost predicate Grows(s: State, t: State) {
    |s.history| == |t.history| && forall p :: 0 <= p < |s.history| ==> s.history[p] <= t.history[p]
  }

  /** So what was computed stays what those contents give. */
  lemma ComputedGrows(setup: Setup, s: State, t: State, seen: seq<nat>, got: seq<seq<nat>>, list: seq<Proxy>)
    requires Computed(setup, s, seen, got, list) && Grows(s, t)
    ensures Computed(setup, t, seen, got, list)
  {
    forall p | 0 <= p < |got| ensures PartRead(setup, s.history, got, p) == PartRead(setup, t.history, got, p) {
      assert ListsRead(setup, s.history, got, p) == ListsRead(setup, t.history, got, p);
    }
    assert PartsRead(setup, s.history, got) == PartsRead(setup, t.history, got);
  }

  lemma DeliveredGrows(setup: Setup, s: State, t: State, seen: seq<nat>, got: seq<seq<nat>>, list: seq<Proxy>)
    requires Delivered(setup, s, seen, got, list) && Grows(s, t)
    ensures Delivered(setup, t, seen, got, list)
  {
    if setup.Size() > 0 {
      var a :| Computed(setup, s, seen, got, a) && list == OrFallback(setup, a);
      ComputedGrows(setup, s, t, seen, got, a);
    }
  }

  lemma CallInvGrows(setup: Setup, s: State, t: State, c: nat, call: Call)
    requires CallInv(setup, s, c, call) && Grows(s, t) && (s.holder == t.holder || !call.phase.Computing?)
    ensures CallInv(setup, t, c, call)
  {
    if call.phase.Done? { DeliveredGrows(setup, s, t, call.phase.seen, call.phase.got, call.phase.list); }
  }

  lemma CacheInvGrows(setup: Setup, s: State, t: State, cache: Cache)
    requires CacheInv(setup, s, cache) && Grows(s, t)
    ensures CacheInv(setup, t, cache)
  {
    if cache != Cache([], [], []) { ComputedGrows(setup, s, t, cache.versions, cache.got, cache.list); }
  }

  lemma UpdateKeepsInv(setup: Setup, s: State, p: nat, ps: seq<Proxy>)
    requires Inv(setup, s)
    ensures Inv(setup, OnUpdate(s, p, ps))
  {
    var t := OnUpdate(s, p, ps);
    assert Grows(s, t);
    CacheInvGrows(setup, s, t, s.cache);
    forall c | c in t.calls ensures CallInv(setup, t, c, t.calls[c]) {
      CallInvGrows(setup, s, t, c, s.calls[c]);
    }
  }

  /** Only call `c` changed, and the mutex at most passed to or from it. */
  lemma OneCallChanged(setup: Setup, s: State, t: State, c: nat)
    requires Inv(setup, s) && t.history == s.history && c in t.calls
    requires forall d :: d in t.calls && d != c ==> d in s.calls && t.calls[d] == s.calls[d]
    requires t.holder == s.holder || s.holder == None || s.holder == Some(c)
    requires CallInv(setup, t, c, t.calls[c])
    requires t.cache == s.cache || CacheInv(setup, t, t.cache)
    ensures Inv(setup, t)
  {
    if t.cache == s.cache { CacheInvGrows(setup, s, t, s.cache); }
    forall d | d in t.calls ensures CallInv(setup, t, d, t.calls[d]) {
      if d != c {
        assert CallInv(setup, s, d, s.calls[d]);
        CallInvGrows(setup, s, t, d, s.calls[d]);
      }
    }
  }

  lemma BeginKeepsInv(setup: Setup, s: State, c: nat)
    requires Inv(setup, s)
    ensures Inv(setup, OnBegin(s, c))
  {
    var t := OnBegin(s, c);
    if t != s { OneCallChanged(setup, s, t, c); }
  }

  lemma ReadVersionKeepsInv(setup: Setup, s: State, c: nat)
    requires Inv(setup, s)
    ensures Inv(setup, OnReadVersion(s, c))
  {
    var t := OnReadVersion(s, c);
    if t != s {
      VersionRead(setup, s, c);
      OneCallChanged(setup, s, t, c);
    }
  }

  lemma VersionRead(setup: Setup, s: State, c: nat)
    requires Inv(setup, s) && OnReadVersion(s, c) != s
    ensures var t := OnReadVersion(s, c); c in t.calls && CallInv(setup, t, c, t.calls[c])
  {
    assert CallInv(setup, s, c, s.calls[c]);
  }

  lemma EnterKeepsInv(setup: Setup, s: State, c: nat)
    requires Inv(setup, s)
    ensures Inv(setup, OnEnter(setup, s, c))
  {
    var t := OnEnter(setup, s, c);
    if t != s {
      assert CallInv(setup, s, c, s.calls[c]);
      if t.calls[c].phase.Done? { HitIsDelivered(setup, s, t, s.calls[c].phase.seen); }
      OneCallChanged(setup, s, t, c);
    }
  }

  /** A cache hit hands out the stored list. */
  lemma HitIsDelivered(setup: Setup, s: State, t: State, seen: seq<nat>)
    requires CacheInv(setup, s, s.cache) && Grows(s, t) && |seen| == setup.Size() && s.cache.versions == seen
    ensures Delivered(setup, t, seen, s.cache.got, s.cache.list)
  {
    if setup.Size() > 0 {
      ComputedGrows(setup, s, t, seen, s.cache.got, s.cache.list);
      assert s.cache.list == OrFallback(setup, s.cache.list);
    }
  }

  /** One more content read, not the last one needed of provider |got|. */
  lemma ReadMore(setup: Setup, s: State, c: nat, seen: seq<nat>, got: seq<seq<nat>>, part: seq<nat>, v: nat)
    requires ComputingInv(setup, s, c, Computing(seen, got, part)) && |got| < setup.Size()
    requires seen[|got|] <= v < |s.history[|got|]| && |part| + 1 < setup.Reads(|got|)
    ensures ComputingInv(setup, s, c, Computing(seen, got, part + [v]))
  {
  }

  /** The last content needed of provider |got|. */
  lemma ReadLast(setup: Setup, s: State, c: nat, seen: seq<nat>, got: seq<seq<nat>>, part: seq<nat>, v: nat)
    requires ComputingInv(setup, s, c, Computing(seen, got, part)) && |got| < setup.Size()
    requires seen[|got|] <= v < |s.history[|got|]| && |part| + 1 == setup.Reads(|got|)
    ensures ComputingInv(setup, s, c, Computing(seen, got + [part + [v]], []))
  {
    var more := got + [part + [v]];
    forall p, k | 0 <= p < |more| && 0 <= k < |more[p]| ensures seen[p] <= more[p][k] < |s.history[p]| {
      if p < |got| { assert more[p] == got[p]; }
    }
  }

  lemma ReadProxiesKeepsInv(setup: Setup, s: State, c: nat)
    requires Inv(setup, s)
    ensures Inv(setup, OnReadProxies(setup, s, c))
  {
    var t := OnReadProxies(setup, s, c);
    if t != s {
      assert CallInv(setup, s, c, s.calls[c]);
      var Computing(seen, got, part) := s.calls[c].phase;
      var v := Current(s, |got|);
      assert |part| < setup.Reads(|got|);
      if |part| + 1 == setup.Reads(|got|) {
        ReadLast(setup, s, c, seen, got, part, v);
      } else {
        ReadMore(setup, s, c, seen, got, part, v);
      }
      assert ComputingInv(setup, t, c, t.calls[c].phase);
      OneCallChanged(setup, s, t, c);
    }
  }

  lemma FinishKeepsInv(setup: Setup, s: State, c: nat)
    requires Inv(setup, s)
    ensures Inv(setup, OnFinish(setup, s, c))
  {
    var t := OnFinish(setup, s, c);
    if t != s {
      assert CallInv(setup, s, c, s.calls[c]);
      var Computing(seen, got, part) := s.calls[c].phase;
      assert Computed(setup, t, seen, got, Answer(setup, s.history, got));
      OneCallChanged(setup, s, t, c);
    }
  }

  lemma ApplyKeepsInv(setup: Setup, s: State, e: Event)
    requires Inv(setup, s)
    ensures Inv(setup, Apply(setup, s, e))
  {
    match e
    case Update(p, ps) => UpdateKeepsInv(setup, s, p, ps);
    case Begin(c) => BeginKeepsInv(setup, s, c);
    case ReadVersion(c) => ReadVersionKeepsInv(setup, s, c);
    case Enter(c) => EnterKeepsInv(setup, s, c);
    case ReadProxies(c) => ReadProxiesKeepsInv(setup, s, c);
    case Finish(c) => FinishKeepsInv(setup, s, c);
  }

  /** The invariant holds in every interleaving of calls and updates. */
  lemma {:induction false} RunKeepsInv(setup: Setup, contents: seq<seq<Proxy>>, events: seq<Event>)
    requires |contents| == setup.Size()
    ensures Inv(setup, Run(setup, contents, events))
  {
    if events != [] {
      RunKeepsInv(setup, contents, Init(events));
      ApplyKeepsInv(setup, Run(setup, contents, Init(events)), Last(events));
    }
  }

  // ---- what a finished call returned ----

  /**
   Never stale, in any interleaving: the list a finished call hands out, stored or computed, is what
   contents give that were read no earlier than the version the call itself saw, and that no earlier than
   the call began.
   */
  lemma NeverStale(setup: Setup, contents: seq<seq<Proxy>>, events: seq<Event>, c: nat)
    requires |contents| == setup.Size()
    ensures var s := Run(setup, contents, events);
            c in s.calls && s.calls[c].phase.Done? ==>
              var Call(start, Done(seen, got, list)) := s.calls[c];
              && Complete(setup, got) && Readable(setup, s.history, got)
              && list == (if setup.Size() == 0 then [] else OrFallback(setup, Answer(setup, s.history, got)))
              && |start| == |seen| == setup.Size()
              && forall p, k :: 0 <= p < setup.Size() && 0 <= k < |got[p]| ==> start[p] <= seen[p] <= got[p][k]
  {
    RunKeepsInv(setup, contents, events);
    var s := Run(setup, contents, events);
    if c in s.calls {
      assert CallInv(setup, s, c, s.calls[c]);
    }
  }

  /** With a provider no call hands out an empty list; without one every call does. */
  lemma EmptyExactlyWithoutProviders(setup: Setup, contents: seq<seq<Proxy>>, events: seq<Event>, c: nat)
    requires |contents| == setup.Size()
    ensures var s := Run(setup, contents, events);
            c in s.calls && s.calls[c].phase.Done? ==> (s.calls[c].phase.list == [] <==> setup.Size() == 0)
  {
    RunKeepsInv(setup, contents, events);
    var s := Run(setup, contents, events);
    if c in s.calls {
      assert CallInv(setup, s, c, s.calls[c]);
    }
  }

  /** At most one call computes at a time. */
  lemma OneComputes(setup: Setup, contents: seq<seq<Proxy>>, events: seq<Event>, c: nat, d: nat)
    requires |contents| == setup.Size()
    ensures var s := Run(setup, contents, events);
            c in s.calls && d in s.calls && s.calls[c].phase.Computing? && s.calls[d].phase.Computing? ==> c == d
  {
    RunKeepsInv(setup, contents, events);
    var s := Run(setup, contents, events);
    if c in s.calls && d in s.calls {
      assert CallInv(setup, s, c, s.calls[c]) && CallInv(setup, s, d, s.calls[d]);
    }
  }

  function Repeat(ps: seq<Proxy>, n: nat): (lists: seq<seq<Proxy>>)
    ensures |lists| == n
  {
    seq(n, i requires 0 <= i < n => ps)
  }

  lemma SweepOverNext(ps: seq<Proxy>, j: nat, f: Filter, names: set<Name>)
    requires j < |ps|
    ensures var (r, taken) := SweepOver(ps[..j], f, names);
            SweepOver(ps[..j + 1], f, names)
            == if f(ps[j].name) && ps[j].name !in taken then (r + [ps[j]], taken + {ps[j].name}) else (r, taken)
  {
    assert Init(ps[..j + 1]) == ps[..j] && Last(ps[..j + 1]) == ps[j];
  }

  lemma SweepOverIsBucket(ps: seq<Proxy>, filters: seq<Filter>, rank: nat, names: set<Name>)
    requires rank < |filters| && Seen(ps, filters, rank, 0, names)
    ensures SweepOver(ps, filters[rank], names).0 == Pick(ps, Bucket(ps, filters, rank, |ps|))
    ensures Seen(ps, filters, rank, |ps|, SweepOver(ps, filters[rank], names).1)
  {
    for k := 0 to |ps|
      invariant SweptTo(ps, filters, rank, names, k)
    {
      SweepFurther(ps, filters, rank, names, k);
    }
    assert ps[..|ps|] == ps;
  }

  /** The first `k` proxies, swept, are those of the bucket. */
  ghost predicate SweptTo(ps: seq<Proxy>, filters: seq<Filter>, rank: nat, names: set<Name>, k: nat)
    requires rank < |filters|
  {
    && k <= |ps|
    && var (r, taken) := SweepOver(ps[..k], filters[rank], names);
       r == Pick(ps, Bucket(ps, filters, rank, k)) && Seen(ps, filters, rank, k, taken)
  }

  lemma SweepFurther(ps: seq<Proxy>, filters: seq<Filter>, rank: nat, names: set<Name>, k: nat)
    requires rank < |filters| && k < |ps| && SweptTo(ps, filters, rank, names, k)
    ensures SweptTo(ps, filters, rank, names, k + 1)
  {
    var (r, taken) := SweepOver(ps[..k], filters[rank], names);
    SweepOverNext(ps, k, filters[rank], names);
    SweepStep(ps, filters, rank, k, r, taken);
  }

  /** One more filter of a pass over one content. */
  lemma PassStep(ps: seq<Proxy>, filters: seq<Filter>, rank: nat, r: seq<Proxy>, names: set<Name>)
    requires rank < |filters| && r == Pick(ps, Order(ps, filters, rank)) && Seen(ps, filters, rank, 0, names)
    ensures r + SweepOver(ps, filters[rank], names).0 == Pick(ps, Order(ps, filters, rank + 1))
    ensures Seen(ps, filters, rank + 1, 0, SweepOver(ps, filters[rank], names).1)
  {
    SweepOverIsBucket(ps, filters, rank, names);
    PickConcat(ps, Order(ps, filters, rank), Bucket(ps, filters, rank, |ps|));
    SeenNextRank(ps, filters, rank, SweepOver(ps, filters[rank], names).1);
  }

  /** If every filter sees the same content, the pass is the one over that content. */
  lemma {:induction false} PassOverSame(ps: seq<Proxy>, filters: seq<Filter>, n: nat)
    requires n <= |filters|
    ensures PassOver(Repeat(ps, n), filters[..n]).0 == Pick(ps, Order(ps, filters, n))
    ensures Seen(ps, filters, n, 0, PassOver(Repeat(ps, n), filters[..n]).1)
  {
    if n > 0 {
      PassOverSame(ps, filters, n - 1);
      assert Init(Repeat(ps, n)) == Repeat(ps, n - 1) && Init(filters[..n]) == filters[..n - 1];
      assert Last(Repeat(ps, n)) == ps && Last(filters[..n]) == filters[n - 1] && filters[..n] != [];
      var (r, names) := PassOver(Repeat(ps, n - 1), filters[..n - 1]);
      PassStep(ps, filters, n - 1, r, names);
    }
  }

  /** The providers' present contents. */
  function Contents(setup: Setup, s: State): (cs: seq<Content>)
    requires |s.history| == setup.Size() && forall p :: 0 <= p < |s.history| ==> s.history[p] != []
    ensures |cs| == setup.Size()
  {
    seq(setup.Size(), p requires 0 <= p < setup.Size() => Content(setup.compatible[p], Last(s.history[p])))
  }

  lemma ContentsAt(setup: Setup, s: State, p: nat)
    requires |s.history| == setup.Size() && p < setup.Size()
    requires forall q :: 0 <= q < |s.history| ==> s.history[q] != []
    ensures Contents(setup, s)[p] == Content(setup.compatible[p], s.history[p][|s.history[p]| - 1])
  {
  }

  lemma PartReadCurrent(setup: Setup, s: State, got: seq<seq<nat>>, p: nat)
    requires Readable(setup, s.history, got) && p < |got| && s.history[p] != []
    requires forall k :: 0 <= k < |got[p]| ==> got[p][k] == |s.history[p]| - 1
    ensures PartRead(setup, s.history, got, p) == Part(setup.cfg, Content(setup.compatible[p], Last(s.history[p])))
  {
    var ps, filters := Last(s.history[p]), setup.cfg.filters;
    assert ListsRead(setup, s.history, got, p) == Repeat(ps, |got[p]|);
    PassOverSame(ps, filters, |filters|);
    assert filters[..|filters|] == filters;
  }

  /** A finished call with no update since it began hands out a full recomputation, stored or not. */
  lemma QuietCallIsCurrent(setup: Setup, contents: seq<seq<Proxy>>, events: seq<Event>, c: nat)
    requires |contents| == setup.Size()
    ensures var s := Run(setup, contents, events);
            && Inv(setup, s)
            && (c in s.calls && s.calls[c].phase.Done? && s.calls[c].start == Versions(s) && setup.Size() > 0 ==>
                  s.calls[c].phase.list == OrFallback(setup, Compute(setup.cfg, Contents(setup, s))))
  {
    RunKeepsInv(setup, contents, events);
    var s := Run(setup, contents, events);
    if c in s.calls && s.calls[c].phase.Done? && s.calls[c].start == Versions(s) && setup.Size() > 0 {
      NeverStale(setup, contents, events, c);
      assert CallInv(setup, s, c, s.calls[c]);
      AnswerCurrent(setup, s, s.calls[c]);
    }
  }

  lemma AnswerCurrent(setup: Setup, s: State, call: Call)
    requires Inv(setup, s) && call.phase.Done? && call.start == Versions(s)
    requires Readable(setup, s.history, call.phase.got) && Complete(setup, call.phase.got)
    requires |call.phase.seen| == setup.Size()
    requires AtLeast(call.phase.seen, call.start) && Since(s, call.phase.seen, call.phase.got)
    ensures Answer(setup, s.history, call.phase.got) == Compute(setup.cfg, Contents(setup, s))
  {
    var got := call.phase.got;
    forall p | 0 <= p < |got| ensures PartRead(setup, s.history, got, p) == Parts(setup.cfg, Contents(setup, s))[p] {
      PartReadCurrent(setup, s, got, p);
    }
    assert PartsRead(setup, s.history, got) == Parts(setup.cfg, Contents(setup, s));
  }
}
