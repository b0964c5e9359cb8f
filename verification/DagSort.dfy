/** Sorting the proxy groups of the configuration by reference, in place, and locating loops. */
module DagSort {
  import opened Counting
  import opened Seqs
  import opened Graphs

  /**
   A decoded group: its name, the names it lists, repetitions included, and its place in the configuration
   as read.
   */
  datatype Group = Group(name: Name, proxies: seq<Name>, source: nat)

  datatype Node = Node(indegree: int, group: Option<Group>, outdegree: int, from: seq<Name>)

  datatype Error = Duplicate(name: Name) | Loop(elements: seq<Name>)

  // ---- the input as a graph ----

  ghost predicate DistinctNames(gs: seq<Group>) {
    forall i, j :: 0 <= i < j < |gs| ==> gs[i].name != gs[j].name
  }

  ghost predicate Repeated(gs: seq<Group>, n: Name) {
    exists i, j :: 0 <= i < j < |gs| && gs[i].name == n && gs[j].name == n
  }

  /** The references among names; with distinct names, one entry a group. */
  function References(gs: seq<Group>): (g: Graph)
    ensures forall x :: x in g ==> exists i :: 0 <= i < |gs| && gs[i].name == x && g[x] == gs[i].proxies
    ensures forall i :: 0 <= i < |gs| ==> gs[i].name in g
  {
    if gs == [] then map[] else References(Init(gs))[Last(gs).name := Last(gs).proxies]
  }

  lemma {:induction false} ReferencesAt(gs: seq<Group>, i: nat)
    requires DistinctNames(gs) && i < |gs|
    ensures References(gs)[gs[i].name] == gs[i].proxies
  {
    if i < |gs| - 1 {
      assert Init(gs)[i] == gs[i];
      ReferencesAt(Init(gs), i);
    }
  }

  /** Every group stands after each group it lists, a group that lists itself nowhere. */
  ghost predicate Sorted(gs: seq<Group>) {
    forall i, j :: 0 <= i <= j < |gs| ==> gs[j].name !in gs[i].proxies
  }

  /** How often the groups of `gs` whose name is in `k` list `x`. */
  function Refs(gs: seq<Group>, k: set<Name>, x: Name): nat {
    if gs == [] then 0 else Refs(Init(gs), k, x) + OwnRefs(Last(gs), k, x)
  }

  function OwnRefs(g: Group, k: set<Name>, x: Name): nat {
    if g.name in k then Count(g.proxies, x) else 0
  }

  lemma {:induction false} RefsOutside(gs: seq<Group>, k: set<Name>, n: Name, x: Name)
    requires forall i :: 0 <= i < |gs| ==> gs[i].name != n
    ensures Refs(gs, k - {n}, x) == Refs(gs, k, x)
  {
    if gs != [] {
      RefsOutside(Init(gs), k, n, x);
    }
  }

  /** Taking the name of group `i` out of `k` takes out exactly its references. */
  lemma {:induction false} RefsWithout(gs: seq<Group>, k: set<Name>, i: nat, x: Name)
    requires DistinctNames(gs) && i < |gs| && gs[i].name in k
    ensures Refs(gs, k, x) == Refs(gs, k - {gs[i].name}, x) + Count(gs[i].proxies, x)
  {
    if i == |gs| - 1 {
      RefsOutside(Init(gs), k, gs[i].name, x);
    } else {
      assert Init(gs)[i] == gs[i];
      RefsWithout(Init(gs), k, i, x);
    }
  }

  lemma {:induction false} RefsFrom(gs: seq<Group>, k: set<Name>, x: Name)
    ensures Refs(gs, k, x) > 0 <==> exists i :: 0 <= i < |gs| && gs[i].name in k && x in gs[i].proxies
  {
    if gs != [] {
      var rest := Init(gs);
      RefsFrom(rest, k, x);
      if Refs(rest, k, x) > 0 {
        var i :| 0 <= i < |rest| && rest[i].name in k && x in rest[i].proxies;
        assert gs[i].name in k && x in gs[i].proxies;
      } else if OwnRefs(Last(gs), k, x) > 0 {
        CountMember(Last(gs).proxies, x);
        assert gs[|gs| - 1].name in k && x in gs[|gs| - 1].proxies;
      } else {
        forall i | 0 <= i < |gs| && gs[i].name in k ensures x !in gs[i].proxies {
          if i < |rest| { assert rest[i] == gs[i]; } else { CountMember(gs[i].proxies, x); }
        }
      }
    }
  }

  lemma {:induction false} RefsSame(gs: seq<Group>, k: set<Name>, m: set<Name>, x: Name)
    requires forall i :: 0 <= i < |gs| ==> gs[i].name in k && gs[i].name in m
    ensures Refs(gs, k, x) == Refs(gs, m, x)
  {
    if gs != [] {
      RefsSame(Init(gs), k, m, x);
    }
  }

  // ---- step 1.1: the graph ----

  /** Exactly the groups of `gs` have a node with a group. */
  ghost predicate Named(graph: map<Name, Node>, gs: seq<Group>) {
    && (forall g :: g in gs ==> g.name in graph && graph[g.name].group == Some(g))
    && (forall x :: x in graph && graph[x].group.Some? ==> graph[x].group.value in gs && graph[x].group.value.name == x)
  }

  /** In-degrees count the references of `gs`, and `extra` on top; everything referred to has a node. */
  ghost predicate Counted(graph: map<Name, Node>, gs: seq<Group>, k: set<Name>, extra: seq<Name>) {
    && (forall x :: x in graph ==> graph[x].indegree == Refs(gs, k, x) + Count(extra, x))
    && (forall x :: x in graph ==> graph[x].outdegree == 0 && graph[x].from == [])
    && (forall x :: Refs(gs, k, x) > 0 || x in extra ==> x in graph)
  }

  ghost predicate Built(gs: seq<Group>, graph: map<Name, Node>) {
    DistinctNames(gs) && Named(graph, gs) && Counted(graph, gs, graph.Keys, [])
  }

  /** Enter a group under its name, unless the name is taken by a group already. */
  method NameGroup(before: map<Name, Node>, option: Group, ghost gs: seq<Group>, ghost k: set<Name>)
    returns (graph: map<Name, Node>, dup: bool)
    requires Named(before, gs) && Counted(before, gs, k, [])
    ensures dup <==> exists g :: g in gs && g.name == option.name
    ensures !dup ==> Named(graph, gs + [option]) && Counted(graph, gs, k, [])
  {
    dup, graph := false, before;
    if option.name in graph {
      var node := graph[option.name];
      if node.group.Some? {
        return graph, true;
      }
      graph := graph[option.name := node.(group := Some(option))];
    } else {
      graph := graph[option.name := Node(0, Some(option), 0, [])];
    }
  }

  /** The loop over one group's list. */
  method CountProxies(before: map<Name, Node>, option: Group, ghost gs: seq<Group>, ghost k: set<Name>)
    returns (graph: map<Name, Node>)
    requires Named(before, gs + [option]) && Counted(before, gs, k, []) && option.name in k
    ensures Named(graph, gs + [option]) && Counted(graph, gs + [option], k, [])
  {
    graph := before;
    var proxies := option.proxies;
    for j := 0 to |proxies|
      invariant Named(graph, gs + [option]) && Counted(graph, gs, k, proxies[..j])
    {
      var proxy := proxies[j];
      assert proxies[..j + 1] == proxies[..j] + [proxy];
      forall x ensures Count(proxies[..j + 1], x) == Count(proxies[..j], x) + if x == proxy then 1 else 0 {
        CountAppend(proxies[..j], proxy, x);
      }
      if proxy in graph {
        graph := graph[proxy := graph[proxy].(indegree := graph[proxy].indegree + 1)];
      } else {
        CountMember(proxies[..j], proxy);
        graph := graph[proxy := Node(1, None, 0, [])];
      }
    }
    assert proxies[..|proxies|] == proxies && Init(gs + [option]) == gs;
    forall x ensures Refs(gs + [option], k, x) == Refs(gs, k, x) + Count(proxies, x) {
      CountMember(proxies, x);
    }
    assert forall x :: Refs(gs + [option], k, x) > 0 ==> x in graph by {
      forall x ensures x in proxies <==> Count(proxies, x) > 0 { CountMember(proxies, x); }
    }
  }

  lemma RepeatedAt(gs: seq<Group>, i: nat)
    requires i < |gs| && exists g :: g in gs[..i] && g.name == gs[i].name
    ensures Repeated(gs, gs[i].name)
  {
    var g :| g in gs[..i] && g.name == gs[i].name;
    var j :| 0 <= j < i && gs[..i][j] == g;
    assert gs[j].name == gs[i].name;
  }

  lemma DistinctSoFar(gs: seq<Group>, i: nat)
    requires i < |gs| && DistinctNames(gs[..i]) && !exists g :: g in gs[..i] && g.name == gs[i].name
    ensures DistinctNames(gs[..i + 1])
  {
    forall a | 0 <= a < i ensures gs[a].name != gs[i].name {
      assert gs[..i][a] in gs[..i];
    }
    forall a, b | 0 <= a < b < i ensures gs[a].name != gs[b].name {
      assert gs[..i][a].name != gs[..i][b].name;
    }
  }

  /** Counts references, whichever of a name and its first mention comes first; stops at a repeated name. */
  method BuildGraph(gs: seq<Group>) returns (graph: map<Name, Node>, dup: Option<Name>)
    ensures dup == None ==> Built(gs, graph)
    ensures dup.Some? ==> Repeated(gs, dup.value)
  {
    graph := map[];
    ghost var names := set g | g in gs :: g.name;
    for i := 0 to |gs|
      invariant DistinctNames(gs[..i]) && Named(graph, gs[..i]) && Counted(graph, gs[..i], names, [])
    {
      var option, repeated := gs[i], false;
      assert option.name in names;
      graph, repeated := NameGroup(graph, option, gs[..i], names);
      if repeated {
        RepeatedAt(gs, i);
        return graph, Some(option.name);
      }
      graph := CountProxies(graph, option, gs[..i], names);
      DistinctSoFar(gs, i);
      assert gs[..i + 1] == gs[..i] + [option];
    }
    assert gs[..|gs|] == gs;
    forall x ensures Refs(gs, names, x) == Refs(gs, graph.Keys, x) {
      RefsSame(gs, names, graph.Keys, x);
    }
    dup := None;
  }

  // ---- step 1.2: the sort ----

  /** The nodes left, their in-degrees up to the references `gone` already released by the group being placed. */
  ghost predicate Remaining(graph: map<Name, Node>, gs: seq<Group>, gone: seq<Name>) {
    && (forall g :: g in gs && g.name in graph ==> graph[g.name].group == Some(g))
    && (forall x :: x in graph && graph[x].group.Some? ==> graph[x].group.value in gs && graph[x].group.value.name == x)
    && (forall x :: x in graph ==> graph[x].indegree == Refs(gs, graph.Keys, x) - Count(gone, x))
    && (forall x :: x in graph ==> graph[x].outdegree == 0 && graph[x].from == [])
    && (forall x :: Refs(gs, graph.Keys, x) > 0 ==> x in graph)
  }

  /** The worklist holds, once each, the nodes nobody left refers to. */
  ghost predicate Ready(graph: map<Name, Node>, queue: seq<Name>) {
    && NoDup(queue)
    && (forall x :: x in queue ==> x in graph && graph[x].indegree == 0)
    && (forall x :: x in graph && graph[x].indegree == 0 ==> x in queue)
  }

  /** `out` holds, once each and in order, the groups whose node is gone. */
  ghost predicate Placed(out: seq<Group>, gs: seq<Group>, left: set<Name>) {
    && NoDup(out) && Sorted(out)
    && (forall g :: g in out ==> g in gs && g.name !in left)
    && (forall g :: g in gs && g.name !in left ==> g in out)
  }

  /** Nothing in a looping set is ever released. */
  ghost predicate KeepsLoops(gs: seq<Group>, left: set<Name>) {
    forall c: set<Name> :: Looping(References(gs), c) ==> c <= left
  }

  /** The worklist at the start, in whatever order the map is walked. */
  method Roots(graph: map<Name, Node>) returns (queue: seq<Name>)
    ensures Ready(graph, queue)
  {
    queue := [];
    var names := graph.Keys;
    while names != {}
      invariant names <= graph.Keys && NoDup(queue)
      invariant forall x :: x in queue ==> x in graph && x !in names && graph[x].indegree == 0
      invariant forall x :: x in graph && x !in names && graph[x].indegree == 0 ==> x in queue
      decreases |names|
    {
      var name :| name in names;
      names := names - {name};
      if graph[name].indegree == 0 {
        queue := queue + [name];
      }
    }
  }

  /** One listed name: its node, found, has one reference fewer, and is ready when that was the last. */
  method ReleaseOne(before: map<Name, Node>, work: seq<Name>, proxy: Name, ghost gs: seq<Group>, ghost part: seq<Name>)
    returns (graph: map<Name, Node>, queue: seq<Name>)
    requires Remaining(before, gs, part) && Ready(before, work) && work != []
    requires Refs(gs, before.Keys, proxy) > Count(part, proxy)
    ensures graph.Keys == before.Keys && Remaining(graph, gs, part + [proxy]) && Ready(graph, queue)
    ensures queue != [] && queue[0] == work[0]
  {
    var child := before[proxy].(indegree := before[proxy].indegree - 1);
    graph, queue := before[proxy := child], work;
    if child.indegree == 0 {
      queue := queue + [proxy];
    }
    ReleaseCounts(before, graph, proxy, gs, part);
    ReleaseReady(before, graph, work, proxy);
  }

  ghost predicate OneLess(before: map<Name, Node>, graph: map<Name, Node>, proxy: Name) {
    proxy in before && graph == before[proxy := before[proxy].(indegree := before[proxy].indegree - 1)]
  }

  lemma ReleaseCounts(before: map<Name, Node>, graph: map<Name, Node>, proxy: Name, gs: seq<Group>, part: seq<Name>)
    requires Remaining(before, gs, part) && OneLess(before, graph, proxy)
    ensures graph.Keys == before.Keys && Remaining(graph, gs, part + [proxy])
  {
    assert graph.Keys == before.Keys;
    forall x | x in graph ensures graph[x].indegree == Refs(gs, graph.Keys, x) - Count(part + [proxy], x) {
      CountAppend(part, proxy, x);
    }
  }

  lemma ReleaseReady(before: map<Name, Node>, graph: map<Name, Node>, work: seq<Name>, proxy: Name)
    requires Ready(before, work) && OneLess(before, graph, proxy) && before[proxy].indegree > 0
    ensures Ready(graph, if graph[proxy].indegree == 0 then work + [proxy] else work)
  {
    assert proxy !in work;
    assert forall x :: x in work + [proxy] <==> x in work || x == proxy;
  }

  /** The loop over the list of the group being placed: release its references, each child found. */
  method Release(before: map<Name, Node>, work: seq<Name>, name: Name, proxies: seq<Name>, ghost gs: seq<Group>)
    returns (graph: map<Name, Node>, queue: seq<Name>)
    requires Remaining(before, gs, []) && Ready(before, work) && work != []
    requires forall x :: x in proxies ==> Refs(gs, before.Keys, x) >= Count(proxies, x)
    ensures graph.Keys == before.Keys && Remaining(graph, gs, proxies) && Ready(graph, queue)
    ensures queue != [] && queue[0] == work[0]
  {
    graph, queue := before, work;
    for j := 0 to |proxies|
      invariant graph.Keys == before.Keys && Remaining(graph, gs, proxies[..j]) && Ready(graph, queue)
      invariant queue != [] && queue[0] == work[0]
    {
      assert proxies[..j + 1] == proxies[..j] + [proxies[j]];
      CountPrefix(proxies, j + 1, proxies[j]);
      CountAppend(proxies[..j], proxies[j], proxies[j]);
      graph, queue := ReleaseOne(graph, queue, proxies[j], gs, proxies[..j]);
    }
    assert proxies[..|proxies|] == proxies;
  }

  lemma EdgesAreListed(gs: seq<Group>, y: Name, x: Name)
    requires DistinctNames(gs)
    ensures Edge(References(gs), y, x) <==> exists i :: 0 <= i < |gs| && gs[i].name == y && x in gs[i].proxies
  {
    forall i | 0 <= i < |gs| ensures References(gs)[gs[i].name] == gs[i].proxies {
      ReferencesAt(gs, i);
    }
  }

  /** Dropping a finished node leaves the others' in-degrees right. */
  lemma DeleteKeepsRemaining(graph: map<Name, Node>, gs: seq<Group>, name: Name, proxies: seq<Name>)
    requires DistinctNames(gs) && name in graph && Remaining(graph, gs, proxies)
    requires proxies == match graph[name].group case Some(g) => g.proxies case None => []
    requires graph[name].indegree == 0 && Refs(gs, graph.Keys, name) == 0
    ensures Remaining(graph - {name}, gs, [])
  {
    var k := graph.Keys;
    assert (graph - {name}).Keys == k - {name};
    forall x ensures Refs(gs, k - {name}, x) == Refs(gs, k, x) - Count(proxies, x) {
      if graph[name].group.Some? {
        var i :| 0 <= i < |gs| && gs[i] == graph[name].group.value;
        RefsWithout(gs, k, i, x);
      } else {
        RefsOutside(gs, k, name, x);
      }
    }
  }

  lemma ListedFromLeft(gs: seq<Group>, left: set<Name>, y: Name, x: Name)
    requires DistinctNames(gs) && y in left && Edge(References(gs), y, x)
    ensures Refs(gs, left, x) > 0
  {
    EdgesAreListed(gs, y, x);
    RefsFrom(gs, left, x);
  }

  lemma LoopIsListed(gs: seq<Group>, left: set<Name>, c: set<Name>, name: Name)
    requires DistinctNames(gs) && Looping(References(gs), c) && c <= left && name in c
    ensures Refs(gs, left, name) > 0
  {
    assert HasPred(References(gs), c, name);
    var y :| y in c && Edge(References(gs), y, name);
    ListedFromLeft(gs, left, y, name);
  }

  lemma DeleteKeepsLoops(gs: seq<Group>, left: set<Name>, name: Name)
    requires DistinctNames(gs) && KeepsLoops(gs, left) && Refs(gs, left, name) == 0
    ensures KeepsLoops(gs, left - {name})
  {
    forall c: set<Name> | Looping(References(gs), c) ensures c <= left - {name} {
      if name in c {
        LoopIsListed(gs, left, c, name);
      }
    }
  }

  lemma ListsOnlyLeft(gs: seq<Group>, left: set<Name>, g: Group, x: Name)
    requires g in gs && g.name in left && Refs(gs, left, x) == 0
    ensures x !in g.proxies
  {
    var i :| 0 <= i < |gs| && gs[i] == g;
    RefsFrom(gs, left, x);
    assert !(gs[i].name in left && x in gs[i].proxies);
  }

  lemma SortedPush(g: Group, out: seq<Group>)
    requires Sorted(out) && g.name !in g.proxies && forall h :: h in out ==> h.name !in g.proxies
    ensures Sorted([g] + out)
  {
    var r := [g] + out;
    forall a, b | 0 <= a <= b < |r| ensures r[b].name !in r[a].proxies {
      if a > 0 { assert r[a] == out[a - 1] && r[b] == out[b - 1]; }
      else if b > 0 { assert r[b] == out[b - 1] && out[b - 1] in out; }
    }
  }

  lemma NameTells(gs: seq<Group>, g: Group, h: Group)
    requires DistinctNames(gs) && g in gs && h in gs && g.name == h.name
    ensures g == h
  {
    var i :| 0 <= i < |gs| && gs[i] == g;
    var j :| 0 <= j < |gs| && gs[j] == h;
  }

  /** The group of a node nobody left refers to can stand before everything placed so far. */
  lemma PlaceKeepsOrder(out: seq<Group>, gs: seq<Group>, left: set<Name>, g: Group)
    requires DistinctNames(gs) && Placed(out, gs, left) && g in gs && g.name in left
    requires forall x :: Refs(gs, left, x) > 0 ==> x in left
    requires Refs(gs, left, g.name) == 0
    ensures Placed([g] + out, gs, left - {g.name})
    ensures |out| < |gs|
  {
    forall h | h == g || h in out ensures h.name !in g.proxies {
      ListsOnlyLeft(gs, left, g, h.name);
    }
    SortedPush(g, out);
    var r := [g] + out;
    PushNoDup(g, out);
    forall h | h in gs && h.name !in left - {g.name} ensures h in r {
      if h.name == g.name { NameTells(gs, g, h); }
    }
    NoDupFits(r, gs);
  }

  /** A repetition-free sequence drawn from another is no longer than it. */
  lemma {:induction false} NoDupFits<T>(a: seq<T>, b: seq<T>)
    requires NoDup(a) && forall x :: x in a ==> x in b
    ensures |a| <= |b|
  {
    if a != [] {
      var x := Last(a);
      assert x in a;
      var i :| 0 <= i < |b| && b[i] == x;
      var rest := b[..i] + b[i + 1..];
      forall y | y in Init(a) ensures y in rest {
        var j :| 0 <= j < |a| - 1 && a[j] == y;
        assert y != x && y in b;
        assert b == b[..i] + [x] + b[i + 1..];
      }
      NoDupFits(Init(a), rest);
    }
  }

  lemma LoopsAreNamed(gs: seq<Group>, graph: map<Name, Node>)
    requires Built(gs, graph)
    ensures KeepsLoops(gs, graph.Keys)
  {
    forall c: set<Name> | Looping(References(gs), c) ensures c <= graph.Keys {
      forall x | x in c ensures x in graph {
        assert HasSucc(References(gs), c, x);
        var i :| 0 <= i < |gs| && gs[i].name == x;
        assert gs[i] in gs;
      }
    }
  }

  lemma OwnRefsCounted(gs: seq<Group>, k: set<Name>, g: Group)
    requires DistinctNames(gs) && g in gs && g.name in k
    ensures forall x :: Refs(gs, k, x) >= Count(g.proxies, x)
  {
    var i :| 0 <= i < |gs| && gs[i] == g;
    forall x ensures Refs(gs, k, x) >= Count(g.proxies, x) {
      RefsWithout(gs, k, i, x);
    }
  }

  lemma PopReady(graph: map<Name, Node>, queue: seq<Name>)
    requires Ready(graph, queue) && queue != []
    ensures Ready(graph - {queue[0]}, queue[1..])
  {
    assert queue == [queue[0]] + queue[1..];
    forall x | x in queue[1..] ensures x != queue[0] {
      var i :| 0 <= i < |queue[1..]| && queue[1..][i] == x;
      assert queue[i + 1] == x;
    }
  }

  lemma AllPlaced(out: seq<Group>, gs: seq<Group>)
    requires DistinctNames(gs) && Placed(out, gs, {})
    ensures |out| == |gs| && multiset(out) == multiset(gs)
  {
    assert NoDup(gs);
    NoDupFits(gs, out);
    NoDupFits(out, gs);
    forall g ensures multiset(out)[g] == multiset(gs)[g] {
      NoDupCount(out, g);
      NoDupCount(gs, g);
    }
  }

  lemma {:induction false} NoDupCount<T>(q: seq<T>, x: T)
    requires NoDup(q)
    ensures multiset(q)[x] == if x in q then 1 else 0
  {
    if q != [] {
      assert q == Init(q) + [Last(q)];
      assert Last(q) !in Init(q);
      NoDupCount(Init(q), x);
    }
  }

  // ---- the sorting loop ----

  /** One turn of Kahn's loop on the graph: release the children of a node nobody left refers to, and drop it. */
  method Retire(before: map<Name, Node>, work: seq<Name>, ghost gs: seq<Group>)
    returns (graph: map<Name, Node>, queue: seq<Name>)
    requires DistinctNames(gs) && Remaining(before, gs, []) && Ready(before, work) && work != []
    requires KeepsLoops(gs, before.Keys)
    ensures graph.Keys == before.Keys - {work[0]} && Remaining(graph, gs, []) && Ready(graph, queue)
    ensures KeepsLoops(gs, graph.Keys)
  {
    var name := work[0];
    var node := before[name];
    DeleteKeepsLoops(gs, before.Keys, name);
    graph, queue := before, work;
    if node.group.Some? {
      OwnRefsCounted(gs, before.Keys, node.group.value);
      graph, queue := Release(before, work, name, node.group.value.proxies, gs);
      assert node.group.value in gs;
      assert graph[name].group == node.group;
    }
    DeleteKeepsRemaining(graph, gs, name, if node.group.Some? then node.group.value.proxies else []);
    PopReady(graph, queue);
    graph := graph - {name};
    queue := queue[1..];
  }

  /** Put the group of a node nobody left refers to in front of those placed before it, if the node has one. */
  method Place(groups: array<Group>, index: nat, graph: map<Name, Node>, name: Name, ghost gs: seq<Group>)
    returns (next: nat)
    requires DistinctNames(gs) && Remaining(graph, gs, []) && name in graph && graph[name].indegree == 0
    requires index <= groups.Length == |gs| && Placed(groups[groups.Length - index..], gs, graph.Keys)
    modifies groups
    ensures next <= groups.Length && Placed(groups[groups.Length - next..], gs, graph.Keys - {name})
  {
    next := index;
    if graph[name].group.Some? {
      var g := graph[name].group.value;
      ghost var out := groups[groups.Length - index..];
      PlaceKeepsOrder(out, gs, graph.Keys, g);
      next := index + 1;
      groups[groups.Length - next] := g;
      assert groups[groups.Length - next..] == [g] + out;
    }
  }

  /** Kahn's loop: fills the array from its end, one group whenever nobody left refers to it. */
  method TopoSort(groups: array<Group>, start: map<Name, Node>, ghost gs: seq<Group>) returns (graph: map<Name, Node>)
    requires groups[..] == gs && Built(gs, start)
    modifies groups
    ensures graph.Keys <= start.Keys && Remaining(graph, gs, [])
    ensures KeepsLoops(gs, graph.Keys)
    ensures forall x :: x in graph ==> Refs(gs, graph.Keys, x) > 0
    ensures graph.Keys == {} ==> Sorted(groups[..]) && multiset(groups[..]) == multiset(gs)
  {
    graph := start;
    var queue := Roots(graph);
    var index: nat := 0;
    LoopsAreNamed(gs, graph);
    assert Placed([], gs, graph.Keys);
    assert groups[groups.Length..] == [];
    while queue != []
      invariant graph.Keys <= start.Keys && index <= groups.Length == |gs|
      invariant Remaining(graph, gs, []) && Ready(graph, queue) && KeepsLoops(gs, graph.Keys)
      invariant Placed(groups[groups.Length - index..], gs, graph.Keys)
      decreases |graph.Keys|
    {
      assert queue[0] in queue;
      index := Place(groups, index, graph, queue[0], gs);
      graph, queue := Retire(graph, queue, gs);
    }
    if graph.Keys == {} {
      AllPlaced(groups[groups.Length - index..], gs);
      assert groups[groups.Length - index..] == groups[..];
    }
  }
}
