/** Steps 2.1 to 2.3 of the group sort: once the sort is stuck, which groups to report. */
module LoopLocate {
  import opened Counting
  import opened Seqs
  import opened Graphs
  import opened DagSort

  function ListOf(g: Graph, y: Name): seq<Name> {
    if y in g then g[y] else []
  }

  /** How many entries of `q` are in `s`. */
  function CountIn(q: seq<Name>, s: set<Name>): nat {
    if q == [] then 0 else CountIn(Init(q), s) + if Last(q) in s then 1 else 0
  }

  lemma {:induction false} CountWithout(q: seq<Name>, s: set<Name>, n: Name)
    requires n in s
    ensures CountIn(q, s) == CountIn(q, s - {n}) + Count(q, n)
  {
    if q != [] {
      CountWithout(Init(q), s, n);
    }
  }

  lemma {:induction false} CountNone(q: seq<Name>, s: set<Name>)
    ensures CountIn(q, s) > 0 <==> exists x :: x in q && x in s
  {
    if q != [] {
      assert q == Init(q) + [Last(q)];
      CountNone(Init(q), s);
    }
  }

  lemma {:induction false} CountAll(q: seq<Name>, s: set<Name>)
    requires forall x :: x in q ==> x in s
    ensures CountIn(q, s) == |q|
  {
    if q != [] {
      assert q == Init(q) + [Last(q)];
      CountAll(Init(q), s);
    }
  }

  /** The nodes stand for the names of `g`, whose references stay inside. */
  ghost predicate Linked(graph: map<Name, Node>, g: Graph) {
    && (forall y :: y in graph ==> ListOf(g, y) == match graph[y].group case Some(h) => h.proxies case None => [])
    && (forall y, x :: y in graph && x in ListOf(g, y) ==> x in graph)
  }

  /** Nobody left out of `keep` by the caller lies in a looping set. */
  ghost predicate HoldsLoops(g: Graph, keep: set<Name>) {
    forall c: set<Name> :: Looping(g, c) ==> c <= keep
  }

  // ---- step 2.1: out-degrees and back references ----

  /** References of `y` followed so far: its whole list if it is in `done`, `part` of it for `name`. */
  function Followed(g: Graph, done: set<Name>, name: Name, part: seq<Name>, y: Name): nat {
    if y in done then |ListOf(g, y)| else if y == name then |part| else 0
  }

  /** Those of them that lead to `x`. */
  function FollowedTo(g: Graph, done: set<Name>, name: Name, part: seq<Name>, y: Name, x: Name): nat {
    if y in done then Count(ListOf(g, y), x) else if y == name then Count(part, x) else 0
  }

  /** Out-degrees and back references record exactly the references followed. */
  ghost predicate Traced(graph: map<Name, Node>, g: Graph, done: set<Name>, name: Name, part: seq<Name>) {
    && (forall y :: y in graph ==> graph[y].outdegree == Followed(g, done, name, part, y))
    && (forall x, y :: x in graph ==> Count(graph[x].from, y) == FollowedTo(g, done, name, part, y, x))
  }

  /** Only out-degrees and back references may differ. */
  ghost predicate SameGroups(a: map<Name, Node>, b: map<Name, Node>) {
    a.Keys == b.Keys && forall y :: y in a ==> a[y].group == b[y].group
  }

  method TraceStep(before: map<Name, Node>, name: Name, proxy: Name, ghost g: Graph, ghost done: set<Name>,
                   ghost part: seq<Name>)
    returns (graph: map<Name, Node>)
    requires name in before && proxy in before && name !in done && Traced(before, g, done, name, part)
    ensures SameGroups(graph, before) && Traced(graph, g, done, name, part + [proxy])
  {
    graph := before[name := before[name].(outdegree := before[name].outdegree + 1)];
    graph := graph[proxy := graph[proxy].(from := graph[proxy].from + [name])];
    TraceOut(before, graph, name, proxy, g, done, part);
    TraceFrom(before, graph, name, proxy, g, done, part);
  }

  /** One reference of `name` followed, to `proxy`. */
  ghost predicate FollowedOne(before: map<Name, Node>, graph: map<Name, Node>, name: Name, proxy: Name) {
    && SameGroups(graph, before)
    && (forall y :: y in graph ==> graph[y].outdegree == before[y].outdegree + if y == name then 1 else 0)
    && (forall x :: x in graph ==> graph[x].from == if x == proxy then before[x].from + [name] else before[x].from)
  }

  lemma TraceOut(before: map<Name, Node>, graph: map<Name, Node>, name: Name, proxy: Name, g: Graph, done: set<Name>,
                 part: seq<Name>)
    requires FollowedOne(before, graph, name, proxy) && name !in done && Traced(before, g, done, name, part)
    ensures forall y :: y in graph ==> graph[y].outdegree == Followed(g, done, name, part + [proxy], y)
  {
  }

  lemma TraceFrom(before: map<Name, Node>, graph: map<Name, Node>, name: Name, proxy: Name, g: Graph, done: set<Name>,
                  part: seq<Name>)
    requires FollowedOne(before, graph, name, proxy) && name !in done && Traced(before, g, done, name, part)
    ensures forall x, y :: x in graph ==> Count(graph[x].from, y) == FollowedTo(g, done, name, part + [proxy], y, x)
  {
    forall x, y | x in graph ensures Count(graph[x].from, y) == FollowedTo(g, done, name, part + [proxy], y, x) {
      CountAppend(part, proxy, x);
      CountAppend(before[x].from, name, y);
    }
  }

  method TraceOne(before: map<Name, Node>, name: Name, proxies: seq<Name>, ghost g: Graph, ghost done: set<Name>)
    returns (graph: map<Name, Node>)
    requires name in before && name !in done && (forall x :: x in proxies ==> x in before)
    requires Traced(before, g, done, name, [])
    ensures SameGroups(graph, before) && Traced(graph, g, done, name, proxies)
  {
    graph := before;
    for j := 0 to |proxies|
      invariant SameGroups(graph, before) && Traced(graph, g, done, name, proxies[..j])
    {
      assert proxies[..j + 1] == proxies[..j] + [proxies[j]];
      graph := TraceStep(graph, name, proxies[j], g, done, proxies[..j]);
    }
    assert proxies[..|proxies|] == proxies;
  }

  /** Having followed all of `name`'s list is having `name` done. */
  lemma TracedDone(graph: map<Name, Node>, g: Graph, done: set<Name>, name: Name)
    requires Traced(graph, g, done, name, ListOf(g, name))
    ensures Traced(graph, g, done + {name}, "", [])
  {
  }

  /** One node of step 2.1, group or not. */
  method TraceNode(before: map<Name, Node>, name: Name, ghost g: Graph, ghost done: set<Name>)
    returns (graph: map<Name, Node>)
    requires Linked(before, g) && name in before && name !in done && Traced(before, g, done, "", [])
    ensures SameGroups(graph, before) && Traced(graph, g, done + {name}, "", [])
  {
    graph := before;
    assert Traced(graph, g, done, name, []);
    assert forall x :: x in ListOf(g, name) ==> x in before;
    if before[name].group.Some? {
      graph := TraceOne(before, name, before[name].group.value.proxies, g, done);
    }
    TracedDone(graph, g, done, name);
  }

  lemma LinkedSame(start: map<Name, Node>, graph: map<Name, Node>, g: Graph)
    requires Linked(start, g) && SameGroups(graph, start)
    ensures Linked(graph, g)
  {
  }

  lemma SameStill(a: map<Name, Node>, b: map<Name, Node>, c: map<Name, Node>)
    requires SameGroups(b, a) && SameGroups(c, b)
    ensures SameGroups(c, a)
  {
  }

  lemma NothingTraced(graph: map<Name, Node>, g: Graph)
    requires forall x :: x in graph ==> graph[x].outdegree == 0 && graph[x].from == []
    ensures Traced(graph, g, {}, "", [])
  {
  }

  /** One turn of the loop over the nodes. */
  method TraceTurn(ghost start: map<Name, Node>, before: map<Name, Node>, name: Name, ghost g: Graph,
                   ghost done: set<Name>)
    returns (graph: map<Name, Node>)
    requires Linked(start, g) && SameGroups(before, start) && name in before && name !in done
    requires Traced(before, g, done, "", [])
    ensures SameGroups(graph, start) && Traced(graph, g, done + {name}, "", [])
  {
    LinkedSame(start, before, g);
    graph := TraceNode(before, name, g, done);
    SameStill(start, before, graph);
  }

  /** The nodes still to be walked, and what the others have left behind. */
  ghost predicate Tracing(start: map<Name, Node>, graph: map<Name, Node>, g: Graph, names: set<Name>, done: set<Name>) {
    names == start.Keys - done && done <= start.Keys && SameGroups(graph, start) && Traced(graph, g, done, "", [])
  }

  lemma AllTraced(start: map<Name, Node>, graph: map<Name, Node>, g: Graph, done: set<Name>)
    requires Tracing(start, graph, g, {}, done)
    ensures SameGroups(graph, start) && Traced(graph, g, graph.Keys, "", [])
  {
    forall x | x in start.Keys ensures x in done {
      assert x !in start.Keys - done;
    }
    assert done == graph.Keys;
  }

  lemma OneLeft(start: map<Name, Node>, names: set<Name>, done: set<Name>, name: Name)
    requires names == start.Keys - done && done <= start.Keys && name in names
    ensures names - {name} == start.Keys - (done + {name}) && done + {name} <= start.Keys
    ensures |names - {name}| < |names|
  {
  }

  method TraceBack(start: map<Name, Node>, ghost g: Graph) returns (graph: map<Name, Node>)
    requires Linked(start, g) && forall x :: x in start ==> start[x].outdegree == 0 && start[x].from == []
    ensures SameGroups(graph, start) && Traced(graph, g, graph.Keys, "", [])
  {
    graph := start;
    var names := graph.Keys;
    ghost var done: set<Name> := {};
    NothingTraced(start, g);
    while names != {}
      invariant Tracing(start, graph, g, names, done)
      decreases |names|
    {
      var name :| name in names;
      graph := TraceTurn(start, graph, name, g, done);
      OneLeft(start, names, done, name);
      names, done := names - {name}, done + {name};
    }
    AllTraced(start, graph, g, done);
  }

  // ---- step 2.2: prune what leads nowhere ----

  /** Back references record the lists of all the names the pruning started from. */
  ghost predicate Backed(graph: map<Name, Node>, g: Graph, all: set<Name>) {
    forall x, y :: x in graph ==> Count(graph[x].from, y) == FollowedTo(g, all, "", [], y, x)
  }

  /**
   What is left counts its references into what is left, less those of `gone` for the node being
   dropped; what was dropped has none.
   */
  ghost predicate Degrees(graph: map<Name, Node>, g: Graph, all: set<Name>, gone: seq<Name>) {
    && graph.Keys <= all
    && (forall y :: y in graph ==> graph[y].outdegree == CountIn(ListOf(g, y), graph.Keys) - Count(gone, y))
    && (forall y :: y in all && y !in graph ==> CountIn(ListOf(g, y), graph.Keys) == 0)
  }

  ghost predicate Pruning(graph: map<Name, Node>, g: Graph, all: set<Name>, gone: seq<Name>) {
    Backed(graph, g, all) && Degrees(graph, g, all, gone)
  }

  ghost predicate DeadEnds(graph: map<Name, Node>, queue: seq<Name>) {
    && NoDup(queue)
    && (forall x :: x in queue ==> x in graph && graph[x].outdegree == 0)
    && (forall x :: x in graph && graph[x].outdegree == 0 ==> x in queue)
  }

  method FindDeadEnds(graph: map<Name, Node>) returns (queue: seq<Name>)
    ensures DeadEnds(graph, queue)
  {
    queue := [];
    var names := graph.Keys;
    while names != {}
      invariant names <= graph.Keys && NoDup(queue)
      invariant forall x :: x in queue ==> x in graph && x !in names && graph[x].outdegree == 0
      invariant forall x :: x in graph && x !in names && graph[x].outdegree == 0 ==> x in queue
      decreases |names|
    {
      var name :| name in names;
      names := names - {name};
      if graph[name].outdegree == 0 {
        queue := queue + [name];
      }
    }
  }

  lemma {:induction false} CountInMember(q: seq<Name>, s: set<Name>, x: Name)
    requires x in s
    ensures Count(q, x) <= CountIn(q, s)
  {
    if q != [] {
      CountInMember(Init(q), s, x);
    }
  }

  /** Only out-degrees may differ. */
  ghost predicate SameBack(a: map<Name, Node>, b: map<Name, Node>) {
    a.Keys == b.Keys && forall x :: x in a ==> a[x].from == b[x].from && a[x].group == b[x].group
  }

  lemma SameBackStill(a: map<Name, Node>, b: map<Name, Node>, c: map<Name, Node>)
    requires SameBack(b, a) && SameBack(c, b)
    ensures SameBack(c, a)
  {
  }

  /** One back reference: `part` of the dead end's list have been released already. */
  method UnlinkStep(before: map<Name, Node>, work: seq<Name>, f: Name, ghost g: Graph, ghost all: set<Name>,
                    ghost part: seq<Name>)
    returns (graph: map<Name, Node>, queue: seq<Name>)
    requires Pruning(before, g, all, part) && DeadEnds(before, work) && f in before && before[f].outdegree > 0
    ensures SameBack(graph, before)
    ensures Pruning(graph, g, all, part + [f]) && DeadEnds(graph, queue) && work <= queue
  {
    var node := before[f].(outdegree := before[f].outdegree - 1);
    graph, queue := before[f := node], work;
    if node.outdegree == 0 {
      queue := queue + [f];
    }
    DeadEndsStep(before, graph, work, f);
    UnlinkCounts(before, graph, f, g, all, part);
  }

  lemma DeadEndsStep(before: map<Name, Node>, graph: map<Name, Node>, work: seq<Name>, f: Name)
    requires DeadEnds(before, work) && f in before && before[f].outdegree > 0
    requires graph == before[f := before[f].(outdegree := before[f].outdegree - 1)]
    ensures DeadEnds(graph, if graph[f].outdegree == 0 then work + [f] else work)
  {
    assert f !in work;
    assert forall x :: x in work + [f] <==> x in work || x == f;
  }

  lemma UnlinkCounts(before: map<Name, Node>, graph: map<Name, Node>, f: Name, g: Graph, all: set<Name>,
                     part: seq<Name>)
    requires Pruning(before, g, all, part) && f in before
    requires graph == before[f := before[f].(outdegree := before[f].outdegree - 1)]
    ensures Pruning(graph, g, all, part + [f])
  {
    forall y ensures Count(part + [f], y) == Count(part, y) + if y == f then 1 else 0 {
      CountAppend(part, f, y);
    }
    assert graph.Keys == before.Keys;
    assert Backed(graph, g, all) by {
      assert forall x :: x in graph ==> graph[x].from == before[x].from;
    }
  }

  /** The node of a back reference is still there: it refers to a node that is. */
  lemma BackReferenceLives(graph: map<Name, Node>, g: Graph, all: set<Name>, name: Name, from: seq<Name>, j: nat)
    requires j < |from| && name in graph && Pruning(graph, g, all, from[..j]) && graph[name].from == from
    ensures from[j] in graph && graph[from[j]].outdegree > 0
  {
    var f := from[j];
    CountMember(from, f);
    CountInMember(ListOf(g, f), graph.Keys, name);
    assert Count(from, f) == Count(ListOf(g, f), name);
    assert from[..j + 1] == from[..j] + [f];
    CountAppend(from[..j], f, f);
    CountPrefix(from, j + 1, f);
  }

  /** The loop over the back references of a dead end: each is the name of a node still there. */
  method Unlink(before: map<Name, Node>, work: seq<Name>, name: Name, ghost g: Graph, ghost all: set<Name>)
    returns (graph: map<Name, Node>, queue: seq<Name>)
    requires name in before && Pruning(before, g, all, []) && DeadEnds(before, work)
    ensures SameGroups(graph, before) && Pruning(graph, g, all, before[name].from) && DeadEnds(graph, queue)
    ensures work <= queue
  {
    graph, queue := before, work;
    var from := before[name].from;
    for j := 0 to |from|
      invariant SameBack(graph, before)
      invariant Pruning(graph, g, all, from[..j]) && DeadEnds(graph, queue) && work <= queue
    {
      assert from[..j + 1] == from[..j] + [from[j]];
      BackReferenceLives(graph, g, all, name, from, j);
      ghost var last := graph;
      graph, queue := UnlinkStep(graph, queue, from[j], g, all, from[..j]);
      SameBackStill(before, last, graph);
    }
    assert from[..|from|] == from;
  }

  // ---- the pruning loop ----

  lemma DropKeepsPruning(before: map<Name, Node>, graph: map<Name, Node>, g: Graph, all: set<Name>, name: Name)
    requires name in before && Pruning(before, g, all, []) && before[name].outdegree == 0
    requires Pruning(graph, g, all, before[name].from) && graph.Keys == before.Keys
    ensures Pruning(graph - {name}, g, all, [])
  {
    var left := graph.Keys;
    assert (graph - {name}).Keys == left - {name};
    forall y ensures CountIn(ListOf(g, y), left - {name}) == CountIn(ListOf(g, y), left) - Count(ListOf(g, y), name) {
      CountWithout(ListOf(g, y), left, name);
    }
    assert forall y :: y in all ==> Count(before[name].from, y) == Count(ListOf(g, y), name);
    assert CountIn(ListOf(g, name), before.Keys) == 0;
  }

  lemma LoopingLeads(g: Graph, left: set<Name>, c: set<Name>, name: Name)
    requires Looping(g, c) && c <= left && name in c
    ensures CountIn(ListOf(g, name), left) > 0
  {
    assert HasSucc(g, c, name);
    var y :| y in c && Edge(g, name, y);
    assert y in ListOf(g, name) && y in left;
    CountNone(ListOf(g, name), left);
  }

  /** A dead end is in no looping set and is nobody's predecessor. */
  lemma DropKeepsLoops(g: Graph, left: set<Name>, name: Name)
    requires HoldsLoops(g, left) && CountIn(ListOf(g, name), left) == 0
    requires PredClosed(g, left)
    ensures HoldsLoops(g, left - {name})
    ensures PredClosed(g, left - {name})
  {
    CountNone(ListOf(g, name), left);
    forall c: set<Name> | Looping(g, c) ensures c <= left - {name} {
      if name in c {
        LoopingLeads(g, left, c, name);
      }
    }
    forall x | x in left - {name} ensures HasPred(g, left - {name}, x) {
      assert HasPred(g, left, x);
      var y :| y in left && Edge(g, y, x);
      assert y != name;
    }
  }

  lemma PopDeadEnd(graph: map<Name, Node>, queue: seq<Name>)
    requires DeadEnds(graph, queue) && queue != []
    ensures DeadEnds(graph - {queue[0]}, queue[1..])
  {
    assert queue == [queue[0]] + queue[1..];
    forall x | x in queue[1..] ensures x != queue[0] {
      var i :| 0 <= i < |queue[1..]| && queue[1..][i] == x;
      assert queue[i + 1] == x;
    }
  }

  /** One turn of the pruning loop. */
  method DropDeadEnd(before: map<Name, Node>, work: seq<Name>, ghost g: Graph, ghost all: set<Name>)
    returns (graph: map<Name, Node>, queue: seq<Name>)
    requires Pruning(before, g, all, []) && DeadEnds(before, work) && work != []
    ensures Pruning(graph, g, all, []) && DeadEnds(graph, queue) && graph.Keys == before.Keys - {work[0]}
    ensures work[0] in before && CountIn(ListOf(g, work[0]), before.Keys) == 0
  {
    var name := work[0];
    assert name in work;
    graph, queue := Unlink(before, work, name, g, all);
    DropKeepsPruning(before, graph, g, all, name);
    PopDeadEnd(graph, queue);
    graph := graph - {name};
    queue := queue[1..];
  }

  /** What the pruning leaves is the greatest looping set, whatever order the worklist took. */
  method Prune(start: map<Name, Node>, ghost g: Graph) returns (graph: map<Name, Node>)
    requires Pruning(start, g, start.Keys, []) && HoldsLoops(g, start.Keys)
    requires PredClosed(g, start.Keys)
    ensures Looping(g, graph.Keys) && HoldsLoops(g, graph.Keys)
  {
    graph := start;
    ghost var all := start.Keys;
    var queue := FindDeadEnds(graph);
    while queue != []
      invariant Pruning(graph, g, all, []) && DeadEnds(graph, queue) && HoldsLoops(g, graph.Keys)
      invariant PredClosed(g, graph.Keys)
      decreases |graph.Keys|
    {
      ghost var left, name := graph.Keys, queue[0];
      graph, queue := DropDeadEnd(graph, queue, g, all);
      DropKeepsLoops(g, left, name);
    }
    LeftIsLooping(graph, g, all);
  }

  lemma LeftIsLooping(graph: map<Name, Node>, g: Graph, all: set<Name>)
    requires Pruning(graph, g, all, []) && DeadEnds(graph, [])
    requires PredClosed(g, graph.Keys)
    ensures Looping(g, graph.Keys)
  {
    forall x | x in graph.Keys ensures HasPred(g, graph.Keys, x) && HasSucc(g, graph.Keys, x) {
      assert graph[x].outdegree == CountIn(ListOf(g, x), graph.Keys) - Count([], x);
      CountNone(ListOf(g, x), graph.Keys);
      var y :| y in ListOf(g, x) && y in graph.Keys;
      assert Edge(g, x, y);
    }
  }

  /** Step 2.3: the names left, in the order the map is walked. */
  method Report(graph: map<Name, Node>) returns (elements: seq<Name>)
    ensures NoDup(elements) && Elements(elements) == graph.Keys
  {
    elements := [];
    var names := graph.Keys;
    while names != {}
      invariant names <= graph.Keys && NoDup(elements)
      invariant forall x :: x in elements ==> x in graph && x !in names
      invariant forall x :: x in graph && x !in names ==> x in elements
      decreases |names|
    {
      var name :| name in names;
      elements := elements + [name];
      names := names - {name};
    }
  }

  /** Steps 2.1 to 2.3, for the graph the sort got stuck on. */
  method Locate(start: map<Name, Node>, ghost g: Graph) returns (elements: seq<Name>)
    requires Linked(start, g) && HoldsLoops(g, start.Keys)
    requires forall x :: x in start ==> start[x].outdegree == 0 && start[x].from == []
    requires PredClosed(g, start.Keys)
    ensures NoDup(elements) && Looping(g, Elements(elements)) && HoldsLoops(g, Elements(elements))
  {
    var graph := TraceBack(start, g);
    TracedIsPruning(start, graph, g);
    graph := Prune(graph, g);
    elements := Report(graph);
  }

  lemma TracedIsPruning(start: map<Name, Node>, graph: map<Name, Node>, g: Graph)
    requires Linked(start, g) && graph.Keys == start.Keys && Traced(graph, g, graph.Keys, "", [])
    ensures Pruning(graph, g, graph.Keys, [])
  {
    forall y | y in graph ensures CountIn(ListOf(g, y), graph.Keys) == |ListOf(g, y)| {
      CountAll(ListOf(g, y), graph.Keys);
    }
  }
}
