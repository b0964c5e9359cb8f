/** Lookups and whole runs of the cache: what every sequence of Set, Get and Clear keeps. */
module ArcRuns {
  import opened Seqs
  import opened ArcModel
  import opened ArcDirectory

  const NANOS_PER_SECOND := 1_000_000_000

  /** `expires` is in whole seconds since the epoch. */
  datatype Item<V> = Item(value: V, ghosted: bool, expires: int)

  /** `blank` is the zero value that demotion leaves behind. */
  datatype State<K(==), V> = State(blank: V, lists: Lists<K>, items: map<K, Item<V>>) {
    ghost predicate Coherent() {
      && lists.Good()
      && (forall k :: k in items ==> k in lists.All())
      && (forall k :: k in lists.All() ==> k in items)
      && (forall k :: k in lists.b1 + lists.b2 ==> items[k].ghosted)
      && (forall k :: k in lists.t1 ==> !items[k].ghosted)
      && (forall k :: k in items && items[k].ghosted ==> items[k].value == blank)
    }
  }

  function Empty<K(==), V>(c: int, blank: V): State<K, V> {
    State(blank, Lists(c, 0, [], [], [], []), map[])
  }

  function Forget<K(==), V>(items: map<K, Item<V>>, k: Option<K>): map<K, Item<V>> {
    if k.Some? then items - {k.value} else items
  }

  function Bury<K(==), V>(items: map<K, Item<V>>, k: Option<K>, blank: V): map<K, Item<V>> {
    if k.Some? && k.value in items
    then items[k.value := items[k.value].(value := blank, ghosted := true)] else items
  }

  /** The request part of every Set and every Get that finds its key. */
  function Touch<K(==), V>(s: State<K, V>, k: K): (t: State<K, V>)
    requires s.lists.Sized()
    ensures t.lists.Sized()
  {
    var o := Request(s.lists, k);
    State(s.blank, o.lists, Bury(Forget(s.items, o.dropped), o.demoted, s.blank))
  }

  function Set<K(==), V>(s: State<K, V>, k: K, v: V, expiresNanos: int): (t: State<K, V>)
    requires s.lists.Sized()
    ensures t.lists.Sized()
  {
    var t := Touch(s, k);
    t.(items := t.items[k := Item(v, false, expiresNanos / NANOS_PER_SECOND)])
  }

  /** A hit carries the value and the expiry in nanoseconds. */
  datatype Lookup<K(==), V> = Lookup(state: State<K, V>, hit: Option<(V, int)>)

  function Get<K(==), V>(s: State<K, V>, k: K): (r: Lookup<K, V>)
    requires s.lists.Sized()
    ensures r.state.lists.Sized()
  {
    if k !in s.items then Lookup(s, None) else
    var t := Touch(s, k);
    if k in t.items && !t.items[k].ghosted
    then Lookup(t, Some((t.items[k].value, t.items[k].expires * NANOS_PER_SECOND)))
    else Lookup(t, None)
  }

  /** A request adds `x` to the directory and removes the dropped element, and nothing else. */
  lemma RequestMembers<T>(l: Lists<T>, x: T)
    requires l.Good()
    ensures var o := Request(l, x); var m := o.lists;
            && m.Good() && x in m.All()
            && (forall y :: y in m.All() ==> y == x || y in l.All())
            && (forall y :: y in m.All() ==> Some(y) != o.dropped)
            && (forall y :: y in l.All() && Some(y) != o.dropped ==> y in m.All())
            && (o.dropped.Some? ==> o.dropped.value in l.All() && o.dropped.value != x)
  {
    RequestRefinesDbl(l, x);
    DirectoryMembers(l, Request(l, x).lists, x);
  }

  lemma DirectoryMembers<T>(l: Lists<T>, m: Lists<T>, x: T)
    requires l.Good() && Directory(m) == DblRequest(Directory(l), x)
    ensures NoDup(m.All()) && x in m.All()
    ensures var dropped := DblDropped(Directory(l), x);
            && (forall y :: y in m.All() ==> y == x || y in l.All())
            && (forall y :: y in m.All() ==> Some(y) != dropped)
            && (forall y :: y in l.All() && Some(y) != dropped ==> y in m.All())
            && (dropped.Some? ==> dropped.value in l.All() && dropped.value != x)
  {
    DblMembers(Directory(l), x);
    assert m.All() == Directory(m).once + Directory(m).often;
  }

  /** The ghost part of a move: only `x` leaves the ghost lists, and nothing enters T1. */
  lemma MoveGhosts<T>(l: Lists<T>, x: T)
    requires x in l.All() && NoDup(l.t1)
    ensures var m := ToT2(l, x);
            && x in m.t2
            && (forall y :: y in m.b1 + m.b2 ==> y in l.b1 + l.b2)
            && (forall y :: y in l.b1 + l.b2 && y != x ==> y in m.b1 + m.b2)
            && (forall y :: y in m.t1 ==> y in l.t1)
  {
    WithoutOthers(l.t1, x);
    WithoutOthers(l.b1, x);
    WithoutOthers(l.b2, x);
  }

  lemma DemoteGhosts<T>(l: Lists<T>, fromB2: bool)
    requires CanDemote(l, fromB2) && NoDup(l.t1) && forall y :: y in l.t2 ==> y !in l.t1
    ensures var m, v := Demote(l, fromB2), Victim(l, fromB2);
            && v in m.b1 + m.b2 && v in l.t1 + l.t2
            && (forall y :: y in m.b1 + m.b2 ==> y == v || y in l.b1 + l.b2)
            && (forall y :: y in m.t1 ==> y in l.t1 && y != v)
  {
    if l.t1 != [] { InitMembers(l.t1); }
  }

  lemma LiveListsApart<T>(l: Lists<T>)
    requires NoDup(l.All())
    ensures NoDup(l.t1) && NoDup(l.t2)
    ensures forall y :: y in l.t2 ==> y !in l.t1
    ensures forall y :: y in l.t1 ==> Locate(l, y) == T1
    ensures forall y :: y in l.t2 ==> Locate(l, y) == T2
  {
    NoDupConcat(l.t1, l.b1);
    NoDupConcat(l.t2, l.b2);
    NoDupConcat(l.L1(), l.L2());
    forall y | y in l.t2 ensures Locate(l, y) == T2 && y !in l.t1 {
      assert y in l.L2();
    }
  }

  lemma RequestMoves<T>(l: Lists<T>, x: T)
    requires l.Good() && x in l.All()
    ensures var m := Request(l, x).lists; m.t2 != [] && m.t2[0] == x
  {
  }

  /** Only `x` and the demoted element change sides between the live and the ghost lists. */
  lemma RequestGhosts<T>(l: Lists<T>, x: T)
    requires l.Good()
    ensures var o := Request(l, x); var m := o.lists;
            && x in m.t1 + m.t2
            && (o.demoted.Some? ==>
                  o.demoted.value in m.b1 + m.b2 && o.demoted.value in l.t1 + l.t2 && o.demoted.value != x)
            && (forall y :: y in m.b1 + m.b2 ==> Some(y) == o.demoted || y in l.b1 + l.b2)
            && (forall y :: y in m.t1 ==> (y == x && x !in l.All()) || (y in l.t1 && Some(y) != o.demoted))
  {
    NoDupAtMostOnce(l, x);
    LiveListsApart(l);
    match Locate(l, x)
    case T1 => MoveGhosts(l, x);
    case T2 => MoveGhosts(l, x);
    case B1 =>
      var m := l.(p := GrowTarget(l));
      DemoteGhosts(m, false);
      MoveGhosts(Demote(m, false), x);
    case B2 =>
      var m := l.(p := ShrinkTarget(l));
      DemoteGhosts(m, true);
      MoveGhosts(Demote(m, true), x);
    case Nowhere => AdmitGhosts(l, x);
  }

  lemma AdmitGhosts<T>(l: Lists<T>, x: T)
    requires l.Good() && x !in l.All()
    ensures var o := Admit(l, x); var m := o.lists;
            && x in m.t1
            && (o.demoted.Some? ==>
                  o.demoted.value in m.b1 + m.b2 && o.demoted.value in l.t1 + l.t2 && o.demoted.value != x)
            && (forall y :: y in m.b1 + m.b2 ==> Some(y) == o.demoted || y in l.b1 + l.b2)
            && (forall y :: y in m.t1 ==> y == x || (y in l.t1 && Some(y) != o.demoted))
  {
    LiveListsApart(l);
    var d := Directory(l);
    if |d.once| == l.c {
      if |l.t1| < l.c {
        DemoteGhosts(l.(b1 := Init(l.b1)), false);
      }
    } else if |d.once| + |d.often| >= l.c {
      if |d.once| + |d.often| == 2 * l.c {
        DemoteGhosts(l.(b2 := Init(l.b2)), false);
      } else {
        DemoteGhosts(l, false);
      }
    }
  }

  // ---- one operation ----

  /** After the request, and before a Set writes its item: coherent but for the item of `k`. */
  lemma TouchItems<K, V>(s: State<K, V>, k: K)
    requires s.Coherent()
    ensures var t := Touch(s, k);
            && t.lists.Good() && k in t.lists.t1 + t.lists.t2
            && (forall y :: y in t.items ==> y in t.lists.All() && y in s.items)
            && (forall y :: y in t.lists.All() && y != k ==> y in t.items)
            && (forall y :: y in t.lists.b1 + t.lists.b2 ==> y in t.items && y != k && t.items[y].ghosted)
            && (forall y :: y in t.lists.t1 && y != k ==> y in t.items && !t.items[y].ghosted)
            && (k in t.items <==> k in s.items)
            && (k in s.items ==> t.items[k] == s.items[k])
            && (k in s.items && k in t.lists.t1 ==> !t.items[k].ghosted)
            && (forall y :: y in t.items && !t.items[y].ghosted ==> t.items[y] == s.items[y])
            && (forall y :: y in t.items && t.items[y].ghosted ==> t.items[y].value == s.blank)
  {
    RequestMembers(s.lists, k);
    RequestGhosts(s.lists, k);
    var m := Request(s.lists, k).lists;
    NoDupAtMostOnce(m, k);
    forall y | y in m.b1 + m.b2 || y in m.t1 ensures y in m.All() {
      assert y in m.b1 || y in m.b2 || y in m.t1;
      assert y in m.L1() || y in m.L2();
    }
  }

  lemma SetKeepsCoherent<K, V>(s: State<K, V>, k: K, v: V, expiresNanos: int)
    requires s.Coherent()
    ensures Set(s, k, v, expiresNanos).Coherent()
    ensures k in Set(s, k, v, expiresNanos).items
    ensures Set(s, k, v, expiresNanos).items[k] == Item(v, false, expiresNanos / NANOS_PER_SECOND)
  {
    TouchItems(s, k);
  }

  lemma GetKeepsCoherent<K, V>(s: State<K, V>, k: K)
    requires s.Coherent()
    ensures Get(s, k).state.Coherent()
  {
    if k in s.items {
      TouchItems(s, k);
      var t := Touch(s, k);
      assert Get(s, k).state == t;
    }
  }

  // ---- whole runs ----

  datatype Op<K, V> = SetOp(key: K, value: V, expiresNanos: int) | GetOp(key: K) | ClearOp

  /** The cache, and beside it the clock of the requests since the last Clear. */
  datatype Run<K(==), V> = Run(state: State<K, V>, clock: Clock<K>)

  function Requests<K(==), V>(r: Run<K, V>, k: K): Clock<K> {
    r.clock.Tick(Directory(r.state.lists), k)
  }

  function Step<K(==), V>(r: Run<K, V>, op: Op<K, V>): Run<K, V>
    requires r.state.lists.Sized()
  {
    match op
    case SetOp(k, v, e) => Run(Set(r.state, k, v, e), Requests(r, k))
    case GetOp(k) => Run(Get(r.state, k).state, if k in r.state.items then Requests(r, k) else r.clock)
    case ClearOp => Run(Empty(r.state.lists.c, r.state.blank), Clock(r.clock.now, map[], map[]))
  }

  ghost predicate Sound<K, V>(r: Run<K, V>) {
    r.state.Coherent() && Recent(Directory(r.state.lists), r.clock)
  }

  lemma EmptySound<K, V>(c: int, blank: V)
    requires c >= 1
    ensures Sound(Run(Empty<K, V>(c, blank), Clock(0, map[], map[])))
    ensures forall t: Clock<K> :: Sound(Run(Empty<K, V>(c, blank), t))
  {
  }

  lemma RequestKeepsRecent<K, V>(r: Run<K, V>, k: K)
    requires Sound(r)
    ensures Recent(Directory(Touch(r.state, k).lists), Requests(r, k))
    ensures Touch(r.state, k).lists.c == r.state.lists.c
  {
    RequestRefinesDbl(r.state.lists, k);
    RequestKeepsRecency(Directory(r.state.lists), k, r.clock);
  }

  /** Size bounds, map agreement, recency order and request counts survive every operation. */
  lemma StepKeepsSound<K, V>(r: Run<K, V>, op: Op<K, V>)
    requires Sound(r)
    ensures Sound(Step(r, op)) && Step(r, op).state.lists.c == r.state.lists.c
  {
    match op
    case SetOp(k, v, e) => SetKeepsCoherent(r.state, k, v, e); RequestKeepsRecent(r, k);
    case GetOp(k) => GetKeepsCoherent(r.state, k); RequestKeepsRecent(r, k);
    case ClearOp =>
  }

  ghost function SoundStep<K, V>(r: Run<K, V>, op: Op<K, V>): (r': Run<K, V>)
    requires Sound(r)
    ensures Sound(r') && r'.state.lists.c == r.state.lists.c && r' == Step(r, op)
  {
    StepKeepsSound(r, op);
    Step(r, op)
  }

  ghost function From<K, V>(r: Run<K, V>, ops: seq<Op<K, V>>): (r': Run<K, V>)
    requires Sound(r)
    ensures Sound(r') && r'.state.lists.c == r.state.lists.c
  {
    if ops == [] then r else SoundStep(From(r, Init(ops)), Last(ops))
  }

  /** The cache after `ops`, from a new one. */
  ghost function After<K, V>(c: int, blank: V, ops: seq<Op<K, V>>): (r: Run<K, V>)
    requires c >= 1
    ensures Sound(r) && r.state.lists.c == c
  {
    EmptySound<K, V>(c, blank);
    From(Run(Empty(c, blank), Clock(0, map[], map[])), ops)
  }

  /** Every run keeps the joint bounds on the four lists and the target. */
  lemma RunBounds<K, V>(c: int, blank: V, ops: seq<Op<K, V>>)
    requires c >= 1
    ensures var l := After(c, blank, ops).state.lists;
            && 0 <= l.p <= c
            && |l.t1| + |l.t2| <= c && |l.t1| + |l.b1| <= c && |l.All()| <= 2 * c
            && (|l.t1| + |l.t2| < c ==> l.b1 == [] && l.b2 == [])
  {
    assert Sound(After(c, blank, ops));
  }

  /** The value and the expiry, rounded down to seconds, of the latest Set of `k` since the last Clear. */
  function LatestSet<K(==), V>(ops: seq<Op<K, V>>, k: K): Option<(V, int)> {
    if ops == [] then None else
    match Last(ops)
    case SetOp(key, v, e) =>
      if key == k then Some((v, e / NANOS_PER_SECOND * NANOS_PER_SECOND)) else LatestSet(Init(ops), k)
    case GetOp(_) => LatestSet(Init(ops), k)
    case ClearOp => None
  }

  /** A live item always holds what the latest Set of its key wrote. */
  lemma {:induction false} LiveItemsAreLatest<K, V>(c: int, blank: V, ops: seq<Op<K, V>>, k: K)
    requires c >= 1
    ensures var s := After(c, blank, ops).state;
            k in s.items && !s.items[k].ghosted
            ==> LatestSet(ops, k) == Some((s.items[k].value, s.items[k].expires * NANOS_PER_SECOND))
  {
    if ops != [] {
      LiveItemsAreLatest(c, blank, Init(ops), k);
      var r := After(c, blank, Init(ops));
      if !Last(ops).ClearOp? {
        TouchItems(r.state, Last(ops).key);
      }
    }
  }

  /** A hit, at any point of any run, returns the latest Set; a key never set since the last Clear misses. */
  lemma HitIsLatestSet<K, V>(c: int, blank: V, ops: seq<Op<K, V>>, k: K)
    requires c >= 1
    ensures var s := After(c, blank, ops).state;
            Get(s, k).hit.Some? ==> Get(s, k).hit == LatestSet(ops, k)
  {
    LiveItemsAreLatest(c, blank, ops, k);
    TouchItems(After(c, blank, ops).state, k);
  }

  /** Exactly when a lookup hits: the key sits in T1 or T2, and has not been demoted since its latest Set. */
  lemma HitExactlyWhenLive<K, V>(s: State<K, V>, k: K)
    requires s.Coherent()
    ensures Get(s, k).hit.Some? <==> k in s.lists.t1 + s.lists.t2 && !s.items[k].ghosted
  {
    TouchItems(s, k);
  }

  lemma GetOfLive<K, V>(s: State<K, V>, k: K)
    requires s.Coherent() && k in s.items && !s.items[k].ghosted
    ensures Get(s, k).hit == Some((s.items[k].value, s.items[k].expires * NANOS_PER_SECOND))
  {
    TouchItems(s, k);
  }

  /** A Set is visible at once: the next Get of the same key hits with the value just written. */
  lemma SetThenGet<K, V>(s: State<K, V>, k: K, v: V, expiresNanos: int)
    requires s.Coherent()
    ensures Get(Set(s, k, v, expiresNanos), k).hit == Some((v, expiresNanos / NANOS_PER_SECOND * NANOS_PER_SECOND))
  {
    SetKeepsCoherent(s, k, v, expiresNanos);
    GetOfLive(Set(s, k, v, expiresNanos), k);
  }

  lemma GetOfGhost<K, V>(s: State<K, V>, k: K)
    requires s.Coherent() && k in s.items && s.items[k].ghosted
    ensures Get(s, k).hit == None && Get(s, k).state == Touch(s, k)
    ensures k in Touch(s, k).items && Touch(s, k).items[k].ghosted
  {
    TouchItems(s, k);
  }

  /**
   A Get of a ghost misses, yet moves the ghost to the front of T2: it takes a live slot, and keeps
   missing there until it is set again.
   */
  lemma GetParksGhost<K, V>(s: State<K, V>, k: K)
    requires s.Coherent() && k in s.lists.b1 + s.lists.b2
    ensures var t := Get(s, k).state;
            && Get(s, k).hit == None && t.lists.t2 != [] && t.lists.t2[0] == k && t.items[k].ghosted
            && Get(t, k).hit == None
  {
    GetOfGhost(s, k);
    GetKeepsCoherent(s, k);
    NoDupAtMostOnce(s.lists, k);
    RequestMoves(s.lists, k);
    GetOfGhost(Get(s, k).state, k);
  }

  /** There is nothing to hit under `k`: no item, or a ghost's. */
  ghost predicate Silent<K, V>(s: State<K, V>, k: K) {
    k in s.items ==> s.items[k].ghosted
  }

  lemma StepKeepsSilent<K, V>(r: Run<K, V>, op: Op<K, V>, k: K)
    requires Sound(r) && Silent(r.state, k) && !(op.SetOp? && op.key == k)
    ensures Silent(Step(r, op).state, k)
  {
    if !op.ClearOp? { TouchItems(r.state, op.key); }
  }

  lemma SilentMisses<K, V>(s: State<K, V>, k: K)
    requires s.Coherent() && Silent(s, k)
    ensures Get(s, k).hit == None
  {
    if k in s.items { GetOfGhost(s, k); }
  }

  /** An absent or ghost key misses until it is set again, whatever else happens, Gets of it included. */
  lemma {:induction false} MissesUntilSet<K, V>(r: Run<K, V>, ops: seq<Op<K, V>>, k: K)
    requires Sound(r) && Silent(r.state, k)
    requires forall op :: op in ops ==> !(op.SetOp? && op.key == k)
    ensures Silent(From(r, ops).state, k) && Get(From(r, ops).state, k).hit == None
  {
    if ops != [] {
      assert Last(ops) in ops;
      MissesUntilSet(r, Init(ops), k);
      StepKeepsSilent(From(r, Init(ops)), Last(ops), k);
    }
    SilentMisses(From(r, ops).state, k);
  }

  // ---- what the directory never forgets ----

  lemma {:induction false} RunRemembers<K(!new), V>(c: int, blank: V, ops: seq<Op<K, V>>)
    requires c >= 1
    ensures var r := After(c, blank, ops); Remembers(Directory(r.state.lists), r.clock)
  {
    if ops != [] {
      RunRemembers(c, blank, Init(ops));
      StepRemembers(After(c, blank, Init(ops)), Last(ops));
    }
  }

  lemma StepRemembers<K(!new), V>(r: Run<K, V>, op: Op<K, V>)
    requires Sound(r) && Remembers(Directory(r.state.lists), r.clock)
    ensures Remembers(Directory(Step(r, op).state.lists), Step(r, op).clock)
  {
    if !op.ClearOp? {
      RequestRefinesDbl(r.state.lists, op.key);
      RequestKeepsRemembering(Directory(r.state.lists), op.key, r.clock);
    }
  }

  /**
   In every run: a key requested since the last Clear leaves the directory only after at least c other
   keys, all still in the directory, were requested after it.
   */
  lemma GoneIsOvertaken<K(!new), V>(c: int, blank: V, ops: seq<Op<K, V>>, k: K)
    requires c >= 1
    ensures var r := After(c, blank, ops);
            k in r.clock.last && k !in r.state.lists.All() ==>
              exists s: set<K> :: |s| >= c && NewerThan(Directory(r.state.lists), r.clock, k, s)
  {
    RunRemembers(c, blank, ops);
    var r := After(c, blank, ops);
    if k in r.clock.last && k !in r.state.lists.All() {
      assert Overtaken(Directory(r.state.lists), r.clock, k);
    }
  }

  /** So the c most recently requested keys are always in the directory: `newer` holds all requested after `k`. */
  lemma RecentKeysStay<K(!new), V>(c: int, blank: V, ops: seq<Op<K, V>>, k: K, newer: set<K>)
    requires c >= 1
    ensures var r := After(c, blank, ops);
            k in r.clock.last && |newer| < c
            && (forall y :: y in r.clock.last && r.clock.last[y] > r.clock.last[k] ==> y in newer)
            ==> k in r.state.lists.All()
  {
    GoneIsOvertaken(c, blank, ops, k);
    var r := After(c, blank, ops);
    if k in r.clock.last && (forall y :: y in r.clock.last && r.clock.last[y] > r.clock.last[k] ==> y in newer) {
      forall s: set<K> | NewerThan(Directory(r.state.lists), r.clock, k, s) ensures |s| <= |newer| {
        SubsetSize(s, newer);
      }
    }
  }

  /** In every run, what a request discards is the element of its half that was requested longest ago. */
  lemma RunDiscardsOldest<K, V>(c: int, blank: V, ops: seq<Op<K, V>>, k: K)
    requires c >= 1
    ensures var r := After(c, blank, ops);
            var o := Request(r.state.lists, k);
            o.dropped.Some? ==>
              var y := o.dropped.value;
              var half := if y in r.state.lists.L1() then r.state.lists.L1() else r.state.lists.L2();
              y in half && forall z :: z in half && z != y ==> r.clock.last[y] < r.clock.last[z]
  {
    var r := After(c, blank, ops);
    RequestRefinesDbl(r.state.lists, k);
    if DblDropped(Directory(r.state.lists), k).Some? {
      DroppedIsOldest(Directory(r.state.lists), k, r.clock);
    }
  }
}
