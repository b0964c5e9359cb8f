/** The cache as the repository writes it: entries with a list pointer, four lists and a map, updated in place. */
module ArcCache {
  import opened Seqs
  import opened ArcModel
  import opened ArcRuns

  class Entry<K(==), V> {
    const key: K
    var value: V
    var ll: Where
    var ghosted: bool
    var expires: int

    constructor (key: K, value: V, expires: int)
      ensures this.key == key && this.value == value && this.expires == expires
      ensures ll == Nowhere && !ghosted
    {
      this.key, this.value, this.expires := key, value, expires;
      ll, ghosted := Nowhere, false;
    }
  }

  // ---- keys of entry lists ----

  function Keys<K(==), V>(q: seq<Entry<K, V>>): seq<K> {
    seq(|q|, i requires 0 <= i < |q| => q[i].key)
  }

  function KeyLists<K(==), V>(l: Lists<Entry<K, V>>): Lists<K> {
    Lists(l.c, l.p, Keys(l.t1), Keys(l.b1), Keys(l.t2), Keys(l.b2))
  }

  function KeyOf<K(==), V>(e: Option<Entry<K, V>>): Option<K> {
    if e.Some? then Some(e.value.key) else None
  }

  function KeyOutcome<K(==), V>(o: Outcome<Entry<K, V>>): Outcome<K> {
    Outcome(KeyLists(o.lists), KeyOf(o.demoted), KeyOf(o.dropped))
  }

  /** Among the entries of `q` no other one has `e`'s key. */
  ghost predicate OwnKey<K, V>(q: seq<Entry<K, V>>, e: Entry<K, V>) {
    forall x :: x in q && x.key == e.key ==> x == e
  }

  lemma {:induction false} KeysWithout<K, V>(q: seq<Entry<K, V>>, e: Entry<K, V>)
    requires OwnKey(q, e)
    ensures Keys(Without(q, e)) == Without(Keys(q), e.key)
    ensures e in q <==> e.key in Keys(q)
  {
    if q != [] {
      assert Keys(q) == [q[0].key] + Keys(q[1..]);
      assert q == [q[0]] + q[1..];
      if q[0] != e { KeysWithout(q[1..], e); }
    }
  }

  lemma KeysEnds<K, V>(q: seq<Entry<K, V>>)
    ensures q != [] ==> Keys(Init(q)) == Init(Keys(q)) && Last(q).key == Last(Keys(q))
  {
  }

  lemma KeysPush<K, V>(e: Entry<K, V>, q: seq<Entry<K, V>>)
    ensures Keys([e] + q) == [e.key] + Keys(q)
  {
  }

  lemma LocateKeys<K, V>(l: Lists<Entry<K, V>>, e: Entry<K, V>)
    requires OwnKey(l.All(), e)
    ensures Locate(KeyLists(l), e.key) == Locate(l, e)
    ensures OwnKey(l.t1, e) && OwnKey(l.b1, e) && OwnKey(l.t2, e) && OwnKey(l.b2, e)
  {
    forall x | x in l.t1 || x in l.b1 || x in l.t2 || x in l.b2 ensures x in l.All() {
      assert x in l.L1() || x in l.L2();
    }
    KeysWithout(l.t1, e);
    KeysWithout(l.b1, e);
    KeysWithout(l.t2, e);
    KeysWithout(l.b2, e);
  }

  lemma ToT2Keys<K, V>(l: Lists<Entry<K, V>>, e: Entry<K, V>)
    requires OwnKey(l.t1, e) && OwnKey(l.b1, e) && OwnKey(l.t2, e) && OwnKey(l.b2, e)
    ensures KeyLists(ToT2(l, e)) == ToT2(KeyLists(l), e.key)
  {
    KeysWithout(l.t1, e);
    KeysWithout(l.b1, e);
    KeysWithout(l.t2, e);
    KeysWithout(l.b2, e);
    KeysPush(e, if Locate(l, e) == T2 then Without(l.t2, e) else l.t2);
  }

  lemma DemoteKeys<K, V>(l: Lists<Entry<K, V>>, fromB2: bool)
    requires CanDemote(l, fromB2)
    ensures KeyLists(Demote(l, fromB2)) == Demote(KeyLists(l), fromB2)
    ensures Victim(l, fromB2).key == Victim(KeyLists(l), fromB2)
  {
    if DemotesT1(l, fromB2) {
      KeysEnds(l.t1);
      KeysPush(Last(l.t1), l.b1);
    } else {
      KeysEnds(l.t2);
      KeysPush(Last(l.t2), l.b2);
    }
  }

  /** A request on entries is the request on their keys. */
  lemma RequestKeys<K, V>(l: Lists<Entry<K, V>>, e: Entry<K, V>)
    requires l.Sized() && OwnKey(l.All(), e)
    ensures KeyOutcome(Request(l, e)) == Request(KeyLists(l), e.key)
  {
    LocateKeys(l, e);
    match Locate(l, e)
    case T1 => ToT2Keys(l, e);
    case T2 => ToT2Keys(l, e);
    case B1 => ReviveKeys(l, e, GrowTarget(l), false);
    case B2 => ReviveKeys(l, e, ShrinkTarget(l), true);
    case Nowhere => AdmitKeys(l, e);
  }

  lemma ReviveKeys<K, V>(l: Lists<Entry<K, V>>, e: Entry<K, V>, p: int, fromB2: bool)
    requires l.Sized() && OwnKey(l.All(), e) && 0 <= p <= l.c && CanDemote(l.(p := p), fromB2)
    requires Locate(l, e) == if fromB2 then B2 else B1
    ensures Locate(KeyLists(l), e.key) == Locate(l, e)
    ensures KeyOutcome(Revive(l, e, p, fromB2)) == Revive(KeyLists(l), e.key, p, fromB2)
  {
    LocateKeys(l, e);
    var m := l.(p := p);
    DemoteKeys(m, fromB2);
    if DemotesT1(m, fromB2) { assert Last(m.t1) in m.t1; } else { assert Last(m.t2) in m.t2; }
    ToT2Keys(Demote(m, fromB2), e);
  }

  lemma AdmitKeys<K, V>(l: Lists<Entry<K, V>>, e: Entry<K, V>)
    requires l.Sized() && Locate(l, e) == Nowhere && Locate(KeyLists(l), e.key) == Nowhere
    ensures KeyOutcome(Admit(l, e)) == Admit(KeyLists(l), e.key)
  {
    KeysEnds(l.t1);
    KeysEnds(l.b1);
    KeysEnds(l.b2);
    KeysPush(e, l.t1);
    if l.t1 != [] { KeysPush(e, Init(l.t1)); }
    if CanDemote(l, false) { DemoteKeys(l, false); }
    if l.b1 != [] && CanDemote(l.(b1 := Init(l.b1)), false) { DemoteKeys(l.(b1 := Init(l.b1)), false); }
    if l.b2 != [] && CanDemote(l.(b2 := Init(l.b2)), false) { DemoteKeys(l.(b2 := Init(l.b2)), false); }
  }

  // ---- the cache ----

  /** `e` taken out of list `from` and put at the front of list `to`. */
  function Moved<T(==)>(l: Lists<T>, e: T, from: Where, to: Where): Lists<T> {
    var m := match from
      case Nowhere => l
      case T1 => l.(t1 := Without(l.t1, e))
      case B1 => l.(b1 := Without(l.b1, e))
      case T2 => l.(t2 := Without(l.t2, e))
      case B2 => l.(b2 := Without(l.b2, e));
    match to
    case Nowhere => m
    case T1 => m.(t1 := [e] + m.t1)
    case B1 => m.(b1 := [e] + m.b1)
    case T2 => m.(t2 := [e] + m.t2)
    case B2 => m.(b2 := [e] + m.b2)
  }

  /** Where a request leaves each element: only `x` and the demoted one are relinked. */
  function Relinked<T(==)>(l: Lists<T>, x: T, y: T): Where
    requires l.Sized()
  {
    if y == x then (if Locate(l, x) == Nowhere then T1 else T2)
    else if Some(y) == Request(l, x).demoted then (if Locate(l, y) == T1 then B1 else B2)
    else Locate(l, y)
  }

  lemma LocateMoved<T>(l: Lists<T>, x: T, y: T, from: Where, to: Where)
    ensures y != x ==> Locate(Moved(l, x, from, to), y) == Locate(l, y)
  {
    WithoutOthers(l.t1, x);
    WithoutOthers(l.b1, x);
    WithoutOthers(l.t2, x);
    WithoutOthers(l.b2, x);
  }

  lemma LocateDemoted<T>(l: Lists<T>, fromB2: bool, y: T)
    requires CanDemote(l, fromB2)
    ensures var m, v := Demote(l, fromB2), Victim(l, fromB2);
            if y == v then (DemotesT1(l, fromB2) ==> v in m.b1) && (!DemotesT1(l, fromB2) ==> v in m.b2)
            else Locate(m, y) == Locate(l, y)
  {
    if l.t1 != [] { assert l.t1 == Init(l.t1) + [Last(l.t1)]; }
    if l.t2 != [] { assert l.t2 == Init(l.t2) + [Last(l.t2)]; }
  }

  /** Where an element hangs is decided by any list it is in. */
  lemma LocateIn<T>(l: Lists<T>, y: T)
    requires AtMostOnce(l, y)
    ensures y in l.t1 ==> Locate(l, y) == T1
    ensures y in l.b1 ==> Locate(l, y) == B1
    ensures y in l.t2 ==> Locate(l, y) == T2
    ensures y in l.b2 ==> Locate(l, y) == B2
  {
  }

  lemma RequestLocates<T>(l: Lists<T>, x: T, y: T)
    requires l.Good() && y in Request(l, x).lists.All()
    ensures Locate(Request(l, x).lists, y) == Relinked(l, x, y)
  {
    RequestMembers(l, x);
    LiveListsApart(l);
    NoDupAtMostOnce(Request(l, x).lists, y);
    match Locate(l, x)
    case T1 => LocateMoved(l, x, y, T1, T2);
    case T2 => LocateMoved(l, x, y, T2, T2);
    case B1 => ReviveLocates(l, x, GrowTarget(l), false, y);
    case B2 => ReviveLocates(l, x, ShrinkTarget(l), true, y);
    case Nowhere => AdmitLocates(l, x, y);
  }

  lemma ReviveLocates<T>(l: Lists<T>, x: T, p: int, fromB2: bool, y: T)
    requires l.Sized() && 0 <= p <= l.c && CanDemote(l.(p := p), fromB2)
    requires Locate(l, x) == if fromB2 then B2 else B1
    requires forall z :: z in l.t1 ==> Locate(l, z) == T1
    requires forall z :: z in l.t2 ==> Locate(l, z) == T2
    requires AtMostOnce(Revive(l, x, p, fromB2).lists, y)
    ensures var o := Revive(l, x, p, fromB2);
            Locate(o.lists, y) == if y == x then T2
              else if Some(y) == o.demoted then (if Locate(l, y) == T1 then B1 else B2) else Locate(l, y)
  {
    var m := l.(p := p);
    var v := Victim(m, fromB2);
    LocateDemoted(m, fromB2, x);
    LocateDemoted(m, fromB2, y);
    LocateMoved(Demote(m, fromB2), x, y, Locate(l, x), T2);
    if y == v {
      WithoutOthers(Demote(m, fromB2).b1, x);
      WithoutOthers(Demote(m, fromB2).b2, x);
      LocateIn(Revive(l, x, p, fromB2).lists, y);
    }
  }

  lemma LocateDropped<T>(l: Lists<T>, y: T)
    ensures l.t1 != [] && y != Last(l.t1) ==> Locate(l.(t1 := Init(l.t1)), y) == Locate(l, y)
    ensures l.b1 != [] && y != Last(l.b1) ==> Locate(l.(b1 := Init(l.b1)), y) == Locate(l, y)
    ensures l.b2 != [] && y != Last(l.b2) ==> Locate(l.(b2 := Init(l.b2)), y) == Locate(l, y)
  {
    if l.t1 != [] { assert l.t1 == Init(l.t1) + [Last(l.t1)]; }
    if l.b1 != [] { assert l.b1 == Init(l.b1) + [Last(l.b1)]; }
    if l.b2 != [] { assert l.b2 == Init(l.b2) + [Last(l.b2)]; }
  }

  /** `d`: the lists with room made, from which the demotion of a Case IV request starts. */
  lemma AdmitDemoted<T>(l: Lists<T>, d: Lists<T>, x: T, y: T)
    requires CanDemote(d, false) && y != x && l.t1 == d.t1 && l.t2 == d.t2
    requires Locate(d, y) == Locate(l, y)
    requires forall z :: z in l.t1 ==> Locate(l, z) == T1
    requires forall z :: z in l.t2 ==> Locate(l, z) == T2
    requires AtMostOnce(Demote(d, false).(t1 := [x] + Demote(d, false).t1), y)
    ensures Locate(Demote(d, false).(t1 := [x] + Demote(d, false).t1), y)
      == if y == Victim(d, false) then (if Locate(l, y) == T1 then B1 else B2) else Locate(l, y)
  {
    LocateDemoted(d, false, y);
    LocateIn(Demote(d, false).(t1 := [x] + Demote(d, false).t1), y);
  }

  lemma AdmitLocates<T>(l: Lists<T>, x: T, y: T)
    requires l.Sized() && Locate(l, x) == Nowhere
    requires forall z :: z in l.t1 ==> Locate(l, z) == T1
    requires forall z :: z in l.t2 ==> Locate(l, z) == T2
    requires AtMostOnce(Admit(l, x).lists, y) && Some(y) != Admit(l, x).dropped
    ensures var o := Admit(l, x);
            Locate(o.lists, y) == if y == x then T1
              else if Some(y) == o.demoted then (if Locate(l, y) == T1 then B1 else B2) else Locate(l, y)
  {
    LocateDropped(l, y);
    if y != x {
      if |l.t1| + |l.b1| == l.c {
        if |l.t1| < l.c { AdmitDemoted(l, l.(b1 := Init(l.b1)), x, y); }
      } else if |l.t1| + |l.t2| + |l.b1| + |l.b2| >= l.c {
        if |l.t1| + |l.t2| + |l.b1| + |l.b2| == 2 * l.c { AdmitDemoted(l, l.(b2 := Init(l.b2)), x, y); }
        else { AdmitDemoted(l, l, x, y); }
      }
    }
  }

  lemma WithoutLast<T>(q: seq<T>)
    requires q != [] && NoDup(q)
    ensures Without(q, Last(q)) == Init(q)
  {
    WithoutAt(q, |q| - 1);
  }

  /** A request neither demotes nor drops the key asked for, so its item may be written before or after. */
  lemma TouchRewritten<K, V>(s: State<K, V>, k: K, item: Item<V>)
    requires s.lists.Sized() && Request(s.lists, k).demoted != Some(k) && Request(s.lists, k).dropped != Some(k)
    ensures var t := Touch(s, k);
            Touch(s.(items := s.items[k := item]), k) == t.(items := t.items[k := item])
  {
    var o := Request(s.lists, k);
    var rewritten := Forget(s.items[k := item], o.dropped);
    assert rewritten == Forget(s.items, o.dropped)[k := item];
    assert Bury(rewritten, o.demoted, s.blank) == Bury(Forget(s.items, o.dropped), o.demoted, s.blank)[k := item];
  }

  function BuriedItem<K(==), V>(items: map<K, Item<V>>, k: K, demoted: Option<K>, blank: V): Item<V>
    requires k in items
  {
    if Some(k) == demoted then items[k].(value := blank, ghosted := true) else items[k]
  }

  lemma BuryForget<K, V>(before: map<K, Item<V>>, after: map<K, Item<V>>, dropped: Option<K>, demoted: Option<K>,
                         blank: V)
    requires after.Keys == before.Keys - (if dropped.Some? then {dropped.value} else {})
    requires forall k :: k in after ==> after[k] == BuriedItem(before, k, demoted, blank)
    ensures after == Bury(Forget(before, dropped), demoted, blank)
  {
  }

  class ARC<K(==), V> {
    const blank: V
    const c: int
    var p: int
    var t1: seq<Entry<K, V>>
    var b1: seq<Entry<K, V>>
    var t2: seq<Entry<K, V>>
    var b2: seq<Entry<K, V>>
    var cache: map<K, Entry<K, V>>

    ghost function Chains(): Lists<Entry<K, V>>
      reads this
    {
      Lists(c, p, t1, b1, t2, b2)
    }

    ghost function Entries(): set<Entry<K, V>>
      reads this
    {
      set e | e in t1 + b1 + (t2 + b2)
    }

    /** Every listed entry points back at its list, and the map finds it under its key. */
    ghost predicate Wired()
      reads this, Entries()
    {
      && Chains().Good()
      && (forall e :: e in Entries() ==> e.ll == Locate(Chains(), e))
      && (forall e :: e in Entries() ==> e.key in cache && cache[e.key] == e)
    }

    ghost predicate Valid()
      reads this, Entries()
    {
      Wired() && forall k :: k in cache ==> cache[k].key == k && cache[k] in Entries()
    }

    ghost function Items(): map<K, Item<V>>
      reads this, cache.Values
    {
      map k | k in cache :: Item(cache[k].value, cache[k].ghosted, cache[k].expires)
    }

    /** The cache as a value of the state machine. */
    ghost function Abs(): State<K, V>
      reads this, cache.Values
    {
      State(blank, KeyLists(Chains()), Items())
    }

    constructor (capacity: int, blank: V)
      requires capacity >= 1
      ensures Valid() && Abs() == Empty(capacity, blank)
    {
      this.blank, c, p := blank, capacity, 0;
      t1, b1, t2, b2 := [], [], [], [];
      cache := map[];
    }

    method Clear()
      modifies this
      requires c >= 1
      ensures Valid() && Abs() == Empty(c, blank)
    {
      p := 0;
      t1, b1, t2, b2 := [], [], [], [];
      cache := map[];
    }

    method Detach(e: Entry<K, V>)
      modifies this
      ensures e.ll == Nowhere ==> Chains() == old(Chains())
      ensures e.ll == T1 ==> Chains() == old(Chains()).(t1 := Without(old(t1), e))
      ensures e.ll == B1 ==> Chains() == old(Chains()).(b1 := Without(old(b1), e))
      ensures e.ll == T2 ==> Chains() == old(Chains()).(t2 := Without(old(t2), e))
      ensures e.ll == B2 ==> Chains() == old(Chains()).(b2 := Without(old(b2), e))
      ensures cache == old(cache)
    {
      match e.ll
      case Nowhere =>
      case T1 => t1 := Without(t1, e);
      case B1 => b1 := Without(b1, e);
      case T2 => t2 := Without(t2, e);
      case B2 => b2 := Without(b2, e);
    }

    method SetMRU(e: Entry<K, V>, list: Where)
      requires list != Nowhere
      modifies this, e`ll
      ensures e.ll == list && cache == old(cache)
      ensures Chains() == Moved(old(Chains()), e, old(e.ll), list)
    {
      Detach(e);
      e.ll := list;
      match list
      case T1 => t1 := [e] + t1;
      case B1 => b1 := [e] + b1;
      case T2 => t2 := [e] + t2;
      case B2 => b2 := [e] + b2;
    }

    /** What demotion relies on: entries of T1 and T2 point at their list, and are there once. */
    ghost predicate LivePointers()
      reads this, t1, t2
    {
      && NoDup(t1) && NoDup(t2)
      && (forall e :: e in t1 ==> e.ll == T1)
      && (forall e :: e in t2 ==> e.ll == T2)
    }

    /** `replace`: turn the oldest element of T1 or T2 into a ghost. */
    method Replace(ent: Entry<K, V>)
      requires CanDemote(Chains(), ent.ll == B2) && LivePointers()
      modifies this, Victim(Chains(), ent.ll == B2)
      ensures Chains() == old(Demote(Chains(), ent.ll == B2)) && cache == old(cache)
      ensures var v := old(Victim(Chains(), ent.ll == B2));
              && v.value == blank && v.ghosted && v.expires == old(v.expires)
              && v.ll == if old(v.ll) == T1 then B1 else B2
    {
      if |t1| > 0 && (|t1| > p || (ent.ll == B2 && |t1| == p)) {
        var lru := Last(t1);
        lru.value := blank;
        lru.ghosted := true;
        WithoutLast(t1);
        SetMRU(lru, B1);
      } else {
        var lru := Last(t2);
        lru.value := blank;
        lru.ghosted := true;
        WithoutLast(t2);
        SetMRU(lru, B2);
      }
    }

    /** `delLRU` on T1, B1 or B2. */
    method DelLRU(list: Where)
      requires list == T1 || list == B1 || list == B2
      requires list == T1 ==> t1 != []
      requires list == B1 ==> b1 != []
      requires list == B2 ==> b2 != []
      modifies this
      ensures list == T1 ==>
                Chains() == old(Chains()).(t1 := Init(old(t1))) && cache == old(cache) - {Last(old(t1)).key}
      ensures list == B1 ==>
                Chains() == old(Chains()).(b1 := Init(old(b1))) && cache == old(cache) - {Last(old(b1)).key}
      ensures list == B2 ==>
                Chains() == old(Chains()).(b2 := Init(old(b2))) && cache == old(cache) - {Last(old(b2)).key}
    {
      var lru;
      match list {
        case T1 => lru := Last(t1); t1 := Init(t1);
        case B1 => lru := Last(b1); b1 := Init(b1);
        case B2 => lru := Last(b2); b2 := Init(b2);
      }
      cache := cache - {lru.key};
    }

    /** What a request leaves behind, entry by entry of `all`. */
    twostate predicate Requested(all: set<Entry<K, V>>, ent: Entry<K, V>, o: Outcome<Entry<K, V>>)
      reads this, all
    {
      && Chains() == o.lists
      && cache == (if o.dropped.Some? then old(cache) - {o.dropped.value.key} else old(cache))
      && forall x :: x in all ==>
           && x.ll == (if x == ent then (if old(ent.ll) == Nowhere then T1 else T2)
                       else if Some(x) == o.demoted then (if old(x.ll) == T1 then B1 else B2) else old(x.ll))
           && x.expires == old(x.expires)
           && x.value == (if Some(x) == o.demoted then blank else old(x.value))
           && x.ghosted == (Some(x) == o.demoted || old(x.ghosted))
    }

    /** The adaptation of Cases II and III. */
    method Adapt(ent: Entry<K, V>)
      requires Chains().Sized() && (ent.ll == B1 || ent.ll == B2) && ent.ll == Locate(Chains(), ent)
      modifies this`p
      ensures 0 <= p <= c && CanDemote(Chains(), ent.ll == B2)
      ensures Request(old(Chains()), ent) == Revive(old(Chains()), ent, p, ent.ll == B2)
    {
      if ent.ll == B1 {
        var d := if |b1| >= |b2| then 1 else |b2| / |b1|;
        p := Min(p + d, c);
        assert p == GrowTarget(old(Chains()));
      } else {
        var d := if |b2| >= |b1| then 1 else |b1| / |b2|;
        p := Max(p - d, 0);
        assert p == ShrinkTarget(old(Chains()));
      }
    }

    /** Cases II and III of `req`, after the adaptation. */
    method SwapIn(ent: Entry<K, V>)
      requires LivePointers() && ent.ll == Locate(Chains(), ent) && (ent.ll == B1 || ent.ll == B2)
      requires CanDemote(Chains(), ent.ll == B2)
      modifies this, Entries()
      ensures cache == old(cache) && ent.ll == T2
      ensures ent.value == old(ent.value) && ent.ghosted == old(ent.ghosted) && ent.expires == old(ent.expires)
      ensures var l, fromB2 := old(Chains()), old(ent.ll) == B2;
              var v := Victim(l, fromB2);
              && Chains() == ToT2(Demote(l, fromB2), ent) && v != ent
              && v.value == blank && v.ghosted && v.expires == old(v.expires)
              && v.ll == (if old(v.ll) == T1 then B1 else B2)
              && forall x :: x in old(Entries()) && x != v && x != ent ==> unchanged(x)
    {
      LocateDemoted(Chains(), ent.ll == B2, ent);
      Replace(ent);
      SetMRU(ent, T2);
    }

    /** Cases II and III of `req`: a ghost is asked for. */
    method ReqGhost(ent: Entry<K, V>)
      requires Chains().Sized() && LivePointers() && ent.ll == Locate(Chains(), ent) && (ent.ll == B1 || ent.ll == B2)
      modifies this, Entries()
      ensures Requested(old(Entries()), ent, Request(old(Chains()), ent))
    {
      Adapt(ent);
      SwapIn(ent);
    }

    /** Case IV of `req`, before the new entry is listed. */
    method Evict(ent: Entry<K, V>)
      requires Chains().Sized() && LivePointers() && ent.ll == Nowhere
      modifies this, Entries()
      ensures var o := MakeRoom(old(Chains()));
              && Chains() == o.lists
              && cache == (if o.dropped.Some? then old(cache) - {o.dropped.value.key} else old(cache))
              && (o.demoted.Some? ==>
                    && o.demoted.value.value == blank && o.demoted.value.ghosted
                    && o.demoted.value.ll == (if old(o.demoted.value.ll) == T1 then B1 else B2)
                    && o.demoted.value.expires == old(o.demoted.value.expires))
              && forall x :: x in old(Entries()) && Some(x) != o.demoted ==> unchanged(x)
    {
      if |t1| + |b1| == c {
        if |t1| < c {
          DelLRU(B1);
          Replace(ent);
        } else {
          DelLRU(T1);
        }
      } else if |t1| + |b1| < c && |t1| + |t2| + |b1| + |b2| >= c {
        if |t1| + |t2| + |b1| + |b2| == 2 * c {
          DelLRU(B2);
        }
        Replace(ent);
      }
    }

    /** Case IV of `req`. */
    method ReqNew(ent: Entry<K, V>)
      requires Chains().Sized() && LivePointers() && ent.ll == Nowhere == Locate(Chains(), ent)
      modifies this, Entries(), ent
      ensures Requested(old(Entries()) + {ent}, ent, Request(old(Chains()), ent))
    {
      Evict(ent);
      SetMRU(ent, T1);
    }

    /** `req`: the request switch. `ent` may be new: then it is in no list yet. */
    method Req(ent: Entry<K, V>)
      requires Chains().Good()
      requires forall e :: e in Entries() ==> e.ll == Locate(Chains(), e)
      requires ent.ll == Locate(Chains(), ent)
      modifies this, Entries(), ent
      ensures Requested(old(Entries()) + {ent}, ent, Request(old(Chains()), ent))
    {
      LiveListsApart(Chains());
      if ent.ll == T1 || ent.ll == T2 {
        SetMRU(ent, T2);
      } else if ent.ll == B1 || ent.ll == B2 {
        assert Entries() + {ent} == Entries();
        ReqGhost(ent);
      } else {
        ReqNew(ent);
      }
    }

    twostate lemma RequestRewires(ent: Entry<K, V>)
      requires old(Chains().Good())
      requires forall e :: e in old(Entries()) + {ent} ==> old(e.ll) == Locate(old(Chains()), e)
      requires Requested(old(Entries()) + {ent}, ent, Request(old(Chains()), ent))
      ensures Chains().Good() && Entries() <= old(Entries()) + {ent} && ent in Entries()
      ensures forall e :: e in Entries() ==> e.ll == Locate(Chains(), e)
    {
      var l := old(Chains());
      RequestMembers(l, ent);
      forall e | e in Entries() ensures e in old(Entries()) + {ent} && e.ll == Locate(Chains(), e) {
        assert e in Chains().All();
        RequestLocates(l, ent, e);
      }
    }

    twostate lemma RequestRemaps(ent: Entry<K, V>)
      requires old(Valid()) && old(ent in Entries() || (ent.key !in cache && ent.ll == Nowhere))
      requires Requested(old(Entries()) + {ent}, ent, Request(old(Chains()), ent))
      ensures forall k :: k in cache ==>
                k in old(cache) && cache[k] == old(cache)[k] && cache[k].key == k && cache[k] in Entries()
      ensures forall e :: e in Entries() && e != ent ==> e.key in cache && cache[e.key] == e
      ensures old(ent in Entries()) ==> ent.key in cache && cache[ent.key] == ent
      ensures var d := Request(old(Chains()), ent).demoted;
              d.Some? ==> d.value.key in old(cache) && old(cache)[d.value.key] == d.value
    {
      RequestMembers(old(Chains()), ent);
      RequestGhosts(old(Chains()), ent);
      var o := Request(old(Chains()), ent);
      forall e | e in old(Entries()) && Some(e) != o.dropped
        ensures e.key in cache && cache[e.key] == e && e in Entries()
      {
        assert e in old(Chains()).All();
        if o.dropped.Some? {
          assert o.dropped.value in old(Chains()).All();
          assert o.dropped.value in old(Entries());
        }
      }
      forall e | e in Entries() && e != ent ensures e in old(Entries()) && Some(e) != o.dropped {
        assert e in Chains().All();
      }
    }

    twostate lemma RequestItems(ent: Entry<K, V>)
      requires old(Chains().Sized())
      requires var o := Request(old(Chains()), ent); Requested(old(Entries()) + {ent}, ent, o)
      requires forall k :: k in old(cache) ==> old(cache)[k].key == k && old(cache)[k] in old(Entries())
      requires var d := Request(old(Chains()), ent).demoted;
               d.Some? ==> d.value.key in old(cache) && old(cache)[d.value.key] == d.value
      ensures var o := Request(old(Chains()), ent);
              Items() == Bury(Forget(old(Items()), KeyOf(o.dropped)), KeyOf(o.demoted), blank)
    {
      var o := Request(old(Chains()), ent);
      forall k | k in cache
        ensures k in old(cache) && Items()[k] == BuriedItem(old(Items()), k, KeyOf(o.demoted), blank)
      {
        assert cache[k] in old(Entries());
        assert Some(cache[k]) == o.demoted <==> Some(k) == KeyOf(o.demoted);
      }
      BuryForget(old(Items()), Items(), KeyOf(o.dropped), KeyOf(o.demoted), blank);
    }

    /** Keys tell entries apart, so entry-level requests are key-level requests. */
    lemma Bridge(ent: Entry<K, V>)
      requires Valid() && (ent in Entries() || ent.key !in cache)
      ensures KeyOutcome(Request(Chains(), ent)) == Request(KeyLists(Chains()), ent.key)
    {
      assert OwnKey(Chains().All(), ent) by {
        forall x | x in Chains().All() && x.key == ent.key ensures x == ent {
          assert x in Entries();
        }
      }
      RequestKeys(Chains(), ent);
    }

    lemma BridgeApart(ent: Entry<K, V>)
      requires Valid() && (ent in Entries() || ent.key !in cache)
      ensures var o := Request(KeyLists(Chains()), ent.key); o.demoted != Some(ent.key) && o.dropped != Some(ent.key)
    {
      Bridge(ent);
      RequestMembers(Chains(), ent);
      RequestGhosts(Chains(), ent);
      var o := Request(Chains(), ent);
      if o.demoted.Some? { assert o.demoted.value in Entries(); }
      if o.dropped.Some? { assert o.dropped.value in Entries(); }
    }

    /** The whole effect of a request, seen through the abstraction. */
    twostate lemma RequestAbs(ent: Entry<K, V>)
      requires old(Valid()) && old(ent in Entries() || (ent.key !in cache && ent.ll == Nowhere))
      requires Requested(old(Entries()) + {ent}, ent, Request(old(Chains()), ent))
      ensures Abs() == Touch(old(Abs()), ent.key)
    {
      RequestRemaps(ent);
      RequestItems(ent);
      assert KeyOutcome(Request(old(Chains()), ent)) == Request(KeyLists(old(Chains())), ent.key) by {
        assert OwnKey(old(Chains()).All(), ent) by {
          forall x | x in old(Chains()).All() && x.key == ent.key ensures x == ent {
            assert x in old(Entries());
          }
        }
        RequestKeys(old(Chains()), ent);
      }
    }

    /** The entry asked for is neither demoted nor dropped. */
    twostate lemma RequestSpares(ent: Entry<K, V>)
      requires old(Valid()) && old(ent in Entries() || (ent.key !in cache && ent.ll == Nowhere))
      requires Requested(old(Entries()) + {ent}, ent, Request(old(Chains()), ent))
      ensures ent.key in cache <==> ent.key in old(cache)
      ensures ent.key in cache ==> cache[ent.key] == ent
      ensures ent.value == old(ent.value) && ent.ghosted == old(ent.ghosted) && ent.expires == old(ent.expires)
    {
      RequestGhosts(old(Chains()), ent);
      RequestRemaps(ent);
    }

    /** `Valid`, except that the map need not know `ent` yet. */
    ghost predicate ValidBut(ent: Entry<K, V>)
      reads this, Entries(), cache.Values
    {
      && Chains().Good() && ent in Entries()
      && (forall e :: e in Entries() ==> e.ll == Locate(Chains(), e))
      && (forall e :: e in Entries() && e != ent ==> e.key in cache && cache[e.key] == e)
      && (forall k :: k in cache ==> cache[k].key == k && cache[k] in Entries())
    }

    twostate lemma RequestStaysWired(ent: Entry<K, V>)
      requires old(Valid()) && old(ent in Entries() || (ent.key !in cache && ent.ll == Nowhere))
      requires Requested(old(Entries()) + {ent}, ent, Request(old(Chains()), ent))
      ensures ValidBut(ent) && Entries() <= old(Entries()) + {ent}
    {
      RequestRewires(ent);
      RequestRemaps(ent);
    }

    /** `req` seen through keys and items. */
    method ReqKeyed(ent: Entry<K, V>)
      requires Valid() && (ent in Entries() || (ent.key !in cache && ent.ll == Nowhere))
      modifies this, Entries(), ent
      ensures ValidBut(ent) && Entries() <= old(Entries()) + {ent}
      ensures ent.key in cache <==> ent.key in old(cache)
      ensures ent.key in cache ==> cache[ent.key] == ent
      ensures ent.value == old(ent.value) && ent.ghosted == old(ent.ghosted) && ent.expires == old(ent.expires)
      ensures Abs() == Touch(old(Abs()), ent.key)
    {
      Req(ent);
      RequestStaysWired(ent);
      RequestAbs(ent);
      RequestSpares(ent);
    }

    /** `a.cache[key] = ent` for an entry that was just listed. */
    method Record(ent: Entry<K, V>)
      requires ValidBut(ent) && ent.key !in cache
      modifies this`cache
      ensures Valid() && Entries() == old(Entries())
      ensures Abs() == old(Abs()).(items := old(Items())[ent.key := Item(ent.value, ent.ghosted, ent.expires)])
    {
      cache := cache[ent.key := ent];
      assert Items() == old(Items())[ent.key := Item(ent.value, ent.ghosted, ent.expires)];
    }

    /** `setWithExpire` for a key the map does not know. */
    method SetNew(ent: Entry<K, V>)
      requires Valid() && ent.key !in cache && ent.ll == Nowhere
      modifies this, Entries(), ent
      ensures Valid() && Entries() <= old(Entries()) + {ent}
      ensures var t := Touch(old(Abs()), ent.key);
              Abs() == t.(items := t.items[ent.key := Item(old(ent.value), old(ent.ghosted), old(ent.expires))])
    {
      ReqKeyed(ent);
      Record(ent);
    }

    /** `setWithExpire` for an entry that is there already, live or ghost. */
    method SetKnown(ent: Entry<K, V>, value: V, seconds: int)
      requires Valid() && ent in Entries()
      modifies this, Entries()
      ensures Valid() && Entries() <= old(Entries())
      ensures Abs() == Touch(old(Abs()).(items := old(Items())[ent.key := Item(value, false, seconds)]), ent.key)
    {
      ent.value := value;
      ent.ghosted := false;
      ent.expires := seconds;
      assert Items() == old(Items())[ent.key := Item(value, false, seconds)];
      ReqKeyed(ent);
    }

    /** `setWithExpire`: the new state is exactly the state machine's. */
    method SetWithExpire(key: K, value: V, expiresNanos: int)
      requires Valid()
      modifies this, Entries()
      ensures Valid() && fresh(Entries() - old(Entries()))
      ensures Abs() == Set(old(Abs()), key, value, expiresNanos)
    {
      var seconds := expiresNanos / NANOS_PER_SECOND;
      if key !in cache {
        var ent := new Entry(key, value, seconds);
        SetNew(ent);
      } else {
        ghost var s := Abs();
        BridgeApart(cache[key]);
        SetKnown(cache[key], value, seconds);
        TouchRewritten(s, key, Item(value, false, seconds));
      }
    }

    method GetWithExpire(key: K) returns (hit: Option<(V, int)>)
      requires Valid()
      modifies this, Entries()
      ensures Valid() && Entries() <= old(Entries())
      ensures Lookup(Abs(), hit) == Get(old(Abs()), key)
    {
      if key !in cache {
        return None;
      }
      var ent := cache[key];
      ReqKeyed(ent);
      hit := if ent.ghosted then None else Some((ent.value, ent.expires * NANOS_PER_SECOND));
    }
  }
}
