/**
 What one request does to each of the four lists, case by case, in terms of the lists and the target alone;
 and which key a request turns into a ghost, in every run.
 */
module ArcSteering {
  import opened Seqs
  import opened ArcModel
  import opened ArcDirectory
  import opened ArcRuns

  /** Demotion took the last element of T1, and `m.b1` has it in front of `b1`. */
  ghost predicate FromT1<T>(l: Lists<T>, m: Lists<T>, t1: seq<T>, t2: seq<T>, b1: seq<T>, b2: seq<T>) {
    l.t1 != [] && t1 == l.t1[..|l.t1| - 1] && t2 == l.t2 && m.b1 == [l.t1[|l.t1| - 1]] + b1 && m.b2 == b2
  }

  /** Demotion took the last element of T2, and `m.b2` has it in front of `b2`. */
  ghost predicate FromT2<T>(l: Lists<T>, m: Lists<T>, t1: seq<T>, t2: seq<T>, b1: seq<T>, b2: seq<T>) {
    l.t2 != [] && t1 == l.t1 && t2 == l.t2[..|l.t2| - 1] && m.b1 == b1 && m.b2 == [l.t2[|l.t2| - 1]] + b2
  }

  /** A live element is moved to the front of T2; ghosts and target stay. */
  lemma LiveRequest<T>(l: Lists<T>, x: T)
    requires l.Good() && (x in l.t1 || x in l.t2)
    ensures var o := Request(l, x); var m := o.lists;
            && m.t1 == Without(l.t1, x) && m.t2 == [x] + Without(l.t2, x)
            && m.b1 == l.b1 && m.b2 == l.b2 && m.p == l.p && m.c == l.c
            && o.demoted == None && o.dropped == None
  {
    NoDupAtMostOnce(l, x);
  }

  /**
   A ghost of B1 is asked for: the target grows by one, or by how many times B2 is as long as B1, up to the
   capacity. T1 loses its last element exactly when it is longer than the new target, and else T2 does.
   */
  lemma B1Request<T>(l: Lists<T>, x: T)
    requires l.Good() && x in l.b1
    ensures var o := Request(l, x); var m := o.lists;
            && m.p == (var step := if |l.b1| >= |l.b2| then 1 else |l.b2| / |l.b1|;
                       if l.p + step <= l.c then l.p + step else l.c)
            && m.t2 != [] && m.t2[0] == x && o.dropped == None && m.c == l.c
            && (|l.t1| > m.p ==>
                  FromT1(l, m, m.t1, m.t2[1..], Without(l.b1, x), l.b2) && o.demoted == Some(Last(l.t1)))
            && (|l.t1| <= m.p ==>
                  FromT2(l, m, m.t1, m.t2[1..], Without(l.b1, x), l.b2) && o.demoted == Some(Last(l.t2)))
  {
    NoDupAtMostOnce(l, x);
    LiveListsApart(l);
    if |l.t1| > GrowTarget(l) {
      GhostKeptOut(l, Last(l.t1), x, l.b1);
    }
  }

  /**
   A ghost of B2 is asked for: the target shrinks by one, or by how many times B1 is as long as B2, down to
   zero. T1 loses its last element exactly when it is at least as long as the new target, and not empty.
   */
  lemma B2Request<T>(l: Lists<T>, x: T)
    requires l.Good() && x in l.b2
    ensures var o := Request(l, x); var m := o.lists;
            && m.p == (var step := if |l.b2| >= |l.b1| then 1 else |l.b1| / |l.b2|;
                       if l.p - step >= 0 then l.p - step else 0)
            && m.t2 != [] && m.t2[0] == x && o.dropped == None && m.c == l.c
            && (l.t1 != [] && |l.t1| >= m.p ==>
                  FromT1(l, m, m.t1, m.t2[1..], l.b1, Without(l.b2, x)) && o.demoted == Some(Last(l.t1)))
            && (l.t1 == [] || |l.t1| < m.p ==>
                  FromT2(l, m, m.t1, m.t2[1..], l.b1, Without(l.b2, x)) && o.demoted == Some(Last(l.t2)))
  {
    NoDupAtMostOnce(l, x);
    LiveListsApart(l);
    if !(l.t1 != [] && |l.t1| >= ShrinkTarget(l)) {
      GhostKeptOut(l, Last(l.t2), x, l.b2);
    }
  }

  /** A live element in front of the ghosts is not the ghost asked for. */
  lemma GhostKeptOut<T>(l: Lists<T>, v: T, x: T, b: seq<T>)
    requires v != x
    ensures Without([v] + b, x) == [v] + Without(b, x)
  {
    assert ([v] + b)[1..] == b;
  }

  /** Nothing is known of the element. It goes to the front of T1, and the target stays. */
  lemma NewRequest<T>(l: Lists<T>, x: T)
    requires l.Good() && x !in l.All()
    ensures var m := Request(l, x).lists; m.t1 != [] && m.t1[0] == x && m.p == l.p && m.c == l.c
    ensures |l.t1| == l.c ==> T1Full(l, x)
    ensures |l.t1| < l.c && |l.t1| + |l.b1| == l.c ==> Demotes(l, x, l.b1[..|l.b1| - 1], l.b2, Some(Last(l.b1)))
    ensures |l.t1| + |l.b1| < l.c && |l.All()| == 2 * l.c ==> Demotes(l, x, l.b1, l.b2[..|l.b2| - 1], Some(Last(l.b2)))
    ensures |l.t1| + |l.b1| < l.c && l.c <= |l.All()| < 2 * l.c ==> Demotes(l, x, l.b1, l.b2, None)
    ensures |l.All()| < l.c ==>
              var o := Request(l, x); o.lists == l.(t1 := [x] + l.t1) && o.demoted == None && o.dropped == None
  {
    NoDupAtMostOnce(l, x);
    var m := Request(l, x).lists;
    assert m.t1[1..] == MakeRoom(l).lists.t1;
  }

  /** T1 fills the cache: its last element is dropped without becoming a ghost. */
  ghost predicate T1Full<T>(l: Lists<T>, x: T)
    requires l.Sized() && |l.t1| == l.c
  {
    var o := Request(l, x);
    && o.lists == l.(t1 := [x] + l.t1[..|l.t1| - 1])
    && o.demoted == None && o.dropped == Some(l.t1[|l.t1| - 1])
  }

  /** T1 loses its last element to the ghosts exactly when it is longer than the target, and else T2 does. */
  ghost predicate Demotes<T>(l: Lists<T>, x: T, b1: seq<T>, b2: seq<T>, dropped: Option<T>)
    requires l.Sized()
  {
    var o := Request(l, x);
    var m := o.lists;
    && m.t1 != [] && o.dropped == dropped
    && (|l.t1| > l.p ==> FromT1(l, m, m.t1[1..], m.t2, b1, b2) && o.demoted == Some(l.t1[|l.t1| - 1]))
    && (|l.t1| <= l.p ==> FromT2(l, m, m.t1[1..], m.t2, b1, b2) && o.demoted == Some(l.t2[|l.t2| - 1]))
  }

  // ---- over runs ----

  /** The target after a request. */
  function Target<T(==)>(l: Lists<T>, x: T): int {
    if x in l.b1 then
      var step := if |l.b1| >= |l.b2| then 1 else |l.b2| / |l.b1|;
      if l.p + step <= l.c then l.p + step else l.c
    else if x in l.b2 then
      var step := if |l.b2| >= |l.b1| then 1 else |l.b1| / |l.b2|;
      if l.p - step >= 0 then l.p - step else 0
    else l.p
  }

  /**
   Does a request turn a live element into a ghost? Any request of a ghost does, and one of a new element
   when the directory holds a capacity's worth, unless T1 alone fills the cache.
   */
  predicate Buries<T(==)>(l: Lists<T>, x: T) {
    x in l.b1 || x in l.b2 || (x !in l.All() && |l.All()| >= l.c && |l.t1| < l.c)
  }

  /** From T1? When it is longer than the target, or as long and a ghost of B2 is asked for. */
  predicate BuriesT1<T(==)>(l: Lists<T>, x: T) {
    l.t1 != [] && (|l.t1| > Target(l, x) || (x in l.b2 && |l.t1| == Target(l, x)))
  }

  /** The element a request turns into a ghost: the one of its list requested longest ago. */
  lemma RequestBuries<T>(l: Lists<T>, x: T)
    requires l.Good()
    ensures Request(l, x).lists.p == Target(l, x)
    ensures Buries(l, x) && BuriesT1(l, x) ==> Request(l, x).demoted == Some(l.t1[|l.t1| - 1])
    ensures Buries(l, x) && !BuriesT1(l, x) ==> l.t2 != [] && Request(l, x).demoted == Some(l.t2[|l.t2| - 1])
    ensures !Buries(l, x) ==> Request(l, x).demoted == None
  {
    NoDupAtMostOnce(l, x);
    if x in l.t1 || x in l.t2 { LiveRequest(l, x); }
    else if x in l.b1 { B1Request(l, x); }
    else if x in l.b2 { B2Request(l, x); }
    else { NewRequest(l, x); }
  }

  /** Of the items left in the map, the request buries that of the demoted key and touches no other. */
  lemma TouchBuries<K, V>(s: State<K, V>, k: K, y: K)
    requires s.lists.Sized() && y in Touch(s, k).items
    ensures var t, demoted := Touch(s, k), Request(s.lists, k).demoted;
            && y in s.items
            && (Some(y) == demoted ==> Buried(s.items[y], t.items[y], s.blank))
            && (Some(y) != demoted ==> t.items[y] == s.items[y])
  {
  }

  /** The same item as a ghost: blank, the expiry kept. */
  ghost predicate Buried<V>(before: Item<V>, after: Item<V>, blank: V) {
    after.ghosted && after.value == blank && after.expires == before.expires
  }

  /** The key a request turns into a ghost, if any. */
  function BuriedKey<K(==)>(l: Lists<K>, k: K): Option<K> {
    if !Buries(l, k) then None
    else if BuriesT1(l, k) then Some(l.t1[|l.t1| - 1])
    else if l.t2 == [] then None else Some(l.t2[|l.t2| - 1])
  }

  /** In every run, a request turns exactly that key into a ghost, and touches no other it leaves in the map. */
  lemma RunBuries<K, V>(c: int, blank: V, ops: seq<Op<K, V>>, k: K, y: K)
    requires c >= 1
    ensures var s := After(c, blank, ops).state;
            var t := Touch(s, k);
            y in t.items ==>
              && y in s.items
              && (Some(y) == BuriedKey(s.lists, k) ==> Buried(s.items[y], t.items[y], s.blank))
              && (Some(y) != BuriedKey(s.lists, k) ==> t.items[y] == s.items[y])
  {
    var s := After(c, blank, ops).state;
    RequestBuries(s.lists, k);
    if y in Touch(s, k).items { TouchBuries(s, k, y); }
  }
}
