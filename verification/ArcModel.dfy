/**
 The Adaptive Replacement Cache of core/Clash.Meta/common/arc as a state machine on values:
 four lists (front first), the adaptive target `p`, and one item per key of the map.
 */
module ArcModel {
  import opened Seqs

  /** Which list an entry hangs in: the entry's `ll` pointer. */
  datatype Where = Nowhere | T1 | B1 | T2 | B2

  datatype Lists<T> = Lists(c: int, p: int, t1: seq<T>, b1: seq<T>, t2: seq<T>, b2: seq<T>) {
    /** Everything requested once since it entered the directory, newest first. */
    function L1(): seq<T> { t1 + b1 }

    /** Everything requested at least twice, newest first. */
    function L2(): seq<T> { t2 + b2 }

    function All(): seq<T> { L1() + L2() }

    predicate Sized() {
      && 1 <= c && 0 <= p <= c
      && |t1| + |t2| <= c
      && |t1| + |b1| <= c
      && |t1| + |b1| + |t2| + |b2| <= 2 * c
      && (|t1| + |t2| < c ==> b1 == [] && b2 == [])
    }

    ghost predicate Good() { Sized() && NoDup(All()) }
  }

  function Locate<T(==)>(l: Lists<T>, x: T): Where {
    if x in l.t1 then T1 else if x in l.b1 then B1 else if x in l.t2 then T2 else if x in l.b2 then B2 else Nowhere
  }

  /** Does `replace` demote from T1 (and not from T2)? `fromB2`: the request hit a ghost in B2. */
  predicate DemotesT1<T>(l: Lists<T>, fromB2: bool) {
    |l.t1| > 0 && (|l.t1| > l.p || (fromB2 && |l.t1| == l.p))
  }

  /** `replace` has a back element to take. */
  predicate CanDemote<T>(l: Lists<T>, fromB2: bool) {
    DemotesT1(l, fromB2) || l.t2 != []
  }

  function Victim<T>(l: Lists<T>, fromB2: bool): T
    requires CanDemote(l, fromB2)
  {
    if DemotesT1(l, fromB2) then Last(l.t1) else Last(l.t2)
  }

  function Demote<T>(l: Lists<T>, fromB2: bool): Lists<T>
    requires CanDemote(l, fromB2)
  {
    if DemotesT1(l, fromB2) then l.(t1 := Init(l.t1), b1 := [Last(l.t1)] + l.b1)
    else l.(t2 := Init(l.t2), b2 := [Last(l.t2)] + l.b2)
  }

  /** The lists after a request, the element turned into a ghost, and the one dropped altogether. */
  datatype Outcome<T> = Outcome(lists: Lists<T>, demoted: Option<T>, dropped: Option<T>)

  function Min(a: int, b: int): int { if a < b then a else b }
  function Max(a: int, b: int): int { if a < b then b else a }

  /** The step is positive whenever the target can still move, and stays within the capacity. */
  function GrowTarget<T>(l: Lists<T>): (p: int)
    requires |l.b1| >= |l.b2| || |l.b1| > 0
    requires 0 <= l.p <= l.c
    ensures Min(l.p + 1, l.c) <= p <= l.c
  {
    Min(l.p + if |l.b1| >= |l.b2| then 1 else |l.b2| / |l.b1|, l.c)
  }

  function ShrinkTarget<T>(l: Lists<T>): (p: int)
    requires |l.b2| >= |l.b1| || |l.b2| > 0
    requires 0 <= l.p <= l.c
    ensures 0 <= p <= Max(l.p - 1, 0)
  {
    Max(l.p - if |l.b2| >= |l.b1| then 1 else |l.b1| / |l.b2|, 0)
  }

  /** Move `x` to the front of T2. */
  function ToT2<T(==)>(l: Lists<T>, x: T): Lists<T> {
    match Locate(l, x)
    case T1 => l.(t1 := Without(l.t1, x), t2 := [x] + l.t2)
    case B1 => l.(b1 := Without(l.b1, x), t2 := [x] + l.t2)
    case T2 => l.(t2 := [x] + Without(l.t2, x))
    case B2 => l.(b2 := Without(l.b2, x), t2 := [x] + l.t2)
    case Nowhere => l.(t2 := [x] + l.t2)
  }

  function WithDemotion<T(==)>(l: Lists<T>, fromB2: bool, dropped: Option<T>): Outcome<T>
    requires CanDemote(l, fromB2)
  {
    Outcome(Demote(l, fromB2), Some(Victim(l, fromB2)), dropped)
  }

  /** Case IV before the new element goes in: drop and demote as the sizes demand. */
  function MakeRoom<T(==)>(l: Lists<T>): (r: Outcome<T>)
    requires l.Sized()
    ensures r.lists.c == l.c && r.lists.p == l.p
    ensures |r.lists.t1| + |r.lists.t2| < l.c && |r.lists.t1| + |r.lists.b1| < l.c
    ensures |r.lists.t1| + |r.lists.b1| + |r.lists.t2| + |r.lists.b2| < 2 * l.c
    ensures |r.lists.t1| + |r.lists.t2| < l.c - 1 ==> r.lists.b1 == [] && r.lists.b2 == []
  {
    if |l.t1| + |l.b1| == l.c then
      if |l.t1| < l.c then WithDemotion(l.(b1 := Init(l.b1)), false, Some(Last(l.b1)))
      else Outcome(l.(t1 := Init(l.t1)), None, Some(Last(l.t1)))
    else if |l.t1| + |l.t2| + |l.b1| + |l.b2| >= l.c then
      if |l.t1| + |l.t2| + |l.b1| + |l.b2| == 2 * l.c
      then WithDemotion(l.(b2 := Init(l.b2)), false, Some(Last(l.b2)))
      else WithDemotion(l, false, None)
    else Outcome(l, None, None)
  }

  /** `req` for an element that is in none of the lists: Case IV. */
  function Admit<T(==)>(l: Lists<T>, x: T): (r: Outcome<T>)
    requires l.Sized() && Locate(l, x) == Nowhere
    ensures r.lists.Sized()
  {
    var o := MakeRoom(l);
    o.(lists := o.lists.(t1 := [x] + o.lists.t1))
  }

  /** A move inside the live lists. */
  function Promote<T(==)>(l: Lists<T>, x: T): (r: Outcome<T>)
    requires l.Sized() && (Locate(l, x) == T1 || Locate(l, x) == T2)
    ensures r.lists.Sized()
  {
    Outcome(ToT2(l, x), None, None)
  }

  /** A request for a ghost: shift the target to `p`, demote, and bring `x` back. */
  function Revive<T(==)>(l: Lists<T>, x: T, p: int, fromB2: bool): (r: Outcome<T>)
    requires l.Sized() && 0 <= p <= l.c && CanDemote(l.(p := p), fromB2)
    requires Locate(l, x) == if fromB2 then B2 else B1
    ensures r.lists.Sized()
  {
    var m := l.(p := p);
    Outcome(ToT2(Demote(m, fromB2), x), Some(Victim(m, fromB2)), None)
  }

  /**
   `req`: every branch of the request switch. The size bounds survive, so `replace` and `delLRU`
   always have a back element to take, and the adaptation divides by a non-empty list.
   */
  function Request<T(==)>(l: Lists<T>, x: T): (r: Outcome<T>)
    requires l.Sized()
    ensures r.lists.Sized()
  {
    match Locate(l, x)
    case T1 => Promote(l, x)
    case T2 => Promote(l, x)
    case B1 => Revive(l, x, GrowTarget(l), false)
    case B2 => Revive(l, x, ShrinkTarget(l), true)
    case Nowhere => Admit(l, x)
  }

  /** `x` hangs in exactly one of the four lists, or in none. */
  predicate AtMostOnce<T(==)>(l: Lists<T>, x: T) {
    && (x in l.t1 ==> x !in l.b1)
    && (x in l.t2 ==> x !in l.b2)
    && (x in l.L1() ==> x !in l.L2())
    && (x in l.t1 || x in l.b1 <==> x in l.L1())
    && (x in l.t2 || x in l.b2 <==> x in l.L2())
    && (x in l.L1() || x in l.L2() <==> x in l.All())
  }

  lemma NoDupAtMostOnce<T>(l: Lists<T>, x: T)
    requires NoDup(l.All())
    ensures AtMostOnce(l, x)
  {
    NoDupConcat(l.t1, l.b1);
    NoDupConcat(l.t2, l.b2);
    NoDupConcat(l.L1(), l.L2());
  }
}
