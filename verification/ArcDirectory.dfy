/**
 The directory view of the cache: T1 followed by B1, and T2 followed by B2. Whatever the adaptive
 target does, these two sequences evolve as a pair of plain LRU lists (Megiddo and Modha's DBL(2c)).
 */
module ArcDirectory {
  import opened Seqs
  import opened ArcModel

  datatype Dbl<T> = Dbl(c: int, once: seq<T>, often: seq<T>)

  function Directory<T>(l: Lists<T>): Dbl<T> { Dbl(l.c, l.L1(), l.L2()) }

  /** The reference: two LRU lists of joint capacity 2c, the first one of capacity c. */
  function DblRequest<T(==)>(d: Dbl<T>, x: T): Dbl<T>
    requires d.c >= 1 && |d.once| <= d.c
  {
    if x in d.once then d.(once := Without(d.once, x), often := [x] + d.often)
    else if x in d.often then d.(often := [x] + Without(d.often, x))
    else if |d.once| == d.c then d.(once := [x] + Init(d.once))
    else if |d.once| + |d.often| == 2 * d.c then d.(once := [x] + d.once, often := Init(d.often))
    else d.(once := [x] + d.once)
  }

  /** What the reference drops on a request. */
  function DblDropped<T(==)>(d: Dbl<T>, x: T): Option<T>
    requires d.c >= 1 && |d.once| <= d.c
  {
    if x in d.once || x in d.often then None
    else if |d.once| == d.c then Some(Last(d.once))
    else if |d.once| + |d.often| == 2 * d.c then Some(Last(d.often))
    else None
  }

  lemma DemoteKeepsDirectory<T>(l: Lists<T>, fromB2: bool)
    requires CanDemote(l, fromB2)
    ensures Directory(Demote(l, fromB2)) == Directory(l)
    ensures var v := Victim(l, fromB2); v in l.t1 + l.t2
    ensures var v := Victim(l, fromB2); v in Demote(l, fromB2).b1 + Demote(l, fromB2).b2
  {
    if DemotesT1(l, fromB2) {
      assert l.t1 == Init(l.t1) + [Last(l.t1)];
      assert Demote(l, fromB2).L1() == l.L1();
    } else {
      assert l.t2 == Init(l.t2) + [Last(l.t2)];
      assert Demote(l, fromB2).L2() == l.L2();
    }
  }

  lemma ToT2IsMove<T>(l: Lists<T>, x: T)
    requires AtMostOnce(l, x) && x in l.All()
    ensures ToT2(l, x).L1() == if x in l.L1() then Without(l.L1(), x) else l.L1()
    ensures ToT2(l, x).L2() == [x] + if x in l.L1() then l.L2() else Without(l.L2(), x)
  {
    match Locate(l, x)
    case T1 => WithoutConcat(l.t1, l.b1, x); PushAssoc(x, l.t2, l.b2);
    case B1 => WithoutConcat(l.t1, l.b1, x); PushAssoc(x, l.t2, l.b2);
    case T2 => WithoutConcat(l.t2, l.b2, x); PushAssoc(x, Without(l.t2, x), l.b2);
    case B2 => WithoutConcat(l.t2, l.b2, x); PushAssoc(x, l.t2, Without(l.b2, x));
  }

  /** For every target `p`: the four lists refine the two reference lists, dropping the same element. */
  lemma RequestRefinesDbl<T>(l: Lists<T>, x: T)
    requires l.Good()
    ensures Directory(Request(l, x).lists) == DblRequest(Directory(l), x)
    ensures Request(l, x).dropped == DblDropped(Directory(l), x)
  {
    NoDupAtMostOnce(l, x);
    match Locate(l, x)
    case T1 => ToT2IsMove(l, x);
    case T2 => ToT2IsMove(l, x);
    case B1 => ReviveIsMove(l, x, GrowTarget(l), false);
    case B2 => ReviveIsMove(l, x, ShrinkTarget(l), true);
    case Nowhere => AdmitRefinesDbl(l, x);
  }

  lemma ReviveIsMove<T>(l: Lists<T>, x: T, p: int, fromB2: bool)
    requires l.Sized() && AtMostOnce(l, x) && 0 <= p <= l.c && CanDemote(l.(p := p), fromB2)
    requires Locate(l, x) == if fromB2 then B2 else B1
    ensures Directory(Revive(l, x, p, fromB2).lists) == DblRequest(Directory(l), x)
    ensures x in l.All()
  {
    var m := l.(p := p);
    DemoteKeepsDirectory(m, fromB2);
    ToT2IsMove(Demote(m, fromB2), x);
  }

  lemma AdmitRefinesDbl<T>(l: Lists<T>, x: T)
    requires l.Sized() && x !in l.All()
    ensures Directory(Admit(l, x).lists) == DblRequest(Directory(l), x)
    ensures Admit(l, x).dropped == DblDropped(Directory(l), x)
  {
    var d := Directory(l);
    if |d.once| == l.c {
      if |l.t1| < l.c {
        assert Init(d.once) == l.t1 + Init(l.b1);
        FrontOfT1(Demote(l.(b1 := Init(l.b1)), false), x);
        DemoteKeepsDirectory(l.(b1 := Init(l.b1)), false);
      } else {
        assert l.b1 == [];
        assert Init(d.once) == Init(l.t1) + l.b1;
        FrontOfT1(l.(t1 := Init(l.t1)), x);
      }
    } else if |d.once| + |d.often| >= l.c {
      if |d.once| + |d.often| == 2 * l.c {
        assert Init(d.often) == l.t2 + Init(l.b2);
        FrontOfT1(Demote(l.(b2 := Init(l.b2)), false), x);
        DemoteKeepsDirectory(l.(b2 := Init(l.b2)), false);
      } else {
        FrontOfT1(Demote(l, false), x);
        DemoteKeepsDirectory(l, false);
      }
    } else {
      FrontOfT1(l, x);
    }
  }

  lemma FrontOfT1<T>(l: Lists<T>, x: T)
    ensures Directory(l.(t1 := [x] + l.t1)) == Directory(l).(once := [x] + l.L1())
  {
    assert ([x] + l.t1) + l.b1 == [x] + l.L1();
  }

  ghost predicate DblGood<T>(d: Dbl<T>) {
    d.c >= 1 && |d.once| <= d.c && |d.once| + |d.often| <= 2 * d.c && NoDup(d.once + d.often)
  }

  /** A request puts `x` in the directory and removes exactly the dropped element from it. */
  lemma DblMembers<T>(d: Dbl<T>, x: T)
    requires DblGood(d)
    ensures DblGood(DblRequest(d, x))
    ensures DblDropped(d, x).Some? ==> DblDropped(d, x).value in d.once + d.often && DblDropped(d, x).value != x
    ensures var e := DblRequest(d, x);
            forall y :: y in e.once + e.often <==> y == x || (y in d.once + d.often && Some(y) != DblDropped(d, x))
  {
    NoDupConcat(d.once, d.often);
    WithoutMembers(d.once, x);
    WithoutMembers(d.often, x);
    if d.once != [] { InitMembers(d.once); }
    if d.often != [] { InitMembers(d.often); }
    var e := DblRequest(d, x);
    if x in d.once || x in d.often { PushNoDup(x, if x in d.once then d.often else Without(d.often, x)); }
    else if |d.once| == d.c { PushNoDup(x, Init(d.once)); }
    else { PushNoDup(x, d.once); }
    NoDupConcat(e.once, e.often);
  }

  lemma InitMembers<T>(q: seq<T>)
    requires NoDup(q) && q != []
    ensures NoDup(Init(q)) && forall y :: y in Init(q) <==> y in q && y != Last(q)
  {
    assert q == Init(q) + [Last(q)];
  }

  // ---- recency ----

  /** Request times and counts, kept beside the cache: a logical clock that ticks at every request. */
  datatype Clock<T> = Clock(now: nat, last: map<T, nat>, uses: map<T, nat>) {
    function Tick(d: Dbl<T>, x: T): Clock<T> {
      var n := if (x in d.once || x in d.often) && x in uses then uses[x] + 1 else 1;
      Clock(now + 1, last[x := now], uses[x := n])
    }
  }

  /** Front to back, the last requests get strictly older. */
  ghost predicate NewestFirst<T>(q: seq<T>, last: map<T, nat>) {
    && (forall i :: 0 <= i < |q| ==> q[i] in last)
    && forall i, j :: 0 <= i < j < |q| ==> last[q[i]] > last[q[j]]
  }

  ghost predicate Recent<T>(d: Dbl<T>, t: Clock<T>) {
    && NewestFirst(d.once, t.last)
    && NewestFirst(d.often, t.last)
    && (forall x :: x in d.once + d.often ==> x in t.last && x in t.uses && t.last[x] < t.now)
    && (forall x :: x in d.once ==> t.uses[x] == 1)
    && (forall x :: x in d.often ==> t.uses[x] >= 2)
  }

  lemma PushNewest<T>(q: seq<T>, x: T, last: map<T, nat>, now: nat)
    requires NewestFirst(q, last) && x !in q && forall y :: y in q ==> last[y] < now
    ensures NewestFirst([x] + q, last[x := now])
  {
    var r := [x] + q;
    forall i, j | 0 <= i < j < |r| ensures last[x := now][r[i]] > last[x := now][r[j]] {
      assert r[j] == q[j - 1] && q[j - 1] in q;
      if i > 0 { assert r[i] == q[i - 1] && q[i - 1] in q; }
    }
  }

  lemma OrderCut<T>(q: seq<T>, k: nat, last: map<T, nat>, now: nat)
    requires NewestFirst(q, last) && NoDup(q) && k < |q|
    ensures NewestFirst(q[..k] + q[k + 1..], last[q[k] := now])
  {
    var r, x := q[..k] + q[k + 1..], q[k];
    forall i | 0 <= i < |r| ensures r[i] in last && r[i] != x && last[x := now][r[i]] == last[r[i]] {
      assert r[i] == if i < k then q[i] else q[i + 1];
    }
    forall i, j | 0 <= i < j < |r| ensures last[r[i]] > last[r[j]] {
      assert r[i] == if i < k then q[i] else q[i + 1];
      assert r[j] == if j < k then q[j] else q[j + 1];
    }
  }

  /** Taking `x` out of a sequence keeps its order, whatever `x`'s new time. */
  lemma OrderWithout<T>(q: seq<T>, x: T, last: map<T, nat>, now: nat)
    requires NewestFirst(q, last) && NoDup(q)
    ensures NewestFirst(Without(q, x), last[x := now])
  {
    if x in q {
      var k :| 0 <= k < |q| && q[k] == x;
      WithoutAt(q, k);
      OrderCut(q, k, last, now);
    } else {
      assert Without(q, x) == q;
    }
  }

  /** Order by last request, and the once/often split, survive every request. */
  lemma RequestKeepsRecency<T>(d: Dbl<T>, x: T, t: Clock<T>)
    requires DblGood(d) && Recent(d, t)
    ensures Recent(DblRequest(d, x), t.Tick(d, x))
  {
    RequestKeepsOrder(d, x, t);
    RequestKeepsCounts(d, x, t);
  }

  lemma RequestKeepsOrder<T>(d: Dbl<T>, x: T, t: Clock<T>)
    requires DblGood(d) && Recent(d, t)
    ensures NewestFirst(DblRequest(d, x).once, t.last[x := t.now])
    ensures NewestFirst(DblRequest(d, x).often, t.last[x := t.now])
  {
    NoDupConcat(d.once, d.often);
    OrderWithout(d.once, x, t.last, t.now);
    OrderWithout(d.often, x, t.last, t.now);
    forall y | y in d.once || y in d.often ensures t.last[y] < t.now {
      assert y in d.once + d.often;
    }
    if x in d.once { PushNewest(d.often, x, t.last, t.now); }
    else if x in d.often { WithoutMembers(d.often, x); PushNewest(Without(d.often, x), x, t.last, t.now); }
    else if |d.once| == d.c { PushNewest(Init(d.once), x, t.last, t.now); }
    else {
      PushNewest(d.once, x, t.last, t.now);
      if d.often != [] { OrderWithout(Init(d.often), x, t.last, t.now); }
    }
  }

  /** Who is where after a request. */
  lemma DblHalves<T>(d: Dbl<T>, x: T)
    requires DblGood(d)
    ensures var e, known := DblRequest(d, x), x in d.once || x in d.often;
            && (forall y :: y in e.once ==> (y == x && !known) || (y != x && y in d.once))
            && (forall y :: y in e.often ==> (y == x && known) || (y != x && y in d.often))
  {
    NoDupConcat(d.once, d.often);
    WithoutMembers(d.once, x);
    WithoutMembers(d.often, x);
    if d.once != [] { InitMembers(d.once); }
    if d.often != [] { InitMembers(d.often); }
    if x in d.once {
      PushNoDup(x, d.often);
    } else if x in d.often {
      PushNoDup(x, Without(d.often, x));
    } else if |d.once| == d.c {
      PushNoDup(x, Init(d.once));
    } else {
      PushNoDup(x, d.once);
    }
  }

  lemma RequestKeepsCounts<T>(d: Dbl<T>, x: T, t: Clock<T>)
    requires DblGood(d) && Recent(d, t)
    ensures var e, u := DblRequest(d, x), t.Tick(d, x);
            && (forall y :: y in e.once + e.often ==> y in u.last && y in u.uses && u.last[y] < u.now)
            && (forall y :: y in e.once ==> u.uses[y] == 1)
            && (forall y :: y in e.often ==> u.uses[y] >= 2)
  {
    DblHalves(d, x);
    var e := DblRequest(d, x);
    assert forall y :: y in d.once + d.often <==> y in d.once || y in d.often;
    assert forall y :: y in e.once + e.often <==> y in e.once || y in e.often;
  }

  /** What leaves the directory is the one element of its half that was requested longest ago. */
  lemma DroppedIsOldest<T>(d: Dbl<T>, x: T, t: Clock<T>)
    requires DblGood(d) && Recent(d, t) && DblDropped(d, x).Some?
    ensures var y := DblDropped(d, x).value;
            var half := if y in d.once then d.once else d.often;
            y in half && forall z :: z in half && z != y ==> t.last[y] < t.last[z]
  {
    NoDupConcat(d.once, d.often);
    var y := DblDropped(d, x).value;
    var half := if |d.once| == d.c then d.once else d.often;
    assert y == Last(half) && y in half;
  }

  // ---- the most recent keys are always in the directory ----

  /** The elements of `s` are in the directory, and were requested after `k`. */
  ghost predicate NewerThan<T>(d: Dbl<T>, t: Clock<T>, k: T, s: set<T>)
    requires k in t.last
  {
    forall y :: y in s ==> y in d.once + d.often && y in t.last && t.last[y] > t.last[k]
  }

  /** At least a capacity's worth of the directory was requested after `k`. */
  ghost predicate Overtaken<T(!new)>(d: Dbl<T>, t: Clock<T>, k: T)
    requires k in t.last
  {
    exists s: set<T> :: |s| >= d.c && NewerThan(d, t, k, s)
  }

  /** Whatever was requested and is gone has been overtaken. */
  ghost predicate Remembers<T(!new)>(d: Dbl<T>, t: Clock<T>) {
    && (forall k :: k in t.last ==> t.last[k] < t.now)
    && forall k :: k in t.last && k !in d.once + d.often ==> Overtaken(d, t, k)
  }

  /** What stays in the half of a dropped element, and the one coming in, overtake it. */
  lemma DroppedIsOvertaken<T(!new)>(d: Dbl<T>, x: T, t: Clock<T>) returns (s: set<T>)
    requires DblGood(d) && Recent(d, t) && DblDropped(d, x).Some?
    ensures DblDropped(d, x).value in t.last && DblDropped(d, x).value != x
    ensures |s| >= d.c && NewerThan(DblRequest(d, x), t.Tick(d, x), DblDropped(d, x).value, s)
  {
    var y, e := DblDropped(d, x).value, DblRequest(d, x);
    var half := if |d.once| == d.c then d.once else d.often;
    DblMembers(d, x);
    DroppedIsOldest(d, x, t);
    NoDupConcat(d.once, d.often);
    NoDupConcat(e.once, e.often);
    InitMembers(half);
    NoDupSize(e.once);
    NoDupSize(e.often);
    s := if |d.once| == d.c then Members(e.once) else Members(e.often);
    forall z | z in s ensures z in e.once + e.often && t.Tick(d, x).last[z] > t.last[y] {
      if z != x { assert z in Init(half); }
      assert y in d.once + d.often;
    }
  }

  /** Who was overtaken before a request still is, and who the request drops is now. */
  lemma RequestKeepsRemembering<T(!new)>(d: Dbl<T>, x: T, t: Clock<T>)
    requires DblGood(d) && Recent(d, t) && Remembers(d, t)
    ensures Remembers(DblRequest(d, x), t.Tick(d, x))
  {
    var e, u := DblRequest(d, x), t.Tick(d, x);
    DblMembers(d, x);
    forall k | k in u.last && k !in e.once + e.often ensures Overtaken(e, u, k) {
      if k in d.once + d.often {
        var s := DroppedIsOvertaken(d, x, t);
      } else {
        assert Overtaken(d, t, k);
        var s :| |s| >= d.c && NewerThan(d, t, k, s);
        StillOvertaken(d, x, t, k, s);
      }
    }
  }

  lemma StillOvertaken<T(!new)>(d: Dbl<T>, x: T, t: Clock<T>, k: T, s: set<T>)
    requires DblGood(d) && Recent(d, t) && (forall y :: y in t.last ==> t.last[y] < t.now)
    requires k in t.last && k != x && |s| >= d.c && NewerThan(d, t, k, s)
    ensures Overtaken(DblRequest(d, x), t.Tick(d, x), k)
  {
    DblMembers(d, x);
    var dropped := DblDropped(d, x);
    if dropped.Some? && dropped.value in s {
      var r := DroppedIsOvertaken(d, x, t);
      assert NewerThan(DblRequest(d, x), t.Tick(d, x), k, r);
    } else {
      assert NewerThan(DblRequest(d, x), t.Tick(d, x), k, s);
    }
  }
}
