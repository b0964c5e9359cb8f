/**
 The DNS-over-TLS connection pool (connection reuse, section 3.4 of RFC 7858) under interleaved
 exchanges and resets: one step per lock section, dial, exchange or background close.
 */
module DotPool {
  import opened Counting
  import opened Seqs

  const MAX_OLD_CONNS := 8

  /** Where an exchange stands; connections are numbered in the order they were dialled. */
  datatype Phase = Top | NeedDial | Using(conn: nat, old_: bool) | Answered(conn: nat) | Over

  /** `tries`: connections used so far; `dials`: dials attempted, successful or not. */
  datatype Exchange = Exchange(phase: Phase, tries: nat, dials: nat)

  /** `closing`: handed to a background goroutine; `closed`: the close calls made, in order. */
  datatype State = State(
    reuse: bool, pool: seq<nat>, exchanges: seq<Exchange>, closing: seq<nat>, closed: seq<nat>, dialled: nat)

  datatype Event =
    | Start
    | Cancel(e: nat)
    | Take(e: nat)
    | Dial(e: nat, ok: bool)
    | Answer(e: nat, ok: bool)
    | GiveBack(e: nat)
    | Reset
    | CloseLater(i: nat)

  // ---- the lock sections ----

  /** Take the connection returned last, if any. */
  function PoolTake(pool: seq<nat>): (Option<nat>, seq<nat>) {
    if pool == [] then (None, []) else (Some(Last(pool)), Init(pool))
  }

  /** Return a connection; a full pool gives up its oldest one. */
  function PoolPut(pool: seq<nat>, conn: nat): (Option<nat>, seq<nat>) {
    if |pool| >= MAX_OLD_CONNS then (Some(pool[0]), pool[1..] + [conn]) else (None, pool + [conn])
  }

  /** Several connections returned one after the other: those given up, and the pool left. */
  function PutAll(pool: seq<nat>, conns: seq<nat>): (seq<nat>, seq<nat>) {
    if conns == [] then ([], pool) else
    var (gone, before) := PutAll(pool, Init(conns));
    var (evicted, after) := PoolPut(before, Last(conns));
    (gone + (match evicted case Some(c) => [c] case None => []), after)
  }

  /** The pool keeps the connections returned last, at most eight, and gives up the others oldest first. */
  lemma {:induction false} PoolKeepsNewest(pool: seq<nat>, conns: seq<nat>)
    requires |pool| <= MAX_OLD_CONNS
    ensures var (gone, kept) := PutAll(pool, conns);
            && gone + kept == pool + conns
            && |kept| == if |pool| + |conns| <= MAX_OLD_CONNS then |pool| + |conns| else MAX_OLD_CONNS
  {
    if conns != [] {
      PoolKeepsNewest(pool, Init(conns));
      var (gone, before) := PutAll(pool, Init(conns));
      assert pool + conns == (pool + Init(conns)) + [Last(conns)];
      if |before| >= MAX_OLD_CONNS {
        assert before == [before[0]] + before[1..];
      }
    }
  }

  /** What is taken next is what was returned last. */
  lemma TakesNewest(pool: seq<nat>, conn: nat)
    requires |pool| <= MAX_OLD_CONNS
    ensures var after := PoolPut(pool, conn).1;
            PoolTake(after) == (Some(conn), if |pool| == MAX_OLD_CONNS then pool[1..] else pool)
  {
  }

  function SetPhase(s: State, e: nat, phase: Phase): State
    requires e < |s.exchanges|
  {
    s.(exchanges := s.exchanges[e := s.exchanges[e].(phase := phase)])
  }

  /** Begin to use `conn`. */
  function Use(s: State, e: nat, conn: nat, old_: bool): State
    requires e < |s.exchanges|
  {
    var x := s.exchanges[e];
    s.(exchanges := s.exchanges[e := Exchange(Using(conn, old_), x.tries + 1, x.dials)])
  }

  /** One more dial attempted. */
  function Dialling(s: State, e: nat): State
    requires e < |s.exchanges|
  {
    s.(exchanges := s.exchanges[e := s.exchanges[e].(dials := s.exchanges[e].dials + 1)])
  }

  function OnTake(s: State, e: nat): State
    requires e < |s.exchanges|
  {
    if s.exchanges[e].phase != Top then s
    else if s.reuse && s.pool != [] then Use(s.(pool := PoolTake(s.pool).1), e, PoolTake(s.pool).0.value, true)
    else SetPhase(s, e, NeedDial)
  }

  function OnDial(s: State, e: nat, ok: bool): State
    requires e < |s.exchanges|
  {
    if s.exchanges[e].phase != NeedDial then s
    else if ok then Use(Dialling(s, e).(dialled := s.dialled + 1), e, s.dialled, false)
    else SetPhase(Dialling(s, e), e, Over)
  }

  /** A failed exchange closes its connection, and is retried only on an old one. */
  function OnAnswer(s: State, e: nat, ok: bool): State
    requires e < |s.exchanges|
  {
    match s.exchanges[e].phase
    case Using(conn, old_) =>
      if ok then SetPhase(s, e, Answered(conn))
      else SetPhase(s.(closed := s.closed + [conn]), e, if old_ then Top else Over)
    case _ => s
  }

  function OnGiveBack(s: State, e: nat): State
    requires e < |s.exchanges|
  {
    match s.exchanges[e].phase
    case Answered(conn) =>
      if s.reuse then
        var (evicted, pool) := PoolPut(s.pool, conn);
        SetPhase(s.(pool := pool, closing := s.closing + if evicted.Some? then [evicted.value] else []), e, Over)
      else SetPhase(s.(closed := s.closed + [conn]), e, Over)
    case _ => s
  }

  function OnReset(s: State): State {
    if s.reuse then s.(pool := [], closing := s.closing + s.pool) else s
  }

  function OnCloseLater(s: State, i: nat): State {
    if i < |s.closing|
    then s.(closing := s.closing[..i] + s.closing[i + 1..], closed := s.closed + [s.closing[i]])
    else s
  }

  /** A step that is not enabled changes nothing. */
  function Apply(s: State, v: Event): State {
    match v
    case Start => s.(exchanges := s.exchanges + [Exchange(Top, 0, 0)])
    case Cancel(e) => if e < |s.exchanges| && s.exchanges[e].phase == Top then SetPhase(s, e, Over) else s
    case Take(e) => if e < |s.exchanges| then OnTake(s, e) else s
    case Dial(e, ok) => if e < |s.exchanges| then OnDial(s, e, ok) else s
    case Answer(e, ok) => if e < |s.exchanges| then OnAnswer(s, e, ok) else s
    case GiveBack(e) => if e < |s.exchanges| then OnGiveBack(s, e) else s
    case Reset => OnReset(s)
    case CloseLater(i) => OnCloseLater(s, i)
  }

  function Run(start: State, events: seq<Event>): State {
    if events == [] then start else Apply(Run(start, Init(events)), Last(events))
  }

  function Fresh(reuse: bool): State {
    State(reuse, [], [], [], [], 0)
  }

  // ---- where a connection is ----

  function Holds(x: Exchange, c: nat): nat {
    if (x.phase.Using? || x.phase.Answered?) && x.phase.conn == c then 1 else 0
  }

  function Held(xs: seq<Exchange>, c: nat): nat {
    if xs == [] then 0 else Held(Init(xs), c) + Holds(Last(xs), c)
  }

  /** How many places connection `c` is in. */
  function Places(s: State, c: nat): nat {
    Count(s.pool, c) + Held(s.exchanges, c) + Count(s.closing, c) + Count(s.closed, c)
  }

  /** Every dialled connection is in exactly one place, and the pool is bounded. */
  ghost predicate Inv(s: State) {
    && (forall c: nat :: Places(s, c) == if c < s.dialled then 1 else 0)
    && |s.pool| <= MAX_OLD_CONNS
    && (forall e :: 0 <= e < |s.exchanges| ==> DialsOnce(s.exchanges[e]))
  }

  /** An exchange that has dialled does not come back to the top of the loop. */
  ghost predicate DialsOnce(x: Exchange) {
    && x.dials <= 1
    && (x.dials == 1 ==> x.phase != Top && x.phase != NeedDial && (x.phase.Using? ==> !x.phase.old_))
    && (x.phase.Using? && !x.phase.old_ ==> x.dials == 1)
  }

  lemma {:induction false} HeldUpdate(xs: seq<Exchange>, e: nat, x: Exchange, c: nat)
    requires e < |xs|
    ensures Held(xs[e := x], c) == Held(xs, c) - Holds(xs[e], c) + Holds(x, c)
  {
    if e == |xs| - 1 {
      assert Init(xs[e := x]) == Init(xs);
    } else {
      assert Init(xs[e := x]) == Init(xs)[e := x];
      HeldUpdate(Init(xs), e, x, c);
    }
  }

  lemma {:induction false} HeldMember(xs: seq<Exchange>, e: nat, c: nat)
    requires e < |xs|
    ensures Holds(xs[e], c) <= Held(xs, c)
  {
    if e < |xs| - 1 {
      HeldMember(Init(xs), e, c);
    }
  }

  // ---- every step keeps it ----

  lemma TakeKeepsInv(s: State, e: nat)
    requires Inv(s) && e < |s.exchanges|
    ensures Inv(OnTake(s, e))
  {
    var t := OnTake(s, e);
    forall c: nat ensures Places(t, c) == if c < t.dialled then 1 else 0 {
      assert Places(s, c) == if c < s.dialled then 1 else 0;
      if s.exchanges[e].phase == Top { HeldUpdate(s.exchanges, e, t.exchanges[e], c); }
    }
  }

  lemma DialKeepsInv(s: State, e: nat, ok: bool)
    requires Inv(s) && e < |s.exchanges|
    ensures Inv(OnDial(s, e, ok))
  {
    var t := OnDial(s, e, ok);
    forall c: nat ensures Places(t, c) == if c < t.dialled then 1 else 0 {
      assert Places(s, c) == if c < s.dialled then 1 else 0;
      if s.exchanges[e].phase == NeedDial {
        assert t.exchanges == s.exchanges[e := t.exchanges[e]];
        HeldUpdate(s.exchanges, e, t.exchanges[e], c);
      }
    }
  }

  lemma AnswerKeepsInv(s: State, e: nat, ok: bool)
    requires Inv(s) && e < |s.exchanges|
    ensures Inv(OnAnswer(s, e, ok))
  {
    var t := OnAnswer(s, e, ok);
    if s.exchanges[e].phase.Using? {
      forall c: nat ensures Places(t, c) == if c < t.dialled then 1 else 0 {
        assert Places(s, c) == if c < s.dialled then 1 else 0;
        HeldUpdate(s.exchanges, e, t.exchanges[e], c);
        var conn := s.exchanges[e].phase.conn;
        CountConcat(s.closed, [conn], c);
        CountOne(conn, c);
      }
    }
  }

  lemma PutCounts(pool: seq<nat>, conn: nat, c: nat)
    ensures var (evicted, after) := PoolPut(pool, conn);
            Count(after, c) + Count(if evicted.Some? then [evicted.value] else [], c)
            == Count(pool, c) + if conn == c then 1 else 0
  {
    if |pool| >= MAX_OLD_CONNS {
      CountConcat([pool[0]], pool[1..], c);
      assert pool == [pool[0]] + pool[1..];
      CountAppend(pool[1..], conn, c);
    } else {
      CountAppend(pool, conn, c);
    }
  }

  lemma GiveBackKeepsInv(s: State, e: nat)
    requires Inv(s) && e < |s.exchanges|
    ensures Inv(OnGiveBack(s, e))
  {
    var t := OnGiveBack(s, e);
    if s.exchanges[e].phase.Answered? {
      var conn := s.exchanges[e].phase.conn;
      forall c: nat ensures Places(t, c) == if c < t.dialled then 1 else 0 {
        assert Places(s, c) == if c < s.dialled then 1 else 0;
        HeldUpdate(s.exchanges, e, t.exchanges[e], c);
        if s.reuse {
          var evicted := PoolPut(s.pool, conn).0;
          PutCounts(s.pool, conn, c);
          CountConcat(s.closing, if evicted.Some? then [evicted.value] else [], c);
        } else {
          CountConcat(s.closed, [conn], c);
          CountOne(conn, c);
        }
      }
    }
  }

  lemma ResetKeepsInv(s: State)
    requires Inv(s)
    ensures Inv(OnReset(s))
  {
    forall c: nat ensures Places(OnReset(s), c) == if c < s.dialled then 1 else 0 {
      assert Places(s, c) == if c < s.dialled then 1 else 0;
      CountConcat(s.closing, s.pool, c);
    }
  }

  lemma CloseLaterKeepsInv(s: State, i: nat)
    requires Inv(s)
    ensures Inv(OnCloseLater(s, i))
  {
    if i < |s.closing| {
      forall c: nat ensures Places(OnCloseLater(s, i), c) == if c < s.dialled then 1 else 0 {
        assert Places(s, c) == if c < s.dialled then 1 else 0;
        CountWithout(s.closing, i, c);
        CountConcat(s.closed, [s.closing[i]], c);
        CountOne(s.closing[i], c);
      }
    }
  }

  lemma StartKeepsInv(s: State)
    requires Inv(s)
    ensures Inv(Apply(s, Start))
  {
    var x := Exchange(Top, 0, 0);
    assert Init(s.exchanges + [x]) == s.exchanges;
    forall c: nat ensures Places(Apply(s, Start), c) == Places(s, c) {
    }
  }

  lemma CancelKeepsInv(s: State, e: nat)
    requires Inv(s)
    ensures Inv(Apply(s, Cancel(e)))
  {
    if e < |s.exchanges| && s.exchanges[e].phase == Top {
      var t := SetPhase(s, e, Over);
      forall c: nat ensures Places(t, c) == if c < t.dialled then 1 else 0 {
        assert Places(s, c) == if c < s.dialled then 1 else 0;
        HeldUpdate(s.exchanges, e, t.exchanges[e], c);
      }
    }
  }

  lemma ApplyKeepsInv(s: State, v: Event)
    requires Inv(s)
    ensures Inv(Apply(s, v))
  {
    match v
    case Start => StartKeepsInv(s);
    case Cancel(e) => CancelKeepsInv(s, e);
    case Take(e) => if e < |s.exchanges| { TakeKeepsInv(s, e); }
    case Dial(e, ok) => if e < |s.exchanges| { DialKeepsInv(s, e, ok); }
    case Answer(e, ok) => if e < |s.exchanges| { AnswerKeepsInv(s, e, ok); }
    case GiveBack(e) => if e < |s.exchanges| { GiveBackKeepsInv(s, e); }
    case Reset => ResetKeepsInv(s);
    case CloseLater(i) => CloseLaterKeepsInv(s, i);
  }

  lemma {:induction false} RunKeepsInv(start: State, events: seq<Event>)
    requires Inv(start)
    ensures Inv(Run(start, events))
  {
    if events != [] {
      RunKeepsInv(start, Init(events));
      ApplyKeepsInv(Run(start, Init(events)), Last(events));
    }
  }

  // ---- what every interleaving guarantees ----

  /**
   Every connection ever dialled is in exactly one of: the pool, one exchange's hands, on its way to be
   closed, closed.
   */
  lemma OnePlace(reuse: bool, events: seq<Event>, c: nat)
    ensures var s := Run(Fresh(reuse), events);
            && Places(s, c) == (if c < s.dialled then 1 else 0)
            && |s.pool| <= MAX_OLD_CONNS
  {
    RunKeepsInv(Fresh(reuse), events);
  }

  /** No connection is closed twice. */
  lemma ClosedOnce(reuse: bool, events: seq<Event>)
    ensures NoDup(Run(Fresh(reuse), events).closed + Run(Fresh(reuse), events).closing)
  {
    RunKeepsInv(Fresh(reuse), events);
    var s := Run(Fresh(reuse), events);
    var q := s.closed + s.closing;
    forall c: nat ensures Count(q, c) <= 1 {
      CountConcat(s.closed, s.closing, c);
      assert Places(s, c) <= 1;
    }
    CountNoDup(q);
  }

  /** A connection in use, by whichever exchange, is neither pooled nor closed nor used by another. */
  lemma HeldIsLive(reuse: bool, events: seq<Event>, e: nat)
    ensures var s := Run(Fresh(reuse), events);
            e < |s.exchanges| && (s.exchanges[e].phase.Using? || s.exchanges[e].phase.Answered?) ==>
              var c := s.exchanges[e].phase.conn;
              && c < s.dialled && c !in s.pool && c !in s.closing && c !in s.closed
              && Held(s.exchanges, c) == 1
  {
    RunKeepsInv(Fresh(reuse), events);
    var s := Run(Fresh(reuse), events);
    if e < |s.exchanges| && (s.exchanges[e].phase.Using? || s.exchanges[e].phase.Answered?) {
      HeldMember(s.exchanges, e, s.exchanges[e].phase.conn);
      HeldOnly(s, s.exchanges[e].phase.conn);
    }
  }

  lemma HeldOnly(s: State, c: nat)
    requires Inv(s) && Held(s.exchanges, c) >= 1
    ensures c < s.dialled && c !in s.pool && c !in s.closing && c !in s.closed && Held(s.exchanges, c) == 1
  {
    assert Places(s, c) == if c < s.dialled then 1 else 0;
    CountMember(s.pool, c);
    CountMember(s.closing, c);
    CountMember(s.closed, c);
  }

  /** Whatever the others do, an exchange attempts at most one dial. */
  lemma DialsAtMostOnce(reuse: bool, events: seq<Event>, e: nat)
    ensures var s := Run(Fresh(reuse), events);
            e < |s.exchanges| ==> s.exchanges[e].dials <= 1
  {
    RunKeepsInv(Fresh(reuse), events);
    var s := Run(Fresh(reuse), events);
    if e < |s.exchanges| { assert DialsOnce(s.exchanges[e]); }
  }

  // ---- an exchange running alone ----

  predicate Own(v: Event, e: nat) {
    match v
    case Cancel(x) => x == e
    case Take(x) => x == e
    case Dial(x, _) => x == e
    case Answer(x, _) => x == e
    case GiveBack(x) => x == e
    case _ => false
  }

  /** The connections an exchange may still go through on its own. */
  function Left(s: State, e: nat): nat
    requires e < |s.exchanges|
  {
    match s.exchanges[e].phase
    case Top => |s.pool| + 1
    case NeedDial => 1
    case Using(_, old_) => if old_ then |s.pool| + 1 else 0
    case _ => 0
  }

  /** With nobody else running, an exchange goes through at most the pooled connections and one dialled one. */
  lemma {:induction false} AloneTriesFew(start: State, events: seq<Event>, e: nat)
    requires e < |start.exchanges| && forall v :: v in events ==> Own(v, e)
    ensures var s := Run(start, events);
            && |s.exchanges| == |start.exchanges|
            && s.exchanges[e].tries + Left(s, e) <= start.exchanges[e].tries + Left(start, e)
  {
    if events != [] {
      assert Last(events) in events;
      AloneTriesFew(start, Init(events), e);
      OwnStepTriesFew(Run(start, Init(events)), Last(events), e);
    }
  }

  lemma OwnStepTriesFew(s: State, v: Event, e: nat)
    requires e < |s.exchanges| && Own(v, e)
    ensures |Apply(s, v).exchanges| == |s.exchanges|
    ensures Apply(s, v).exchanges[e].tries + Left(Apply(s, v), e) <= s.exchanges[e].tries + Left(s, e)
  {
  }

  /** From the top of the loop: at most pool size + 1 connections tried and at most one dialled. */
  lemma AloneFromTop(start: State, events: seq<Event>, e: nat)
    requires Inv(start) && e < |start.exchanges| && start.exchanges[e] == Exchange(Top, 0, 0)
    requires forall v :: v in events ==> Own(v, e)
    ensures var s := Run(start, events);
            |s.exchanges| == |start.exchanges| && s.exchanges[e].tries <= |start.pool| + 1 && s.exchanges[e].dials <= 1
  {
    AloneTriesFew(start, events, e);
    RunKeepsInv(start, events);
  }

  /** How an exchange ended, the pool and the close calls it left, and what it cost. */
  datatype Outcome = Outcome(ok: bool, pool: seq<nat>, closed: seq<nat>, tries: nat, dials: nat)

  /** How the world answers: the context at the top of each round, the dial, and each connection. */
  datatype World = World(cancelled: nat -> bool, dialOk: bool, works: nat -> bool)

  function Succeeded(reuse: bool, pool: seq<nat>, conn: nat, dials: nat): Outcome {
    if !reuse then Outcome(true, pool, [conn], 1, dials) else
    var (evicted, after) := PoolPut(pool, conn);
    Outcome(true, after, match evicted case Some(c) => [c] case None => [], 1, dials)
  }

  /** The retry loop from round `round` on; `next` numbers the connection a dial would make. */
  function Alone(reuse: bool, pool: seq<nat>, round: nat, next: nat, w: World): (o: Outcome)
    ensures o.tries <= |pool| + 1 && o.dials <= 1
    decreases |pool|
  {
    if w.cancelled(round) then Outcome(false, pool, [], 0, 0)
    else if reuse && pool != [] then
      var conn := Last(pool);
      if w.works(conn) then Succeeded(reuse, Init(pool), conn, 0)
      else
        var o := Alone(reuse, Init(pool), round + 1, next, w);
        o.(closed := [conn] + o.closed, tries := 1 + o.tries)
    else if !w.dialOk then Outcome(false, pool, [], 0, 1)
    else if w.works(next) then Succeeded(reuse, pool, next, 1)
    else Outcome(false, pool, [next], 1, 1)
  }

  /** `rest` is how the loop ends from here, `closed` what it closed before that. */
  predicate OnTrack(o: Outcome, start: seq<int>, closed: seq<int>, rest: Outcome) {
    o.ok == rest.ok && o.pool == rest.pool && start + o.closed == closed + rest.closed
  }

  lemma TrackRetry(o: Outcome, start: seq<int>, closed: seq<int>, pool: seq<nat>, round: nat, next: nat, w: World)
    requires pool != [] && !w.cancelled(round) && !w.works(Last(pool))
    requires OnTrack(o, start, closed, Alone(true, pool, round, next, w))
    ensures OnTrack(o, start, closed + [Last(pool)], Alone(true, Init(pool), round + 1, next, w))
  {
    var rest := Alone(true, Init(pool), round + 1, next, w);
    assert Alone(true, pool, round, next, w).closed == [Last(pool)] + rest.closed;
    assert closed + ([Last(pool)] + rest.closed) == (closed + [Last(pool)]) + rest.closed;
  }

  /**
   Unless cancelled, it succeeds exactly when a pooled connection works or a new one helps, and dials
   exactly when no pooled one works.
   */
  lemma {:induction false} AloneSucceeds(reuse: bool, pool: seq<nat>, round: nat, next: nat, w: World)
    requires forall r: nat :: !w.cancelled(r)
    ensures var o := Alone(reuse, pool, round, next, w);
            var pooled := reuse && exists i :: 0 <= i < |pool| && w.works(pool[i]);
            && (o.ok <==> pooled || (w.dialOk && w.works(next)))
            && (o.dials == 1 <==> !pooled)
    decreases |pool|
  {
    if reuse && pool != [] {
      assert pool[|pool| - 1] == Last(pool);
      AloneSucceeds(reuse, Init(pool), round + 1, next, w);
      assert forall i :: 0 <= i < |pool| - 1 ==> Init(pool)[i] == pool[i];
    }
  }

  lemma {:induction false} RunConcat(start: State, a: seq<Event>, b: seq<Event>)
    ensures Run(start, a + b) == Run(Run(start, a), b)
  {
    if b == [] {
      assert a + b == a;
    } else {
      assert Init(a + b) == a + Init(b) && Last(a + b) == Last(b);
      RunConcat(start, a, Init(b));
    }
  }

  lemma RunOne(s: State, v: Event)
    ensures Run(s, [v]) == Apply(s, v)
  {
    assert Init([v]) == [];
    assert Run(s, []) == s;
  }

  /**
   Exchange `e` at `t` ended as `o` says, having started at `s`: the closes are those it made and those it
   left to the background, behind the ones that were pending before; `made` new connections were dialled.
   */
  ghost predicate EndsAs(s: State, t: State, e: nat, o: Outcome, made: nat) {
    && e < |s.exchanges| == |t.exchanges|
    && t.exchanges[e] == Exchange(Over, s.exchanges[e].tries + o.tries, s.exchanges[e].dials + o.dials)
    && t.pool == o.pool && t.reuse == s.reuse && t.dialled == s.dialled + made
    && |t.closing| >= |s.closing| && t.closing[..|s.closing|] == s.closing
    && t.closed + t.closing[|s.closing|..] == s.closed + o.closed
  }

  /** How many connections the loop dials successfully. */
  function Made(reuse: bool, pool: seq<nat>, round: nat, next: nat, w: World): nat {
    if w.dialOk then Alone(reuse, pool, round, next, w).dials else 0
  }

  /** What a successful exchange leaves behind, once its connection is returned. */
  lemma GiveBackEnds(s: State, e: nat, conn: nat)
    requires e < |s.exchanges| && s.exchanges[e].phase == Answered(conn)
    ensures EndsAs(s, OnGiveBack(s, e), e, Succeeded(s.reuse, s.pool, conn, 0).(tries := 0), 0)
  {
    var t := OnGiveBack(s, e);
    if s.reuse {
      var evicted := PoolPut(s.pool, conn).0;
      var given := if evicted.Some? then [evicted.value] else [];
      assert t.closing == s.closing + given;
      assert t.closing[|s.closing|..] == given;
    } else {
      assert t.closing[|s.closing|..] == [];
    }
  }

  /** The last steps of a successful exchange: the answer arrives and the connection is returned. */
  lemma SuccessIsRun(s: State, e: nat, conn: nat, old_: bool)
    requires e < |s.exchanges| && s.exchanges[e].phase == Using(conn, old_)
    ensures EndsAs(s, Run(s, [Answer(e, true), GiveBack(e)]), e, Succeeded(s.reuse, s.pool, conn, 0).(tries := 0), 0)
  {
    RunTwo(s, Answer(e, true), GiveBack(e));
    var a := SetPhase(s, e, Answered(conn));
    assert Apply(s, Answer(e, true)) == a && Apply(a, GiveBack(e)) == OnGiveBack(a, e);
    GiveBackEnds(a, e, conn);
  }

  lemma RunTwo(s: State, v: Event, u: Event)
    ensures Run(s, [v, u]) == Apply(Apply(s, v), u)
  {
    assert [v, u] == [v] + [u];
    RunConcat(s, [v], [u]);
    RunOne(s, v);
    RunOne(Apply(s, v), u);
  }

  /** It ended as the loop does that starts at `s` and round `round`. */
  ghost predicate EndsAlone(s: State, t: State, e: nat, round: nat, w: World) {
    EndsAs(s, t, e, Alone(s.reuse, s.pool, round, s.dialled, w), Made(s.reuse, s.pool, round, s.dialled, w))
  }

  lemma Prefixed(s: State, v: Event, rest: seq<Event>) returns (events: seq<Event>)
    ensures events == [v] + rest && Run(s, events) == Run(Apply(s, v), rest)
  {
    events := [v] + rest;
    RunConcat(s, [v], rest);
    RunOne(s, v);
  }

  /** Past the pooled connections: dial, and use what was dialled. */
  lemma DialIsRun(s: State, e: nat, round: nat, w: World) returns (events: seq<Event>)
    requires e < |s.exchanges| && s.exchanges[e].phase == Top
    requires (!s.reuse || s.pool == []) && !w.cancelled(round)
    ensures forall v :: v in events ==> Own(v, e)
    ensures EndsAlone(s, Run(s, events), e, round, w)
  {
    var t := Apply(s, Take(e));
    if !w.dialOk {
      RunTwo(s, Take(e), Dial(e, false));
      return [Take(e), Dial(e, false)];
    }
    var u := Apply(t, Dial(e, true));
    if w.works(s.dialled) {
      SuccessIsRun(u, e, s.dialled, false);
      events := Prefixed(t, Dial(e, true), [Answer(e, true), GiveBack(e)]);
    } else {
      RunOne(u, Answer(e, false));
      events := Prefixed(t, Dial(e, true), [Answer(e, false)]);
    }
    events := Prefixed(s, Take(e), events);
  }

  /** A pooled connection that works. */
  lemma PooledIsRun(s: State, e: nat, round: nat, w: World) returns (events: seq<Event>)
    requires e < |s.exchanges| && s.exchanges[e].phase == Top
    requires s.reuse && s.pool != [] && !w.cancelled(round) && w.works(Last(s.pool))
    ensures forall v :: v in events ==> Own(v, e)
    ensures EndsAlone(s, Run(s, events), e, round, w)
  {
    var t := Apply(s, Take(e));
    SuccessIsRun(t, e, Last(s.pool), true);
    events := Prefixed(s, Take(e), [Answer(e, true), GiveBack(e)]);
  }

  /** A pooled connection that fails: closed, and back to the top of the loop. */
  function Failed(s: State, e: nat): (u: State)
    requires e < |s.exchanges| && s.exchanges[e].phase == Top && s.reuse && s.pool != []
    ensures |u.exchanges| == |s.exchanges|
    ensures u.exchanges[e] == Exchange(Top, s.exchanges[e].tries + 1, s.exchanges[e].dials)
    ensures u.pool == Init(s.pool) && u.reuse == s.reuse && u.dialled == s.dialled
    ensures u.closing == s.closing && u.closed == s.closed + [Last(s.pool)]
  {
    Apply(Apply(s, Take(e)), Answer(e, false))
  }

  /** The loop run alone is a run of the interleaved machine in which only this exchange moves. */
  lemma {:induction false} AloneIsRun(s: State, e: nat, round: nat, w: World) returns (events: seq<Event>)
    requires e < |s.exchanges| && s.exchanges[e].phase == Top
    ensures forall v :: v in events ==> Own(v, e)
    ensures EndsAlone(s, Run(s, events), e, round, w)
    decreases |s.pool|
  {
    if w.cancelled(round) {
      RunOne(s, Cancel(e));
      return [Cancel(e)];
    }
    if !s.reuse || s.pool == [] {
      events := DialIsRun(s, e, round, w);
    } else if w.works(Last(s.pool)) {
      events := PooledIsRun(s, e, round, w);
    } else {
      var rest := AloneIsRun(Failed(s, e), e, round + 1, w);
      events := FailedIsRun(s, e, round, w, rest);
    }
  }

  lemma FailedIsRun(s: State, e: nat, round: nat, w: World, rest: seq<Event>) returns (events: seq<Event>)
    requires e < |s.exchanges| && s.exchanges[e].phase == Top && s.reuse && s.pool != []
    requires !w.cancelled(round) && !w.works(Last(s.pool)) && forall v :: v in rest ==> Own(v, e)
    requires EndsAlone(Failed(s, e), Run(Failed(s, e), rest), e, round + 1, w)
    ensures forall v :: v in events ==> Own(v, e)
    ensures EndsAlone(s, Run(s, events), e, round, w)
  {
    var later := Prefixed(Apply(s, Take(e)), Answer(e, false), rest);
    events := Prefixed(s, Take(e), later);
    var o := Alone(s.reuse, Init(s.pool), round + 1, s.dialled, w);
    assert (s.closed + [Last(s.pool)]) + o.closed == s.closed + ([Last(s.pool)] + o.closed);
  }
}
