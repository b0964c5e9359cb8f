/** How an uncontended exchange ends, in terms of what the pool held and how the world answers; resets and closes. */
module DotOutcomes {
  import opened DotPool
  import opened Seqs

  /** Round `j` is not cancelled, and the connection it takes fails. */
  ghost predicate FailsAt(pool: seq<nat>, round: nat, w: World, j: nat) {
    j < |pool| && !w.cancelled(round + j) && !w.works(pool[|pool| - 1 - j])
  }

  /** The `k` connections returned last fail, with no cancellation before or between them. */
  ghost predicate Fails(pool: seq<nat>, round: nat, w: World, k: nat) {
    forall j: nat :: j < k ==> FailsAt(pool, round, w, j)
  }

  /** The last `k` of the pool, newest first. */
  function Newest(pool: seq<nat>, k: nat): (r: seq<nat>)
    requires k <= |pool|
    ensures |r| == k && forall j :: 0 <= j < k ==> r[j] == pool[|pool| - 1 - j]
  {
    seq(k, j requires 0 <= j < k => pool[|pool| - 1 - j])
  }

  /**
   The end of an exchange that went through `k` failing connections, which it closed newest first: it is
   cancelled, or the next one works and is back in the pool as before, or a new one is dialled.
   */
  ghost predicate Ends(reuse: bool, pool: seq<nat>, round: nat, next: nat, w: World, k: nat, o: Outcome)
    requires k <= |pool|
  {
    var left, gone := pool[..|pool| - k], Newest(pool, k);
    if w.cancelled(round + k) then o == Outcome(false, left, gone, k, 0)
    else if reuse && left != [] then
      w.works(left[|left| - 1]) && o == Outcome(true, left, gone, k + 1, 0)
    else if !w.dialOk then o == Outcome(false, left, gone, k, 1)
    else if !w.works(next) then o == Outcome(false, left, gone + [next], k + 1, 1)
    else if reuse then o == Outcome(true, [next], gone, k + 1, 1)
    else o == Outcome(true, pool, [next], 1, 1)
  }

  /** Every uncontended exchange ends in one of these ways, without reuse having gone through nothing pooled. */
  lemma {:induction false} AloneEnds(reuse: bool, pool: seq<nat>, round: nat, next: nat, w: World) returns (k: nat)
    requires |pool| <= MAX_OLD_CONNS
    ensures k <= |pool| && Fails(pool, round, w, k) && (!reuse ==> k == 0)
    ensures Ends(reuse, pool, round, next, w, k, Alone(reuse, pool, round, next, w))
    decreases |pool|
  {
    if !w.cancelled(round) && reuse && pool != [] && !w.works(Last(pool)) {
      var rest := AloneEnds(reuse, Init(pool), round + 1, next, w);
      FailsMore(pool, round, w, rest);
      EndsLater(pool, round, next, w, rest);
      k := rest + 1;
    } else {
      EndsNow(reuse, pool, round, next, w);
      k := 0;
    }
  }

  lemma EndsNow(reuse: bool, pool: seq<nat>, round: nat, next: nat, w: World)
    requires |pool| <= MAX_OLD_CONNS && (w.cancelled(round) || !reuse || pool == [] || w.works(Last(pool)))
    ensures Ends(reuse, pool, round, next, w, 0, Alone(reuse, pool, round, next, w))
  {
    assert pool[..|pool|] == pool && Newest(pool, 0) == [];
    if reuse && pool != [] {
      assert Init(pool) + [Last(pool)] == pool;
    } else if reuse {
      assert [] + [next] == [next] && pool + [next] == [next];
    }
  }

  lemma FailsMore(pool: seq<nat>, round: nat, w: World, k: nat)
    requires pool != [] && !w.cancelled(round) && !w.works(Last(pool)) && Fails(Init(pool), round + 1, w, k)
    ensures Fails(pool, round, w, k + 1)
  {
    forall j: nat | j < k + 1 ensures FailsAt(pool, round, w, j) {
      if j > 0 { assert FailsAt(Init(pool), round + 1, w, j - 1); }
    }
  }

  lemma EndsLater(pool: seq<nat>, round: nat, next: nat, w: World, k: nat)
    requires pool != [] && k < |pool| && !w.cancelled(round) && !w.works(Last(pool))
    requires Ends(true, Init(pool), round + 1, next, w, k, Alone(true, Init(pool), round + 1, next, w))
    ensures Ends(true, pool, round, next, w, k + 1, Alone(true, pool, round, next, w))
  {
    var o := Alone(true, Init(pool), round + 1, next, w);
    assert Init(pool)[..|Init(pool)| - k] == pool[..|pool| - (k + 1)];
    assert Newest(pool, k + 1) == [Last(pool)] + Newest(Init(pool), k);
    assert [Last(pool)] + (Newest(Init(pool), k) + [next]) == Newest(pool, k + 1) + [next];
    assert Alone(true, pool, round, next, w) == o.(closed := [Last(pool)] + o.closed, tries := 1 + o.tries);
  }

  // ---- resets ----

  function CloseAll(n: nat): seq<Event> {
    if n == 0 then [] else CloseAll(n - 1) + [CloseLater(0)]
  }

  lemma {:induction false} ClosesSome(s: State, n: nat)
    requires n <= |s.closing|
    ensures Run(s, CloseAll(n)) == s.(closing := s.closing[n..], closed := s.closed + s.closing[..n])
  {
    if n > 0 {
      ClosesSome(s, n - 1);
      assert Init(CloseAll(n)) == CloseAll(n - 1) && Last(CloseAll(n)) == CloseLater(0);
      assert s.closing[..n] == s.closing[..n - 1] + [s.closing[n - 1]];
      assert s.closing[n - 1..][..0] + s.closing[n - 1..][1..] == s.closing[n..];
    } else {
      assert s.closing[0..] == s.closing && s.closed + [] == s.closed;
    }
  }

  /** `u` is `s` with the pool emptied and closed behind what was waiting; no exchange notices. */
  ghost predicate ResetDone(s: State, u: State) {
    && u.pool == [] && u.closing == [] && u.closed == s.closed + s.closing + s.pool
    && u.exchanges == s.exchanges && u.dialled == s.dialled && u.reuse == s.reuse
  }

  lemma ResetThenCloses(s: State)
    requires s.reuse
    ensures ResetDone(s, Run(OnReset(s), CloseAll(|s.closing| + |s.pool|)))
  {
    var r := OnReset(s);
    ClosesSome(r, |r.closing|);
    assert r.closing[|r.closing|..] == [] && r.closing[..|r.closing|] == r.closing;
    assert s.closed + (s.closing + s.pool) == s.closed + s.closing + s.pool;
  }

  lemma RunNext(start: State, events: seq<Event>, v: Event)
    ensures Run(start, events + [v]) == Apply(Run(start, events), v)
  {
    assert Init(events + [v]) == events;
  }

  /**
   In every interleaving a reset, once its background closes have happened, has emptied the pool and closed
   just what was in it, behind what was waiting. Without reuse it does nothing.
   */
  lemma ResetCloses(reuse: bool, events: seq<Event>)
    ensures var s := Run(Fresh(reuse), events);
            var t := Run(Fresh(reuse), events + [Reset]);
            if reuse then ResetDone(s, Run(t, CloseAll(|s.closing| + |s.pool|))) else t == s
  {
    ReuseKept(reuse, events);
    RunNext(Fresh(reuse), events, Reset);
    if reuse { ResetThenCloses(Run(Fresh(reuse), events)); }
  }

  lemma {:induction false} ReuseKept(reuse: bool, events: seq<Event>)
    ensures Run(Fresh(reuse), events).reuse == reuse
  {
    if events != [] {
      ReuseKept(reuse, Init(events));
    }
  }
}
