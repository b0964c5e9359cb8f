/** A `GetProxies` call that nobody disturbs comes to its end. */
module ProviderCalls {
  import opened ProviderProtocol
  import opened Selection
  import opened Seqs

  /** A step of call `c`. */
  predicate Of(e: Event, c: nat) {
    match e
    case Update(_, _) => false
    case Begin(d) => d == c
    case ReadVersion(d) => d == c
    case Enter(d) => d == c
    case ReadProxies(d) => d == c
    case Finish(d) => d == c
  }

  /** The steps taken from `s` on. */
  function Then(setup: Setup, s: State, events: seq<Event>): State
    decreases |events|
  {
    if events == [] then s else Then(setup, Apply(setup, s, events[0]), events[1..])
  }

  lemma {:induction false} RunThen(setup: Setup, contents: seq<seq<Proxy>>, events: seq<Event>, more: seq<Event>)
    ensures Run(setup, contents, events + more) == Then(setup, Run(setup, contents, events), more)
    decreases |more|
  {
    if more == [] {
      assert events + more == events;
    } else {
      var e := more[0];
      assert Init(events + [e]) == events;
      RunThen(setup, contents, events + [e], more[1..]);
      assert events + [e] + more[1..] == events + more;
    }
  }

  /** `t` has the contents of `s`, and call `c` still began when it did. */
  ghost predicate Moved(s: State, t: State, c: nat) {
    && t.history == s.history && c in s.calls && c in t.calls && t.calls[c].start == s.calls[c].start
  }

  /** What a finished call handed out is what is cached under the versions it read, unless nothing came of them. */
  ghost predicate Stored(setup: Setup, t: State, c: nat) {
    && c in t.calls && t.calls[c].phase.Done?
    && var Done(seen, got, list) := t.calls[c].phase;
       || (t.cache.versions == seen && t.cache.list == list)
       || (Readable(setup, t.history, got) && Answer(setup, t.history, got) == [])
  }

  /** The steps are all of call `c`, and end it. */
  ghost predicate EndsCall(setup: Setup, s: State, c: nat, events: seq<Event>) {
    && (forall e :: e in events ==> Of(e, c))
    && var t := Then(setup, s, events);
       Moved(s, t, c) && t.holder == None && Stored(setup, t, c)
  }

  lemma FirstStep(setup: Setup, s: State, c: nat, e: Event, rest: seq<Event>)
    requires Of(e, c) && Moved(s, Apply(setup, s, e), c) && EndsCall(setup, Apply(setup, s, e), c, rest)
    ensures EndsCall(setup, s, c, [e] + rest)
  {
    var events := [e] + rest;
    assert events[0] == e && events[1..] == rest;
  }

  // ---- computing ----

  /** How many reads of the present provider are left. */
  function ReadsLeft(setup: Setup, phase: Phase): int {
    if phase.Computing? && |phase.got| < setup.Size() then setup.Reads(|phase.got|) - |phase.part| else 0
  }

  ghost predicate IsComputing(setup: Setup, s: State, c: nat) {
    c in s.calls && s.calls[c].phase.Computing? && |s.calls[c].phase.got| <= setup.Size()
  }

  lemma ReadsOne(setup: Setup, s: State, c: nat)
    requires Inv(setup, s) && IsComputing(setup, s, c) && |s.calls[c].phase.got| < setup.Size()
    ensures var t := Apply(setup, s, ReadProxies(c));
            && Moved(s, t, c) && IsComputing(setup, t, c)
            && var before, after := s.calls[c].phase, t.calls[c].phase;
               || |after.got| == |before.got| + 1
               || (|after.got| == |before.got| && 0 <= ReadsLeft(setup, after) < ReadsLeft(setup, before))
  {
    assert CallInv(setup, s, c, s.calls[c]);
  }

  lemma Finishes(setup: Setup, s: State, c: nat)
    requires Inv(setup, s) && IsComputing(setup, s, c) && |s.calls[c].phase.got| == setup.Size()
    ensures EndsCall(setup, s, c, [Finish(c)])
  {
    assert CallInv(setup, s, c, s.calls[c]);
    var t := Apply(setup, s, Finish(c));
    assert Moved(s, t, c) && t.holder == None && Stored(setup, t, c);
    assert Then(setup, t, []) == t;
    assert [Finish(c)] + [] == [Finish(c)];
    FirstStep(setup, s, c, Finish(c), []);
  }

  lemma {:induction false} Computes(setup: Setup, s: State, c: nat) returns (more: seq<Event>)
    requires Inv(setup, s) && IsComputing(setup, s, c)
    ensures EndsCall(setup, s, c, more)
    decreases setup.Size() - |s.calls[c].phase.got|, ReadsLeft(setup, s.calls[c].phase)
  {
    if |s.calls[c].phase.got| == setup.Size() {
      Finishes(setup, s, c);
      more := [Finish(c)];
    } else {
      ReadsOne(setup, s, c);
      ApplyKeepsInv(setup, s, ReadProxies(c));
      var rest := Computes(setup, Apply(setup, s, ReadProxies(c)), c);
      FirstStep(setup, s, c, ReadProxies(c), rest);
      more := [ReadProxies(c)] + rest;
    }
  }

  // ---- reading the versions ----

  ghost predicate IsReading(setup: Setup, s: State, c: nat) {
    c in s.calls && s.calls[c].phase.Reading? && s.holder == None && |s.calls[c].phase.seen| <= setup.Size()
  }

  lemma Enters(setup: Setup, s: State, c: nat) returns (more: seq<Event>)
    requires Inv(setup, s) && IsReading(setup, s, c) && |s.calls[c].phase.seen| == setup.Size()
    ensures EndsCall(setup, s, c, more)
  {
    var t := Apply(setup, s, Enter(c));
    ApplyKeepsInv(setup, s, Enter(c));
    assert Moved(s, t, c);
    var rest: seq<Event> := [];
    if t.calls[c].phase.Computing? {
      assert IsComputing(setup, t, c);
      rest := Computes(setup, t, c);
    } else {
      assert Then(setup, t, []) == t;
    }
    FirstStep(setup, s, c, Enter(c), rest);
    more := [Enter(c)] + rest;
  }

  lemma LooksOne(setup: Setup, s: State, c: nat)
    requires Inv(setup, s) && IsReading(setup, s, c) && |s.calls[c].phase.seen| < setup.Size()
    ensures var t := Apply(setup, s, ReadVersion(c));
            Moved(s, t, c) && IsReading(setup, t, c) && |t.calls[c].phase.seen| == |s.calls[c].phase.seen| + 1
  {
    assert CallInv(setup, s, c, s.calls[c]);
  }

  lemma {:induction false} Looks(setup: Setup, s: State, c: nat) returns (more: seq<Event>)
    requires Inv(setup, s) && IsReading(setup, s, c)
    ensures EndsCall(setup, s, c, more)
    decreases setup.Size() - |s.calls[c].phase.seen|
  {
    if |s.calls[c].phase.seen| == setup.Size() {
      more := Enters(setup, s, c);
    } else {
      LooksOne(setup, s, c);
      ApplyKeepsInv(setup, s, ReadVersion(c));
      var rest := Looks(setup, Apply(setup, s, ReadVersion(c)), c);
      FirstStep(setup, s, c, ReadVersion(c), rest);
      more := [ReadVersion(c)] + rest;
    }
  }

  lemma Begins(setup: Setup, s: State, c: nat)
    requires Inv(setup, s) && s.holder == None && (c !in s.calls || s.calls[c].phase.Done?)
    ensures var t := Apply(setup, s, Begin(c));
            t.history == s.history && IsReading(setup, t, c) && t.calls[c].start == Versions(t)
  {
  }

  /** A whole call by itself, from a free mutex. */
  lemma Calls(setup: Setup, s: State, c: nat) returns (more: seq<Event>)
    requires Inv(setup, s) && s.holder == None && (c !in s.calls || s.calls[c].phase.Done?)
    ensures forall e :: e in more ==> Of(e, c)
    ensures var t := Then(setup, s, more);
            && t.history == s.history && t.holder == None && Stored(setup, t, c)
            && t.calls[c].start == Versions(t)
  {
    var b := Apply(setup, s, Begin(c));
    Begins(setup, s, c);
    ApplyKeepsInv(setup, s, Begin(c));
    var rest := Looks(setup, b, c);
    more := [Begin(c)] + rest;
    assert more[0] == Begin(c) && more[1..] == rest;
  }

  lemma SeenIsCurrent(setup: Setup, t: State, call: Call)
    requires |call.start| == setup.Size() == |t.history| && call.start == Versions(t)
    requires Known(t, call.phase.seen) && AtLeast(call.phase.seen, call.start) && |call.phase.seen| == setup.Size()
    ensures call.phase.seen == Versions(t)
  {
  }

  /** What a finished call read, as `NeverStale` has it. */
  ghost predicate ReadAll(setup: Setup, t: State, call: Call) {
    && call.phase.Done? && Readable(setup, t.history, call.phase.got) && Complete(setup, call.phase.got)
    && |call.phase.seen| == setup.Size() && AtLeast(call.phase.seen, call.start)
    && Known(t, call.phase.seen) && Since(t, call.phase.seen, call.phase.got)
  }

  lemma ReadsAll(setup: Setup, contents: seq<seq<Proxy>>, events: seq<Event>, c: nat)
    requires |contents| == setup.Size()
    requires var t := Run(setup, contents, events); c in t.calls && t.calls[c].phase.Done?
    ensures var t := Run(setup, contents, events); Inv(setup, t) && ReadAll(setup, t, t.calls[c])
  {
    var t := Run(setup, contents, events);
    RunKeepsInv(setup, contents, events);
    NeverStale(setup, contents, events, c);
    assert CallInv(setup, t, c, t.calls[c]);
  }

  /** A finished call with no update since it began left the full recomputation in the cache, unless that is empty. */
  lemma QuietCallStores(setup: Setup, t: State, c: nat)
    requires Inv(setup, t) && Stored(setup, t, c) && t.calls[c].start == Versions(t) && ReadAll(setup, t, t.calls[c])
    requires setup.Size() > 0
    requires t.calls[c].phase.list == OrFallback(setup, Compute(setup.cfg, Contents(setup, t)))
    ensures Compute(setup.cfg, Contents(setup, t)) != [] ==>
              t.cache.versions == Versions(t) && t.cache.list == Compute(setup.cfg, Contents(setup, t))
  {
    AnswerCurrent(setup, t, t.calls[c]);
    assert |t.calls[c].start| == setup.Size() by {
      assert CallInv(setup, t, c, t.calls[c]);
    }
    SeenIsCurrent(setup, t, t.calls[c]);
  }

  /**
   Whenever the mutex is free, in whatever interleaving, a call that then runs by itself comes to its end
   and hands out the full recomputation, which it leaves in the cache, or the fallback if that is empty.
   */
  lemma CallCompletes(setup: Setup, contents: seq<seq<Proxy>>, events: seq<Event>, c: nat) returns (more: seq<Event>)
    requires |contents| == setup.Size()
    requires var s := Run(setup, contents, events); s.holder == None && (c !in s.calls || s.calls[c].phase.Done?)
    ensures forall e :: e in more ==> Of(e, c)
    ensures var s, t := Run(setup, contents, events), Run(setup, contents, events + more);
            && t.history == s.history && t.holder == None && c in t.calls && t.calls[c].phase.Done?
            && Inv(setup, t)
            && var now := Compute(setup.cfg, Contents(setup, t));
               && t.calls[c].phase.list == (if setup.Size() == 0 then [] else OrFallback(setup, now))
               && (setup.Size() > 0 && now != [] ==> t.cache.versions == Versions(t) && t.cache.list == now)
  {
    RunKeepsInv(setup, contents, events);
    more := Calls(setup, Run(setup, contents, events), c);
    RunThen(setup, contents, events, more);
    QuietCallIsCurrent(setup, contents, events + more, c);
    ReadsAll(setup, contents, events + more, c);
    if setup.Size() > 0 { QuietCallStores(setup, Run(setup, contents, events + more), c); }
    EmptyExactlyWithoutProviders(setup, contents, events + more, c);
  }

  // ---- a call that finds the cache up to date ----

  lemma {:induction false} LooksAndHits(setup: Setup, s: State, c: nat) returns (more: seq<Event>)
    requires Inv(setup, s) && IsReading(setup, s, c)
    requires s.cache.versions == Versions(s) && s.calls[c].phase.seen <= s.cache.versions
    ensures EndsCall(setup, s, c, more) && |more| == setup.Size() - |s.calls[c].phase.seen| + 1
    ensures Then(setup, s, more).calls[c].phase.list == s.cache.list && Then(setup, s, more).cache == s.cache
    decreases setup.Size() - |s.calls[c].phase.seen|
  {
    if |s.calls[c].phase.seen| == setup.Size() {
      more := EntersHit(setup, s, c);
    } else {
      LooksOne(setup, s, c);
      ApplyKeepsInv(setup, s, ReadVersion(c));
      var rest := LooksAndHits(setup, Apply(setup, s, ReadVersion(c)), c);
      FirstStep(setup, s, c, ReadVersion(c), rest);
      more := [ReadVersion(c)] + rest;
      assert more[1..] == rest;
    }
  }

  lemma EntersHit(setup: Setup, s: State, c: nat) returns (more: seq<Event>)
    requires IsReading(setup, s, c) && s.cache.versions == s.calls[c].phase.seen
    requires |s.calls[c].phase.seen| == setup.Size()
    ensures EndsCall(setup, s, c, more) && |more| == 1
    ensures Then(setup, s, more).calls[c].phase.list == s.cache.list && Then(setup, s, more).cache == s.cache
  {
    var t := Apply(setup, s, Enter(c));
    more := [Enter(c)];
    assert more[1..] == [] && Then(setup, t, []) == t && Then(setup, s, more) == t;
  }

  /**
   If the cache was stored under the present versions, a call by itself hands out what is cached, after one
   look at each version and one at the cache: it reads no provider and computes nothing.
   */
  lemma CurrentCacheHits(setup: Setup, s: State, c: nat) returns (more: seq<Event>)
    requires Inv(setup, s) && s.holder == None && (c !in s.calls || s.calls[c].phase.Done?)
    requires s.cache.versions == Versions(s)
    ensures (forall e :: e in more ==> Of(e, c)) && |more| == setup.Size() + 2
    ensures var t := Then(setup, s, more);
            && c in t.calls && t.calls[c].phase.Done? && t.calls[c].phase.list == s.cache.list
            && t.history == s.history && t.cache == s.cache && t.holder == None
  {
    var b := Apply(setup, s, Begin(c));
    Begins(setup, s, c);
    ApplyKeepsInv(setup, s, Begin(c));
    var rest := LooksAndHits(setup, b, c);
    more := [Begin(c)] + rest;
    assert more[0] == Begin(c) && more[1..] == rest;
  }
}
