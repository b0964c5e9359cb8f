/** What becomes of a packet handed to Send: when it enters the channel, and when it is dropped. */
module SendOutcomes {
  import Counting
  import opened PacketSender
  import opened Seqs

  /**
   The step at which Send gives packet n up: a first look at a closed sender, or a second one at a closed
   sender or a full channel.
   */
  ghost predicate Refuses(s: State, v: Event, n: nat) {
    match v
    case Check(m) => m == n && n < |s.sends| && s.sends[n] == Entered && s.cancelled
    case Choose(m, _) => m == n && n < |s.sends| && s.sends[n] == Checked && (s.cancelled || |s.ch| == SENDER_CAPACITY)
    case _ => false
  }

  /** Some step of the run gave packet n up. */
  ghost predicate Refused(events: seq<Event>, n: nat) {
    exists i :: 0 <= i < |events| && RefusedAt(events, n, i)
  }

  /** Step i did, and logged no channel send. */
  ghost predicate RefusedAt(events: seq<Event>, n: nat, i: nat)
    requires i < |events|
  {
    Refuses(Run(events[..i]), events[i], n) && Run(events[..i + 1]).enqueued == Run(events[..i]).enqueued
  }

  lemma RefusedLater(events: seq<Event>, n: nat)
    requires events != []
    ensures Refused(events, n) <==> Refused(Init(events), n) || RefusedAt(events, n, |events| - 1)
  {
    var before := Init(events);
    forall i | 0 <= i < |before| ensures RefusedAt(before, n, i) <==> RefusedAt(events, n, i) {
      assert before[..i] == events[..i] && before[..i + 1] == events[..i + 1];
    }
    if i :| 0 <= i < |before| && RefusedAt(before, n, i) {
      assert RefusedAt(events, n, i);
    }
    if i :| 0 <= i < |events| - 1 && RefusedAt(events, n, i) {
      assert RefusedAt(before, n, i);
    }
  }

  /**
   Exactly one of the two befalls a packet whose Send has returned: it entered the channel, or Send gave it
   up, on a closed sender or a full channel. Before that, neither.
   */
  lemma {:induction false} EnteredOrRefused(events: seq<Event>, n: nat)
    ensures var s := Run(events);
            && (n < |s.sends| && s.sends[n] == Sent <==> n in s.enqueued || Refused(events, n))
            && !(n in s.enqueued && Refused(events, n))
  {
    if events != [] {
      EnteredOrRefused(Init(events), n);
      RefusedLater(events, n);
      assert events[..|events| - 1] == Init(events) && events[..|events|] == events;
      NotYetSent(Init(events), n);
    }
  }

  lemma NotYetSent(events: seq<Event>, n: nat)
    ensures var s := Run(events);
            |s.ch| <= SENDER_CAPACITY && (n >= |s.sends| || s.sends[n] != Sent ==> n !in s.enqueued)
  {
    RunKeepsInv(events);
    var s := Run(events);
    Counting.CountMember(s.enqueued, n);
    assert Counting.Count(s.enqueued, n) + Pending(s, n) <= if n < |s.sends| then 1 else 0;
  }

  /** The sender is closed exactly when the run has a Cancel. */
  lemma {:induction false} CancelledExactly(events: seq<Event>)
    ensures Run(events).cancelled <==> Cancel in events
  {
    if events != [] {
      CancelledExactly(Init(events));
      assert events == Init(events) + [Last(events)];
    }
  }

  /** How many packets were handed to Send. */
  function Sends(events: seq<Event>): nat {
    if events == [] then 0 else Sends(events[..|events| - 1]) + if events[|events| - 1] == Send then 1 else 0
  }

  lemma {:induction false} SendsCounted(events: seq<Event>)
    ensures |Run(events).sends| == Sends(events)
  {
    if events != [] {
      SendsCounted(Init(events));
    }
  }

  lemma {:induction false} SendsGrow(events: seq<Event>, i: nat)
    requires i <= |events|
    ensures Sends(events[..i]) <= Sends(events)
    decreases |events| - i
  {
    if i < |events| {
      assert Init(events[..i + 1]) == events[..i];
      SendsGrow(events, i + 1);
    } else {
      assert events[..i] == events;
    }
  }

  lemma BelowSize(q: seq<nat>, n: nat)
    requires NoDup(q) && forall x :: x in q ==> x < n
    ensures |q| <= n
  {
    NoDupSize(q);
    var below := Below(n);
    assert Members(q) <= below;
    SubsetSize(Members(q), below);
  }

  function Below(n: nat): (r: set<nat>)
    ensures |r| == n && forall x: nat :: x in r <==> x < n
  {
    if n == 0 then {} else Below(n - 1) + {n - 1}
  }

  /** While the channel is full, as many packets entered it as it holds, and the one in question did not. */
  lemma FullNeedsSends(events: seq<Event>, n: nat)
    requires var s := Run(events); |s.ch| == SENDER_CAPACITY && n < |s.sends| && s.sends[n] == Checked
    ensures |Run(events).sends| > SENDER_CAPACITY
  {
    var s := Run(events);
    ReceivedInSendOrder(events);
    RunKeepsInv(events);
    NotYetSent(events, n);
    forall m | m in s.enqueued ensures m < |s.sends| {
      NotYetSent(events, m);
    }
    var q := s.enqueued + [n];
    assert NoDup(q);
    BelowSize(q, |s.sends|);
  }

  /**
   In every run in which nobody cancels and at most 128 packets are handed to Send, whatever Process does,
   each packet whose Send has returned entered the channel.
   */
  lemma NothingRefused(events: seq<Event>, n: nat)
    requires Cancel !in events && Sends(events) <= SENDER_CAPACITY
    ensures var s := Run(events); n < |s.sends| && s.sends[n] == Sent ==> n in s.enqueued
  {
    EnteredOrRefused(events, n);
    if Refused(events, n) {
      var i :| 0 <= i < |events| && RefusedAt(events, n, i);
      CancelledExactly(events[..i]);
      FullNeedsSends(events[..i], n);
      SendsCounted(events[..i]);
      SendsGrow(events, i);
    }
  }

  // ---- calls that run alone ----

  lemma RunNext(events: seq<Event>, v: Event)
    ensures Run(events + [v]) == Apply(Run(events), v)
  {
    assert Init(events + [v]) == events;
  }

  /**
   A Send of which nothing comes in between: an open sender with room takes the packet, and a closed or a
   full one drops it.
   */
  lemma SendAlone(events: seq<Event>, enqueue: bool)
    ensures var s := Run(events);
            var n := |s.sends|;
            var t := Run(events + [Send, Check(n), Choose(n, enqueue)]);
            && t.sends == s.sends + [Sent]
            && if !s.cancelled && |s.ch| < SENDER_CAPACITY then t.ch == s.ch + [n] && t.dropped == s.dropped
               else t.ch == s.ch && t.dropped == s.dropped + [n]
  {
    var n := |Run(events).sends|;
    RunThree(events, Send, Check(n), Choose(n, enqueue));
    SendSteps(Run(events), enqueue);
  }

  lemma RunTwo(events: seq<Event>, u: Event, v: Event)
    ensures Run(events + [u, v]) == Apply(Apply(Run(events), u), v)
  {
    RunNext(events, u);
    RunNext(events + [u], v);
    assert events + [u, v] == events + [u] + [v];
  }

  lemma RunThree(events: seq<Event>, u: Event, v: Event, w: Event)
    ensures Run(events + [u, v, w]) == Apply(Apply(Apply(Run(events), u), v), w)
  {
    RunTwo(events, u, v);
    RunNext(events + [u, v], w);
    assert events + [u, v, w] == events + [u, v] + [w];
  }

  lemma SendSteps(s: State, enqueue: bool)
    ensures var n := |s.sends|;
            var t := Apply(Apply(Apply(s, Send), Check(n)), Choose(n, enqueue));
            && t.sends == s.sends + [Sent]
            && if !s.cancelled && |s.ch| < SENDER_CAPACITY then t.ch == s.ch + [n] && t.dropped == s.dropped
               else t.ch == s.ch && t.dropped == s.dropped + [n]
  {
  }

  function Times(v: seq<Event>, k: nat): seq<Event> {
    if k == 0 then [] else Times(v, k - 1) + v
  }

  /** The state after `k` turns of a loop that runs `f`. */
  function Turns(s: State, f: State -> State, k: nat): State {
    if k == 0 then s else f(Turns(s, f, k - 1))
  }

  function DropTurn(s: State): State {
    Apply(s, DropOne)
  }

  function ProcessTurn(s: State): State {
    Apply(Apply(s, Receive), Processed)
  }

  lemma {:induction false} DropRun(events: seq<Event>, k: nat)
    ensures Run(events + Times([DropOne], k)) == Turns(Run(events), DropTurn, k)
  {
    if k == 0 {
      assert events + [] == events;
    } else {
      DropRun(events, k - 1);
      RunNext(events + Times([DropOne], k - 1), DropOne);
      assert events + Times([DropOne], k) == events + Times([DropOne], k - 1) + [DropOne];
    }
  }

  lemma {:induction false} ProcessRun(events: seq<Event>, k: nat)
    ensures Run(events + Times([Receive, Processed], k)) == Turns(Run(events), ProcessTurn, k)
  {
    if k == 0 {
      assert events + [] == events;
    } else {
      ProcessRun(events, k - 1);
      var before := events + Times([Receive, Processed], k - 1);
      RunTwo(before, Receive, Processed);
      assert events + Times([Receive, Processed], k) == before + [Receive, Processed];
    }
  }

  /** From `s` to `t` the first `k` packets of the channel were dropped, in order. */
  ghost predicate Emptied(s: State, t: State, k: nat) {
    k <= |s.ch| && t.ch == s.ch[k..] && t.dropped == s.dropped + s.ch[..k]
  }

  lemma EmptiedMore(s: State, m: State, t: State, k: nat)
    requires Emptied(s, m, k) && k < |s.ch| && t.ch == m.ch[1..] && t.dropped == m.dropped + [m.ch[0]]
    ensures Emptied(s, t, k + 1)
  {
    assert s.ch[..k + 1] == s.ch[..k] + [s.ch[k]];
  }

  lemma {:induction false} DropsSome(s: State, k: nat)
    requires s.cancelled && k <= |s.ch|
    ensures var t := Turns(s, DropTurn, k); Emptied(s, t, k) && t.cancelled && t.received == s.received
  {
    if k > 0 {
      DropsSome(s, k - 1);
      var m := Turns(s, DropTurn, k - 1);
      EmptiedMore(s, m, DropTurn(m), k - 1);
    }
  }

  /** On a closed sender dropAll alone empties the channel and drops what was in it, in order, each once. */
  lemma DropAllEmpties(events: seq<Event>)
    requires Run(events).cancelled
    ensures var s, t := Run(events), Run(events + Times([DropOne], |Run(events).ch|));
            t.ch == [] && t.dropped == s.dropped + s.ch && t.received == s.received
  {
    DropRun(events, |Run(events).ch|);
    DropsSome(Run(events), |Run(events).ch|);
  }

  /** `t` has received what `s` had, and then the `k` places after those taken. */
  ghost predicate ReceivedNext(s: State, t: State, k: nat) {
    && t.processing == None && t.taken == s.taken + k
    && |t.received| == |s.received| + k && s.received <= t.received
    && forall i :: |s.received| <= i < |t.received| ==> t.received[i] == s.taken + i - |s.received|
  }

  lemma ReceivedMore(s: State, m: State, t: State, k: nat)
    requires ReceivedNext(s, m, k) && t.received == m.received + [m.taken] && t.taken == m.taken + 1
    requires t.processing == None
    ensures ReceivedNext(s, t, k + 1)
  {
  }

  lemma ProcessesOne(s: State)
    requires s.processing == None && s.ch != []
    ensures var t := ProcessTurn(s);
            && t.ch == s.ch[1..] && t.dropped == s.dropped + [s.ch[0]] && t.processing == None
            && t.taken == s.taken + 1 && t.received == s.received + [s.taken]
  {
  }

  lemma {:induction false} ProcessesSome(s: State, k: nat)
    requires s.processing == None && k <= |s.ch|
    ensures var t := Turns(s, ProcessTurn, k); Emptied(s, t, k) && ReceivedNext(s, t, k)
  {
    if k > 0 {
      ProcessesSome(s, k - 1);
      var m := Turns(s, ProcessTurn, k - 1);
      ProcessesOne(m);
      EmptiedMore(s, m, ProcessTurn(m), k - 1);
      ReceivedMore(s, m, ProcessTurn(m), k - 1);
    }
  }

  /** `t` has received all that `s` had queued, in order, and released each packet once. */
  ghost predicate AllProcessed(s: State, t: State) {
    && t.ch == [] && t.dropped == s.dropped + s.ch && t.processing == None
    && |t.received| == |s.received| + |s.ch| && s.received <= t.received
    && forall i :: |s.received| <= i < |t.received| ==>
         t.received[i] < |s.enqueued| && s.enqueued[t.received[i]] == s.ch[i - |s.received|]
  }

  lemma ProcessesAll(s: State)
    requires s.processing == None && s.taken <= |s.enqueued| && s.ch == s.enqueued[s.taken..]
    ensures AllProcessed(s, Turns(s, ProcessTurn, |s.ch|))
  {
    ProcessesSome(s, |s.ch|);
    var t := Turns(s, ProcessTurn, |s.ch|);
    assert s.ch[..|s.ch|] == s.ch && s.ch[|s.ch|..] == [];
    forall i | |s.received| <= i < |t.received|
      ensures t.received[i] < |s.enqueued| && s.enqueued[t.received[i]] == s.ch[i - |s.received|]
    {
      assert t.received[i] == s.taken + (i - |s.received|);
    }
  }

  /** Process alone receives all that is queued, in order, and releases each packet once. */
  lemma ProcessEmpties(events: seq<Event>)
    requires Run(events).processing == None
    ensures var s := Run(events); AllProcessed(s, Run(events + Times([Receive, Processed], |s.ch|)))
  {
    RunKeepsInv(events);
    ProcessRun(events, |Run(events).ch|);
    ProcessesAll(Run(events));
  }
}
