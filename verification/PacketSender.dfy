/** The UDP packet sender: Send, Process and Close interleaved, one step per channel operation. */
module PacketSender {
  import opened Counting
  import opened Seqs

  const SENDER_CAPACITY := 128

  /** A Send call: before its first look at the context, between the two selects, finished. */
  datatype Sending = Entered | Checked | Sent

  /**
   Packet n is the argument of the n-th Send call. `enqueued` logs the channel sends in order, `taken`
   counts the channel receives, `received` holds the positions in `enqueued` that Process received,
   `dropped` the Drop calls in order.
   */
  datatype State = State(
    cancelled: bool, ch: seq<nat>, sends: seq<Sending>, processing: Option<nat>,
    enqueued: seq<nat>, taken: nat, received: seq<nat>, dropped: seq<nat>)

  datatype Event =
    | Send
    | Check(packet: nat)
    | Choose(packet: nat, enqueue: bool)
    | Receive
    | Processed
    | Cancel
    | DropOne

  function Fresh(): State {
    State(false, [], [], None, [], 0, [], [])
  }

  function SetSending(s: State, n: nat, x: Sending): State
    requires n < |s.sends|
  {
    s.(sends := s.sends[n := x])
  }

  function Drop(s: State, n: nat): State {
    s.(dropped := s.dropped + [n])
  }

  /** The first select of Send: a closed sender drops at once. */
  function OnCheck(s: State, n: nat): State {
    if n >= |s.sends| || s.sends[n] != Entered then s
    else if s.cancelled then Drop(SetSending(s, n, Sent), n)
    else SetSending(s, n, Checked)
  }

  /**
   The second select: with room and a closed context either branch may be taken; without room the packet
   is dropped, whether for the context or by default.
   */
  function OnChoose(s: State, n: nat, enqueue: bool): State {
    if n >= |s.sends| || s.sends[n] != Checked then s
    else if |s.ch| < SENDER_CAPACITY && (enqueue || !s.cancelled)
    then SetSending(s, n, Sent).(ch := s.ch + [n], enqueued := s.enqueued + [n])
    else Drop(SetSending(s, n, Sent), n)
  }

  /** Process takes the oldest packet. */
  function OnReceive(s: State): State {
    if s.processing.Some? || s.ch == [] then s
    else s.(ch := s.ch[1..], processing := Some(s.ch[0]), taken := s.taken + 1, received := s.received + [s.taken])
  }

  /** The deferred Drop at the end of processPacket. */
  function OnProcessed(s: State): State {
    if s.processing.None? then s else Drop(s.(processing := None), s.processing.value)
  }

  /** One turn of dropAll, after the context is cancelled. */
  function OnDropOne(s: State): State {
    if !s.cancelled || s.ch == [] then s
    else Drop(s.(ch := s.ch[1..], taken := s.taken + 1), s.ch[0])
  }

  function Apply(s: State, v: Event): State {
    match v
    case Send => s.(sends := s.sends + [Entered])
    case Check(n) => OnCheck(s, n)
    case Choose(n, enqueue) => OnChoose(s, n, enqueue)
    case Receive => OnReceive(s)
    case Processed => OnProcessed(s)
    case Cancel => s.(cancelled := true)
    case DropOne => OnDropOne(s)
  }

  function Run(events: seq<Event>): State {
    if events == [] then Fresh() else Apply(Run(Init(events)), Last(events))
  }

  // ---- where a packet is ----

  function Pending(s: State, n: nat): nat {
    if n < |s.sends| && s.sends[n] != Sent then 1 else 0
  }

  function InHand(s: State, n: nat): nat {
    if s.processing == Some(n) then 1 else 0
  }

  function Places(s: State, n: nat): nat {
    Pending(s, n) + Count(s.ch, n) + InHand(s, n) + Count(s.dropped, n)
  }

  /** Every packet handed to Send is in exactly one place; the channel is what was sent less what was taken. */
  ghost predicate Inv(s: State) {
    && (forall n: nat :: Places(s, n) == if n < |s.sends| then 1 else 0)
    && (forall n: nat :: Count(s.enqueued, n) + Pending(s, n) <= if n < |s.sends| then 1 else 0)
    && |s.ch| <= SENDER_CAPACITY
    && s.taken <= |s.enqueued| && s.ch == s.enqueued[s.taken..]
    && (forall i :: 0 <= i < |s.received| ==> s.received[i] < s.taken)
    && (forall i, j :: 0 <= i < j < |s.received| ==> s.received[i] < s.received[j])
    && (s.processing.Some? ==> InProcess(s, s.processing.value))
  }

  /** `n` is the packet received last. */
  ghost predicate InProcess(s: State, n: nat) {
    s.received != [] && Last(s.received) < |s.enqueued| && s.enqueued[Last(s.received)] == n
  }

  // ---- every step keeps it ----

  lemma DropKeeps(s: State, t: State, n: nat)
    requires t.dropped == s.dropped + [n]
    ensures forall m: nat :: Count(t.dropped, m) == Count(s.dropped, m) + if m == n then 1 else 0
  {
    forall m: nat ensures Count(t.dropped, m) == Count(s.dropped, m) + if m == n then 1 else 0 {
      CountAppend(s.dropped, n, m);
    }
  }

  lemma SendKeepsInv(s: State)
    requires Inv(s)
    ensures Inv(Apply(s, Send))
  {
    var t := Apply(s, Send);
    forall n: nat ensures Places(t, n) == Places(s, n) + if n == |s.sends| then 1 else 0 {
    }
    forall n: nat ensures Count(t.enqueued, n) + Pending(t, n) <= if n < |t.sends| then 1 else 0 {
      assert Count(s.enqueued, n) + Pending(s, n) <= if n < |s.sends| then 1 else 0;
    }
  }

  /** Choose took the channel branch. */
  lemma EnqueueKeepsInv(s: State, t: State, n: nat)
    requires Inv(s) && n < |s.sends| && s.sends[n] == Checked && |s.ch| < SENDER_CAPACITY
    requires t == SetSending(s, n, Sent).(ch := s.ch + [n], enqueued := s.enqueued + [n])
    ensures Inv(t)
  {
    forall m: nat ensures Places(t, m) == if m < |t.sends| then 1 else 0 {
      assert Places(s, m) == if m < |s.sends| then 1 else 0;
      CountAppend(s.ch, n, m);
    }
    forall m: nat ensures Count(t.enqueued, m) + Pending(t, m) <= if m < |t.sends| then 1 else 0 {
      assert Count(s.enqueued, m) + Pending(s, m) <= if m < |s.sends| then 1 else 0;
      CountAppend(s.enqueued, n, m);
    }
  }

  /** A Send that drops its packet, at either select. */
  lemma SendDropKeepsInv(s: State, t: State, n: nat)
    requires Inv(s) && n < |s.sends| && s.sends[n] != Sent && t == Drop(SetSending(s, n, Sent), n)
    ensures Inv(t)
  {
    forall m: nat ensures Places(t, m) == if m < |t.sends| then 1 else 0 {
      assert Places(s, m) == if m < |s.sends| then 1 else 0;
      CountAppend(s.dropped, n, m);
    }
    forall m: nat ensures Count(t.enqueued, m) + Pending(t, m) <= if m < |t.sends| then 1 else 0 {
      assert Count(s.enqueued, m) + Pending(s, m) <= if m < |s.sends| then 1 else 0;
    }
  }

  lemma CheckKeepsInv(s: State, n: nat)
    requires Inv(s)
    ensures Inv(OnCheck(s, n))
  {
    var t := OnCheck(s, n);
    if n < |s.sends| && s.sends[n] == Entered {
      if s.cancelled {
        SendDropKeepsInv(s, t, n);
      } else {
        forall m: nat ensures Places(t, m) == Places(s, m) && Pending(t, m) == Pending(s, m) {
        }
        forall m: nat ensures Count(t.enqueued, m) + Pending(t, m) <= if m < |t.sends| then 1 else 0 {
          assert Count(s.enqueued, m) + Pending(s, m) <= if m < |s.sends| then 1 else 0;
        }
      }
    }
  }

  lemma ChooseKeepsInv(s: State, n: nat, enqueue: bool)
    requires Inv(s)
    ensures Inv(OnChoose(s, n, enqueue))
  {
    var t := OnChoose(s, n, enqueue);
    if n < |s.sends| && s.sends[n] == Checked {
      if |s.ch| < SENDER_CAPACITY && (enqueue || !s.cancelled) {
        EnqueueKeepsInv(s, t, n);
      } else {
        SendDropKeepsInv(s, t, n);
      }
    }
  }

  /** Either receiver takes the front of the channel. */
  lemma FrontTaken(s: State, t: State)
    requires Inv(s) && s.ch != [] && t.ch == s.ch[1..] && t.sends == s.sends && t.enqueued == s.enqueued
    requires t.taken == s.taken + 1
    requires forall m: nat ::
               InHand(t, m) + Count(t.dropped, m) == InHand(s, m) + Count(s.dropped, m) + if m == s.ch[0] then 1 else 0
    requires forall i :: 0 <= i < |t.received| ==> t.received[i] < t.taken
    requires forall i, j :: 0 <= i < j < |t.received| ==> t.received[i] < t.received[j]
    requires t.processing.Some? ==> InProcess(t, t.processing.value)
    ensures Inv(t)
  {
    forall m: nat ensures Places(t, m) == if m < |t.sends| then 1 else 0 {
      assert Places(s, m) == if m < |s.sends| then 1 else 0;
      CountFront(s.ch, m);
    }
    forall m: nat ensures Count(t.enqueued, m) + Pending(t, m) <= if m < |t.sends| then 1 else 0 {
      assert Count(s.enqueued, m) + Pending(s, m) <= if m < |s.sends| then 1 else 0;
    }
  }

  lemma ReceiveKeepsInv(s: State)
    requires Inv(s)
    ensures Inv(OnReceive(s))
  {
    if OnReceive(s) != s { FrontTaken(s, OnReceive(s)); }
  }

  lemma DropOneKeepsInv(s: State)
    requires Inv(s)
    ensures Inv(OnDropOne(s))
  {
    var t := OnDropOne(s);
    if s.cancelled && s.ch != [] {
      DropKeeps(s, t, s.ch[0]);
      FrontTaken(s, t);
    }
  }

  lemma ProcessedKeepsInv(s: State)
    requires Inv(s)
    ensures Inv(OnProcessed(s))
  {
    var t := OnProcessed(s);
    if s.processing.Some? {
      DropKeeps(s, t, s.processing.value);
      forall m: nat ensures Places(t, m) == Places(s, m) {
      }
      forall m: nat ensures Count(t.enqueued, m) + Pending(t, m) <= if m < |t.sends| then 1 else 0 {
        assert Count(s.enqueued, m) + Pending(s, m) <= if m < |s.sends| then 1 else 0;
      }
    }
  }

  lemma CancelKeepsInv(s: State)
    requires Inv(s)
    ensures Inv(Apply(s, Cancel))
  {
    var t := Apply(s, Cancel);
    forall m: nat ensures Places(t, m) == Places(s, m) && Pending(t, m) == Pending(s, m) {
    }
    forall m: nat ensures Count(t.enqueued, m) + Pending(t, m) <= if m < |t.sends| then 1 else 0 {
      assert Count(s.enqueued, m) + Pending(s, m) <= if m < |s.sends| then 1 else 0;
    }
  }

  lemma {:induction false} RunKeepsInv(events: seq<Event>)
    ensures Inv(Run(events))
  {
    if events != [] {
      RunKeepsInv(Init(events));
      var s := Run(Init(events));
      match Last(events)
      case Send => SendKeepsInv(s);
      case Check(n) => CheckKeepsInv(s, n);
      case Choose(n, enqueue) => ChooseKeepsInv(s, n, enqueue);
      case Receive => ReceiveKeepsInv(s);
      case Processed => ProcessedKeepsInv(s);
      case Cancel => CancelKeepsInv(s);
      case DropOne => DropOneKeepsInv(s);
    }
  }

  // ---- what every interleaving guarantees ----

  /** Process receives a subsequence of what was sent into the channel, in that order, each packet at most once. */
  lemma ReceivedInSendOrder(events: seq<Event>)
    ensures var s := Run(events);
            && |s.ch| <= SENDER_CAPACITY
            && NoDup(s.enqueued)
            && (forall i :: 0 <= i < |s.received| ==> s.received[i] < |s.enqueued|)
            && (forall i, j :: 0 <= i < j < |s.received| ==> s.received[i] < s.received[j])
            && (s.processing.Some? ==> s.received != [] && s.processing.value == s.enqueued[Last(s.received)])
  {
    RunKeepsInv(events);
    var s := Run(events);
    forall n: nat ensures Count(s.enqueued, n) <= 1 {
      assert Count(s.enqueued, n) + Pending(s, n) <= if n < |s.sends| then 1 else 0;
    }
    CountNoDup(s.enqueued);
  }

  /** No packet is dropped twice, and none is dropped while it is queued, in hand or still with its sender. */
  lemma DroppedOnce(events: seq<Event>, n: nat)
    ensures var s := Run(events);
            && NoDup(s.dropped)
            && (n in s.dropped ==> n !in s.ch && s.processing != Some(n) && n < |s.sends| && s.sends[n] == Sent)
  {
    RunKeepsInv(events);
    var s := Run(events);
    forall m: nat ensures Count(s.dropped, m) <= 1 {
      assert Places(s, m) == if m < |s.sends| then 1 else 0;
    }
    CountNoDup(s.dropped);
    CountMember(s.dropped, n);
    CountMember(s.ch, n);
    assert Places(s, n) == if n < |s.sends| then 1 else 0;
  }

  /** A packet whose Send has returned is queued, in hand, or dropped: none is lost, and never in two of these. */
  lemma NoneLost(events: seq<Event>, n: nat)
    ensures var s := Run(events);
            n < |s.sends| && s.sends[n] == Sent ==> Count(s.ch, n) + InHand(s, n) + Count(s.dropped, n) == 1
  {
    RunKeepsInv(events);
    assert Places(Run(events), n) == if n < |Run(events).sends| then 1 else 0;
  }

  // ---- the order of Send calls ----

  /** `t` is later than `s`: the log has grown, returned Sends stay returned, and none of them has been logged since. */
  ghost predicate Later(s: State, t: State) {
    && s.enqueued <= t.enqueued && |s.sends| <= |t.sends|
    && (forall n :: 0 <= n < |s.sends| && s.sends[n] == Sent ==> t.sends[n] == Sent)
    && (forall i :: |s.enqueued| <= i < |t.enqueued| ==> t.enqueued[i] >= |s.sends| || s.sends[t.enqueued[i]] != Sent)
  }

  lemma StepIsLater(s: State, t: State, v: Event)
    requires Later(s, t)
    ensures Later(s, Apply(t, v))
  {
  }

  lemma {:induction false} RunIsLater(pre: seq<Event>, post: seq<Event>)
    ensures Later(Run(pre), Run(pre + post))
  {
    if post == [] {
      assert pre + post == pre;
    } else {
      RunIsLater(pre, Init(post));
      assert Init(pre + post) == pre + Init(post) && Last(pre + post) == Last(post);
      StepIsLater(Run(pre), Run(pre + Init(post)), Last(post));
    }
  }

  /** If Send n has returned before Send m begins, packet n is in the channel log before packet m. */
  lemma ReturnedSendsComeFirst(pre: seq<Event>, post: seq<Event>, n: nat, m: nat, i: nat, j: nat)
    requires var s := Run(pre); n < |s.sends| && s.sends[n] == Sent && m >= |s.sends|
    requires var t := Run(pre + post); i < |t.enqueued| && j < |t.enqueued| && t.enqueued[i] == n && t.enqueued[j] == m
    ensures i < j
  {
    RunIsLater(pre, post);
    RunKeepsInv(pre);
    var s := Run(pre);
    CountMember(s.enqueued, m);
    assert Count(s.enqueued, m) + Pending(s, m) <= if m < |s.sends| then 1 else 0;
    assert s.enqueued == Run(pre + post).enqueued[..|s.enqueued|];
  }
}
