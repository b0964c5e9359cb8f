/** The packet sender's address mapping: first valid answer wins, and is used from then on. */
module NatMapping {
  import opened Seqs

  /** An invalid address is what a missing entry reads as. */
  datatype Addr = Invalid | Ip(bits: nat)

  type Key = string

  datatype Tables = Tables(originToTarget: map<Key, Addr>, targetToOrigin: map<Addr, Addr>) {
    function Target(k: Key): Addr { if k in originToTarget then originToTarget[k] else Invalid }
    function Origin(t: Addr): Addr { if t in targetToOrigin then targetToOrigin[t] else Invalid }
  }

  /** One AddMapping call: the origin's key and address, and the address it was mapped to. */
  datatype Mapping = Mapping(key: Key, origin: Addr, target: Addr)

  /** Each table gained the entry, unless it had a valid one under that key, and kept every other. */
  ghost predicate Recorded(s: Tables, t: Tables, key: Key, origin: Addr, target: Addr) {
    && (forall k :: t.Target(k) == if k == key && !s.Target(key).Ip? then target else s.Target(k))
    && (forall a :: t.Origin(a) == if a == target && !s.Origin(target).Ip? then origin else s.Origin(a))
  }

  function Add(s: Tables, m: Mapping): Tables {
    Tables(if s.Target(m.key).Ip? then s.originToTarget else s.originToTarget[m.key := m.target],
           if s.Origin(m.target).Ip? then s.targetToOrigin else s.targetToOrigin[m.target := m.origin])
  }

  function After(start: Tables, ms: seq<Mapping>): Tables {
    if ms == [] then start else Add(After(start, Init(ms)), Last(ms))
  }

  // ---- the reference: the first valid address recorded ----

  function FirstTarget(ms: seq<Mapping>, k: Key): Addr {
    if ms == [] then Invalid else
    if FirstTarget(Init(ms), k).Ip? then FirstTarget(Init(ms), k)
    else if Last(ms).key == k then Last(ms).target else Invalid
  }

  function FirstOrigin(ms: seq<Mapping>, t: Addr): Addr {
    if ms == [] then Invalid else
    if FirstOrigin(Init(ms), t).Ip? then FirstOrigin(Init(ms), t)
    else if Last(ms).target == t then Last(ms).origin else Invalid
  }

  /** What `FirstTarget` says in terms of positions: the earliest valid entry, or none. */
  lemma {:induction false} FirstTargetAt(ms: seq<Mapping>, k: Key)
    ensures FirstTarget(ms, k).Ip? ==>
              exists i :: 0 <= i < |ms| && ms[i].key == k && ms[i].target == FirstTarget(ms, k)
                && forall j :: 0 <= j < i && ms[j].key == k ==> ms[j].target == Invalid
    ensures FirstTarget(ms, k) == Invalid ==> forall i :: 0 <= i < |ms| && ms[i].key == k ==> ms[i].target == Invalid
  {
    if ms != [] {
      var rest := Init(ms);
      FirstTargetAt(rest, k);
      if FirstTarget(rest, k).Ip? {
        var i :| 0 <= i < |rest| && rest[i].key == k && rest[i].target == FirstTarget(rest, k)
                 && forall j :: 0 <= j < i && rest[j].key == k ==> rest[j].target == Invalid;
        assert ms[i] == rest[i] && forall j :: 0 <= j < i ==> ms[j] == rest[j];
      } else {
        assert forall j :: 0 <= j < |rest| ==> ms[j] == rest[j];
        assert ms[|ms| - 1] == Last(ms);
      }
    }
  }

  /** The same of `FirstOrigin`: the earliest mapping to that address that has a valid origin, or none. */
  lemma {:induction false} FirstOriginAt(ms: seq<Mapping>, t: Addr)
    ensures FirstOrigin(ms, t).Ip? ==>
              exists i :: 0 <= i < |ms| && ms[i].target == t && ms[i].origin == FirstOrigin(ms, t)
                && forall j :: 0 <= j < i && ms[j].target == t ==> ms[j].origin == Invalid
    ensures FirstOrigin(ms, t) == Invalid ==> forall i :: 0 <= i < |ms| && ms[i].target == t ==> ms[i].origin == Invalid
  {
    if ms != [] {
      var rest := Init(ms);
      FirstOriginAt(rest, t);
      if FirstOrigin(rest, t).Ip? {
        var i :| 0 <= i < |rest| && rest[i].target == t && rest[i].origin == FirstOrigin(rest, t)
                 && forall j :: 0 <= j < i && rest[j].target == t ==> rest[j].origin == Invalid;
        assert ms[i] == rest[i] && forall j :: 0 <= j < i ==> ms[j] == rest[j];
      } else {
        assert forall j :: 0 <= j < |rest| ==> ms[j] == rest[j];
        assert ms[|ms| - 1] == Last(ms);
      }
    }
  }

  /** After any run of AddMapping calls, both tables answer with the first valid address recorded. */
  lemma {:induction false} FirstWins(ms: seq<Mapping>, k: Key, t: Addr)
    ensures var s := After(Tables(map[], map[]), ms);
            s.Target(k) == FirstTarget(ms, k) && s.Origin(t) == FirstOrigin(ms, t)
  {
    if ms != [] {
      FirstWins(Init(ms), k, t);
      FirstWins(Init(ms), Last(ms).key, Last(ms).target);
    }
  }

  /** A valid entry never changes, whatever is added afterwards. */
  lemma {:induction false} ValidStays(start: Tables, ms: seq<Mapping>, k: Key, t: Addr)
    ensures start.Target(k).Ip? ==> After(start, ms).Target(k) == start.Target(k)
    ensures start.Origin(t).Ip? ==> After(start, ms).Origin(t) == start.Origin(t)
  {
    if ms != [] {
      ValidStays(start, Init(ms), k, t);
    }
  }

  /**
   A packet's destination: `origin` is the address it came with, `dst` the one left by the pre-handling,
   and `resolved` what resolving the host gives, if the pre-handling left a host.
   */
  datatype Packet = Packet(key: Key, origin: Addr, dst: Addr, hasHost: bool, resolved: Option<Addr>)

  /** Where the packet goes by its own resolution, `Invalid` if nowhere. */
  function Own(p: Packet): Addr {
    if p.hasHost then match p.resolved case None => Invalid case Some(a) => a else p.dst
  }

  /** Where it goes, given what the read section found. */
  function Destination(p: Packet, found: Addr): Addr {
    if found.Ip? then found else Own(p)
  }

  /** The tables once the packet has been sent or given up: its own resolution is recorded. */
  function Concluded(s: Tables, p: Packet, found: Addr): Tables {
    if found.Ip? || Own(p) == Invalid then s else Add(s, Mapping(p.key, p.origin, Own(p)))
  }

  /**
   A packet without a target in the table: a host is resolved, and the packet given up if that fails; it
   then goes to the resolved address, or to the one it has, which is recorded if it is valid.
   */
  ghost predicate OwnWay(p: Packet, sentTo: Addr, s: Tables, t: Tables) {
    && (p.hasHost && p.resolved == None ==> sentTo == Invalid)
    && (p.hasHost && p.resolved.Some? ==> sentTo == p.resolved.value)
    && (!p.hasHost ==> sentTo == p.dst)
    && (sentTo == Invalid ==> t == s)
    && (sentTo != Invalid ==> Recorded(s, t, p.key, p.origin, sentTo))
  }

  class Sender {
    var originToTarget: map<Key, Addr>
    var targetToOrigin: map<Addr, Addr>

    ghost function Abs(): Tables
      reads this
    {
      Tables(originToTarget, targetToOrigin)
    }

    constructor ()
      ensures Abs() == Tables(map[], map[])
    {
      originToTarget, targetToOrigin := map[], map[];
    }

    method AddMapping(key: Key, originAddr: Addr, targetAddr: Addr)
      modifies this
      ensures Abs() == Add(old(Abs()), Mapping(key, originAddr, targetAddr))
      ensures Recorded(old(Abs()), Abs(), key, originAddr, targetAddr)
    {
      if key !in originToTarget || !originToTarget[key].Ip? {
        originToTarget := originToTarget[key := targetAddr];
      }
      if targetAddr !in targetToOrigin || !targetToOrigin[targetAddr].Ip? {
        targetToOrigin := targetToOrigin[targetAddr := originAddr];
      }
    }

    method RestoreReadFrom(addr: Addr) returns (r: Addr)
      ensures r == if Abs().Origin(addr).Ip? then Abs().Origin(addr) else addr
    {
      if addr in targetToOrigin && targetToOrigin[addr].Ip? {
        return targetToOrigin[addr];
      }
      r := addr;
    }

    /** The read section of `processPacket`. */
    method ReadTarget(key: Key) returns (found: Addr)
      ensures found == Abs().Target(key)
    {
      found := if key in originToTarget then originToTarget[key] else Invalid;
    }

    /** The rest of `processPacket` up to the write: where the packet is sent, `Invalid` if it is not. */
    method Conclude(p: Packet, found: Addr) returns (sentTo: Addr)
      modifies this
      ensures sentTo == Destination(p, found) && Abs() == Concluded(old(Abs()), p, found)
      ensures found.Ip? ==> sentTo == found && Abs() == old(Abs())
      ensures !found.Ip? ==> OwnWay(p, sentTo, old(Abs()), Abs())
    {
      if found.Ip? {
        return found;
      }
      var dst := p.dst;
      if p.hasHost {
        if p.resolved.None? {
          return Invalid;
        }
        dst := p.resolved.value;
      }
      if !dst.Ip? {
        return Invalid;
      }
      AddMapping(p.key, p.origin, dst);
      sentTo := dst;
    }

    /** Both, with nothing in between: the packet goes where the table now says. */
    method ProcessPacket(p: Packet) returns (sentTo: Addr)
      modifies this
      ensures sentTo == Destination(p, old(Abs()).Target(p.key))
      ensures Abs() == Concluded(old(Abs()), p, old(Abs()).Target(p.key))
      ensures old(Abs()).Target(p.key).Ip? ==> sentTo == old(Abs()).Target(p.key) && Abs() == old(Abs())
      ensures !old(Abs()).Target(p.key).Ip? ==> OwnWay(p, sentTo, old(Abs()), Abs())
      ensures sentTo.Ip? ==> Abs().Target(p.key) == sentTo
    {
      var found := ReadTarget(p.key);
      sentTo := Conclude(p, found);
    }
  }

  // ---- packets and mappings interleaved, one step per lock section ----

  /** The packet Process has in hand, and what its read section found. */
  datatype Hand = Hand(packet: Packet, found: Addr)

  /** `adds` logs the AddMapping calls, `sent` the packets that went out, with their keys. */
  datatype State = State(tables: Tables, hand: Option<Hand>, adds: seq<Mapping>, sent: seq<(Key, Addr)>)

  datatype Event = MappingEvent(mapping: Mapping) | ReadEvent(packet: Packet) | ConcludeEvent

  function OnMapping(s: State, m: Mapping): State {
    s.(tables := Add(s.tables, m), adds := s.adds + [m])
  }

  function OnRead(s: State, p: Packet): State {
    if s.hand.Some? then s else s.(hand := Some(Hand(p, s.tables.Target(p.key))))
  }

  function OnConclude(s: State): State {
    if s.hand.None? then s else
    var Hand(p, found) := s.hand.value;
    var t := State(Concluded(s.tables, p, found), None, s.adds, s.sent);
    if Destination(p, found) == Invalid then t
    else if found.Ip? then t.(sent := t.sent + [(p.key, found)])
    else t.(sent := t.sent + [(p.key, Own(p))], adds := t.adds + [Mapping(p.key, p.origin, Own(p))])
  }

  /** A step that is not enabled changes nothing. */
  function Apply(s: State, e: Event): State {
    match e
    case MappingEvent(m) => OnMapping(s, m)
    case ReadEvent(p) => OnRead(s, p)
    case ConcludeEvent => OnConclude(s)
  }

  function Run(s: State, es: seq<Event>): State {
    if es == [] then s else Apply(Run(s, Init(es)), Last(es))
  }

  const FRESH := State(Tables(map[], map[]), None, [], [])

  /** In every interleaving the tables are those of the AddMapping calls so far, the packets' own included. */
  lemma {:induction false} RunRecords(es: seq<Event>)
    ensures Run(FRESH, es).tables == After(Tables(map[], map[]), Run(FRESH, es).adds)
  {
    if es != [] {
      RunRecords(Init(es));
      var s, t := Run(FRESH, Init(es)), Run(FRESH, es);
      if t.adds != s.adds { assert Init(t.adds) == s.adds; }
    }
  }

  /**
   In every interleaving, a reply from `t` is restored to the origin of the earliest mapping to `t` that
   had a valid one, and left as it is when there was none.
   */
  lemma RepliesRestoreFirstOrigin(es: seq<Event>, t: Addr)
    ensures var s := Run(FRESH, es);
            if s.tables.Origin(t).Ip? then
              exists i :: 0 <= i < |s.adds| && s.adds[i].target == t && s.adds[i].origin == s.tables.Origin(t)
                && forall j :: 0 <= j < i && s.adds[j].target == t ==> s.adds[j].origin == Invalid
            else forall i :: 0 <= i < |s.adds| && s.adds[i].target == t ==> s.adds[i].origin == Invalid
  {
    RunRecords(es);
    var ms := Run(FRESH, es).adds;
    FirstWins(ms, "", t);
    FirstOriginAt(ms, t);
  }

  /** A valid entry never changes, whatever happens afterwards. */
  lemma {:induction false} ValidStaysInRun(s: State, es: seq<Event>, k: Key, t: Addr)
    ensures s.tables.Target(k).Ip? ==> Run(s, es).tables.Target(k) == s.tables.Target(k)
    ensures s.tables.Origin(t).Ip? ==> Run(s, es).tables.Origin(t) == s.tables.Origin(t)
  {
    if es != [] {
      ValidStaysInRun(s, Init(es), k, t);
    }
  }

  /** Mappings that land while a packet is in hand. */
  function Landed(s: State, ms: seq<Mapping>): State {
    if ms == [] then s else OnMapping(Landed(s, Init(ms)), Last(ms))
  }

  lemma {:induction false} LandedTables(s: State, ms: seq<Mapping>, k: Key)
    ensures Landed(s, ms).hand == s.hand && Landed(s, ms).sent == s.sent
    ensures s.tables.Target(k).Ip? ==> Landed(s, ms).tables.Target(k) == s.tables.Target(k)
    ensures !s.tables.Target(k).Ip? && FirstTarget(ms, k).Ip? ==> Landed(s, ms).tables.Target(k) == FirstTarget(ms, k)
    ensures !s.tables.Target(k).Ip? && !FirstTarget(ms, k).Ip? ==> !Landed(s, ms).tables.Target(k).Ip?
  {
    if ms != [] {
      LandedTables(s, Init(ms), k);
    }
  }

  lemma {:induction false} LandedAdds(s: State, ms: seq<Mapping>)
    ensures Landed(s, ms).adds == s.adds + ms
  {
    if ms != [] {
      LandedAdds(s, Init(ms));
    }
  }

  /**
   What becomes of a packet, whatever mappings land between its two lock sections: the valid target its read
   section found; else the address its host resolves to, or the one it has without a host, which is then
   recorded as well; else, with no valid address, nothing.
   */
  lemma PacketGoes(s: State, p: Packet, ms: seq<Mapping>)
    requires s.hand == None
    ensures var t, found := OnConclude(Landed(OnRead(s, p), ms)), s.tables.Target(p.key);
            && (found.Ip? ==> t.sent == s.sent + [(p.key, found)] && t.adds == s.adds + ms)
            && (!found.Ip? && p.hasHost && p.resolved.Some? && p.resolved.value.Ip? ==>
                  GoesTo(s, t, p, ms, p.resolved.value))
            && (!found.Ip? && p.hasHost && (p.resolved == None || p.resolved == Some(Invalid)) ==>
                  t.sent == s.sent && t.adds == s.adds + ms)
            && (!found.Ip? && !p.hasHost && p.dst.Ip? ==> GoesTo(s, t, p, ms, p.dst))
            && (!found.Ip? && !p.hasHost && p.dst == Invalid ==> t.sent == s.sent && t.adds == s.adds + ms)
  {
    LandedAdds(OnRead(s, p), ms);
    LandedTables(OnRead(s, p), ms, p.key);
  }

  /** The packet went out to `a`, and that was recorded after `ms`. */
  ghost predicate GoesTo(s: State, t: State, p: Packet, ms: seq<Mapping>, a: Addr) {
    t.sent == s.sent + [(p.key, a)] && t.adds == s.adds + ms + [Mapping(p.key, p.origin, a)]
  }

  /**
   A packet goes where every later packet of its key goes exactly when no valid mapping of the key landed
   between its two lock sections, or the first that did is to the same address. Later packets all agree.
   */
  lemma LaterPacketsAgree(s: State, p: Packet, ms: seq<Mapping>, es: seq<Event>, q: Packet)
    requires s.hand == None && q.key == p.key
    requires Destination(p, s.tables.Target(p.key)).Ip?
    ensures var d := Destination(p, s.tables.Target(p.key));
            var t := OnConclude(Landed(OnRead(s, p), ms));
            var later := Run(t, es);
            && t.hand == None && t.sent == s.sent + [(p.key, d)]
            && t.tables.Target(p.key).Ip? && later.tables.Target(p.key) == t.tables.Target(p.key)
            && Destination(q, later.tables.Target(q.key)) == t.tables.Target(p.key)
            && (t.tables.Target(p.key) == d <==>
                  s.tables.Target(p.key).Ip? || FirstTarget(ms, p.key) == Invalid || FirstTarget(ms, p.key) == d)
  {
    var r := OnRead(s, p);
    LandedTables(r, ms, p.key);
    var t := OnConclude(Landed(r, ms));
    ValidStaysInRun(t, es, p.key, Invalid);
  }

  // ---- the dialler's mapping comes first ----

  /** Everything sent since |old| packets went where the table says, and so will the packet in hand. */
  ghost predicate Settled(s: State, old_: nat) {
    && (forall i :: old_ <= i < |s.sent| ==> s.tables.Target(s.sent[i].0) == s.sent[i].1 && s.sent[i].1.Ip?)
    && (s.hand.Some? ==> s.hand.value.found == s.tables.Target(s.hand.value.packet.key))
  }

  lemma StepKeepsSettled(s: State, e: Event, old_: nat)
    requires Settled(s, old_) && old_ <= |s.sent| && !e.MappingEvent?
    ensures Settled(Apply(s, e), old_) && |s.sent| <= |Apply(s, e).sent|
  {
    if e.ConcludeEvent? && s.hand.Some? {
      var t := Apply(s, e);
      forall i | old_ <= i < |t.sent| ensures t.tables.Target(t.sent[i].0) == t.sent[i].1 && t.sent[i].1.Ip? {
        if i < |s.sent| { assert t.sent[i] == s.sent[i]; }
      }
    }
  }

  lemma {:induction false} NoMappingKeepsSettled(s: State, es: seq<Event>)
    requires s.hand == None && forall e :: e in es ==> !e.MappingEvent?
    ensures Settled(Run(s, es), |s.sent|) && |s.sent| <= |Run(s, es).sent|
  {
    if es != [] {
      assert Last(es) in es;
      NoMappingKeepsSettled(s, Init(es));
      StepKeepsSettled(Run(s, Init(es)), Last(es), |s.sent|);
    }
  }

  /**
   The repository's own order: the dialler records its mapping before it starts Process, and nothing else
   does. Then, whatever was recorded before, all packets of a key go to one address, each whatever its own
   resolution says.
   */
  lemma SameDestinationSameAddress(s: State, es: seq<Event>, i: nat, j: nat)
    requires s.hand == None && forall e :: e in es ==> !e.MappingEvent?
    ensures var sent := Run(s, es).sent;
            |s.sent| <= i < |sent| && |s.sent| <= j < |sent| && sent[i].0 == sent[j].0 ==>
              sent[i].1 == sent[j].1 == Run(s, es).tables.Target(sent[i].0)
  {
    NoMappingKeepsSettled(s, es);
  }
}
