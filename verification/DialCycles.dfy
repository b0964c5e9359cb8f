/**
 Dialling through groups: a proxy may name a group as its dialer, and the check of dialer references does
 not look into groups. When dialling can still go round in an accepted configuration.
 */
module DialCycles {
  import opened Graphs
  import opened Registry
  import opened Seqs
  import DialerProxies

  predicate NamesGroup(reg: Reg, n: Name) {
    n in reg.proxies && IsGroup(reg.store, Known(reg.proxies[n]))
  }

  /** The group named `a` can select the proxy named `b`. */
  predicate Selects(reg: Reg, a: Name, b: Name) {
    a in reg.proxies && b in reg.proxies && CanUnwrap(reg.store, Known(reg.proxies[a]), Known(reg.proxies[b]))
  }

  predicate DialsThrough(dialers: map<Name, Name>, a: Name, b: Name) {
    a in dialers && dialers[a] != "" && dialers[a] == b
  }

  /** One hop of a connection being made: a group selects, or a proxy dials. */
  predicate Goes(reg: Reg, dialers: map<Name, Name>, a: Name, b: Name) {
    Selects(reg, a, b) || DialsThrough(dialers, a, b)
  }

  ghost predicate Route(reg: Reg, dialers: map<Name, Name>, p: seq<Name>) {
    p != [] && forall i, j :: 0 <= i && j == i + 1 < |p| ==> Goes(reg, dialers, p[i], p[j])
  }

  ghost predicate Circle(reg: Reg, dialers: map<Name, Name>, p: seq<Name>) {
    |p| >= 2 && Route(reg, dialers, p) && p[0] == Last(p)
  }

  ghost predicate GoesRound(reg: Reg, dialers: map<Name, Name>) {
    exists p :: Circle(reg, dialers, p)
  }

  ghost predicate Reaches(reg: Reg, dialers: map<Name, Name>, a: Name, b: Name) {
    exists p :: Route(reg, dialers, p) && p[0] == a && Last(p) == b
  }

  /** A proxy that dials through a group. */
  predicate DialsGroup(reg: Reg, dialers: map<Name, Name>, a: Name, b: Name) {
    DialsThrough(dialers, a, b) && NamesGroup(reg, b)
  }

  /** Some proxy can be reached from the group it dials through. */
  ghost predicate GroupLeadsBack(reg: Reg, dialers: map<Name, Name>) {
    exists a, b :: DialsGroup(reg, dialers, a, b) && Reaches(reg, dialers, b, a)
  }

  /** A registry and its dialers, "" for none: groups have none. */
  ghost predicate Dialled(reg: Reg, dialers: map<Name, Name>) {
    && Layered(reg) && dialers.Keys == reg.proxies.Keys
    && forall n :: NamesGroup(reg, n) ==> dialers[n] == ""
  }

  /** What the check accepts: every dialer exists, and following dialers ends. */
  ghost predicate Accepted(reg: Reg, dialers: map<Name, Name>) {
    && Dialled(reg, dialers)
    && (forall n :: n in dialers && dialers[n] != "" ==> dialers[n] in dialers)
    && (forall n :: n in dialers ==> DialerProxies.Ends(DialerProxies.Named(dialers), n))
  }

  /** The check at the end of `parseProxies`, on the registry just built. */
  method Validate(reg: Reg, dialers: map<Name, Name>) returns (err: Option<DialerProxies.Error>)
    requires Dialled(reg, dialers)
    ensures err == None <==> Accepted(reg, dialers)
    ensures err == None ==> (GoesRound(reg, dialers) <==> GroupLeadsBack(reg, dialers))
  {
    err := DialerProxies.ValidateDialerProxies(dialers);
    if err == None {
      AcceptedGoesRound(reg, dialers);
    }
  }

  // ---- routes ----

  lemma Tail(reg: Reg, dialers: map<Name, Name>, p: seq<Name>)
    requires Route(reg, dialers, p) && |p| >= 2
    ensures Goes(reg, dialers, p[0], p[1]) && Route(reg, dialers, p[1..]) && Last(p[1..]) == Last(p)
  {
    var q := p[1..];
    forall i, j | 0 <= i && j == i + 1 < |q| ensures Goes(reg, dialers, q[i], q[j]) {
      assert q[i] == p[j] && q[j] == p[j + 1];
    }
  }

  lemma Joined(reg: Reg, dialers: map<Name, Name>, p: seq<Name>, q: seq<Name>)
    requires Route(reg, dialers, p) && Route(reg, dialers, q) && Goes(reg, dialers, Last(p), q[0])
    ensures Route(reg, dialers, p + q) && (p + q)[0] == p[0] && Last(p + q) == Last(q)
  {
    var r := p + q;
    forall i, j | 0 <= i && j == i + 1 < |r| ensures Goes(reg, dialers, r[i], r[j]) {
      if j < |p| { assert Goes(reg, dialers, p[i], p[j]); }
      else if i >= |p| { assert Goes(reg, dialers, q[i - |p|], q[j - |p|]); }
    }
  }

  lemma Cut(reg: Reg, dialers: map<Name, Name>, p: seq<Name>, i: nat, j: nat)
    requires Route(reg, dialers, p) && i <= j < |p|
    ensures Route(reg, dialers, p[i..j + 1])
  {
    var q := p[i..j + 1];
    forall k, m | 0 <= k && m == k + 1 < |q| ensures Goes(reg, dialers, q[k], q[m]) {
      assert q[k] == p[i + k] && q[m] == p[i + m];
    }
  }

  /** The hop from `p[i]` on leads from a proxy into a group. */
  ghost predicate IntoGroup(reg: Reg, dialers: map<Name, Name>, p: seq<Name>, i: nat) {
    i + 1 < |p| && DialsGroup(reg, dialers, p[i], p[i + 1])
  }

  ghost predicate NeverIntoGroup(reg: Reg, dialers: map<Name, Name>, p: seq<Name>) {
    forall i: nat :: !IntoGroup(reg, dialers, p, i)
  }

  lemma TailNeverIntoGroup(reg: Reg, dialers: map<Name, Name>, p: seq<Name>)
    requires p != [] && NeverIntoGroup(reg, dialers, p)
    ensures NeverIntoGroup(reg, dialers, p[1..])
  {
    forall i: nat ensures !IntoGroup(reg, dialers, p[1..], i) {
      assert !IntoGroup(reg, dialers, p, i + 1);
    }
  }

  /** From a proxy, hops that never enter a group are dialer references only. */
  lemma {:induction false} StaysOnDialers(reg: Reg, dialers: map<Name, Name>, p: seq<Name>)
    requires Dialled(reg, dialers) && Route(reg, dialers, p) && NeverIntoGroup(reg, dialers, p)
    requires !NamesGroup(reg, p[0])
    ensures DialerProxies.Follow(DialerProxies.Named(dialers), p[0], |p| - 1) == Some(Last(p))
    decreases |p|
  {
    if |p| >= 2 {
      Tail(reg, dialers, p);
      TailNeverIntoGroup(reg, dialers, p);
      assert !IntoGroup(reg, dialers, p, 0);
      StaysOnDialers(reg, dialers, p[1..]);
    }
  }

  /** To a group, hops that never enter one from a proxy are selections only, each of something older. */
  lemma {:induction false} OnlySelects(reg: Reg, dialers: map<Name, Name>, p: seq<Name>)
    requires Dialled(reg, dialers) && Route(reg, dialers, p) && NeverIntoGroup(reg, dialers, p)
    requires NamesGroup(reg, Last(p))
    ensures NamesGroup(reg, p[0]) && (|p| >= 2 ==> reg.proxies[Last(p)] < reg.proxies[p[0]])
    decreases |p|
  {
    if |p| >= 2 {
      Tail(reg, dialers, p);
      TailNeverIntoGroup(reg, dialers, p);
      assert !IntoGroup(reg, dialers, p, 0);
      OnlySelects(reg, dialers, p[1..]);
    }
  }

  /** A circle that never enters a group by dialling is one of dialer references, which do not end. */
  lemma NeverIntoGroupGoesOn(reg: Reg, dialers: map<Name, Name>, p: seq<Name>)
    requires Dialled(reg, dialers) && Circle(reg, dialers, p) && NeverIntoGroup(reg, dialers, p)
    ensures p[0] in dialers && !DialerProxies.Ends(DialerProxies.Named(dialers), p[0])
  {
    var g, x := DialerProxies.Named(dialers), p[0];
    Tail(reg, dialers, p);
    if NamesGroup(reg, x) { OnlySelects(reg, dialers, p); }
    StaysOnDialers(reg, dialers, p);
    forall n: nat ensures DialerProxies.Follow(g, x, n).Some? {
      DialerProxies.ReturningGoesOn(g, x, |p| - 1, n);
    }
  }

  /** Every circle of an accepted configuration enters a group by dialling. */
  lemma CircleEntersGroup(reg: Reg, dialers: map<Name, Name>, p: seq<Name>) returns (i: nat)
    requires Accepted(reg, dialers) && Circle(reg, dialers, p)
    ensures IntoGroup(reg, dialers, p, i)
  {
    if NeverIntoGroup(reg, dialers, p) { NeverIntoGroupGoesOn(reg, dialers, p); }
    i :| IntoGroup(reg, dialers, p, i);
  }

  /**
   Dialling can go round in an accepted configuration exactly when some proxy can be reached from the group
   it dials through. The check does not look for that.
   */
  lemma AcceptedGoesRound(reg: Reg, dialers: map<Name, Name>)
    requires Accepted(reg, dialers)
    ensures GoesRound(reg, dialers) <==> GroupLeadsBack(reg, dialers)
  {
    if GoesRound(reg, dialers) {
      var p :| Circle(reg, dialers, p);
      var i := CircleEntersGroup(reg, dialers, p);
      TurnedCircle(reg, dialers, p, i);
    }
    if GroupLeadsBack(reg, dialers) {
      var a, b :| DialsGroup(reg, dialers, a, b) && Reaches(reg, dialers, b, a);
      var p :| Route(reg, dialers, p) && p[0] == b && Last(p) == a;
      Joined(reg, dialers, [a], p);
      assert Circle(reg, dialers, [a] + p);
    }
  }

  /** Round a circle from `p[i + 1]` to `p[i]`. */
  lemma TurnedCircle(reg: Reg, dialers: map<Name, Name>, p: seq<Name>, i: nat)
    requires Circle(reg, dialers, p) && i + 1 < |p|
    ensures Reaches(reg, dialers, p[i + 1], p[i])
  {
    var back := p[i + 1..];
    Cut(reg, dialers, p, i + 1, |p| - 1);
    assert p[i + 1..|p|] == back;
    if i == 0 {
      assert Last(back) == p[0];
    } else {
      Cut(reg, dialers, p, 1, i);
      assert Goes(reg, dialers, p[0], p[1]);
      Joined(reg, dialers, back, p[1..i + 1]);
      assert Last(back + p[1..i + 1]) == p[i];
    }
  }

  /** So a configuration in which no dialer names a group is safe once it is accepted. */
  lemma NoGroupDialled(reg: Reg, dialers: map<Name, Name>)
    requires Accepted(reg, dialers) && forall n :: n in dialers ==> !NamesGroup(reg, dialers[n])
    ensures !GoesRound(reg, dialers)
  {
    AcceptedGoesRound(reg, dialers);
  }

  lemma RouteNames(reg: Reg, dialers: map<Name, Name>, p: seq<Name>)
    requires Accepted(reg, dialers) && Route(reg, dialers, p) && p[0] in reg.proxies
    ensures forall x :: x in p ==> x in reg.proxies.Keys
  {
    forall x | x in p ensures x in reg.proxies.Keys {
      var i :| 0 <= i < |p| && p[i] == x;
      if i > 0 { assert Goes(reg, dialers, p[i - 1], p[i]); }
    }
  }

  lemma LongGoesRound(reg: Reg, dialers: map<Name, Name>, p: seq<Name>)
    requires Accepted(reg, dialers) && Route(reg, dialers, p) && p[0] in reg.proxies && |p| > |reg.proxies.Keys|
    ensures GoesRound(reg, dialers)
  {
    RouteNames(reg, dialers, p);
    var i, j := Pigeonhole(p, reg.proxies.Keys);
    Cut(reg, dialers, p, i, j);
    assert Circle(reg, dialers, p[i..j + 1]);
  }

  /**
   Where dialling cannot go round, every connection passes at most as many names as there are, whatever is
   selected.
   */
  lemma DiallingEnds(reg: Reg, dialers: map<Name, Name>, p: seq<Name>)
    requires Accepted(reg, dialers) && !GroupLeadsBack(reg, dialers)
    requires Route(reg, dialers, p) && p[0] in reg.proxies
    ensures |p| <= |reg.proxies.Keys|
  {
    AcceptedGoesRound(reg, dialers);
    if |p| > |reg.proxies.Keys| { LongGoesRound(reg, dialers, p); }
  }

  // ---- a configuration that is accepted and can go round ----

  const SAMPLE_LEAVES := Reg([Leaf(Plain), Leaf(Plain)], map["COMPATIBLE" := 0, "p" := 1], map[])
  const SAMPLE_GROUP := GroupOption("G", Select, ["p"], [], None, false, false, false, [])

  const SAMPLE := Reg([Leaf(Plain), Leaf(Plain), Group([1], 0, false)],
                      map["COMPATIBLE" := 0, "p" := 1, "G" := 2], map["G" := Compatible([1])])

  const SAMPLE_DIALERS: map<Name, Name> := map["COMPATIBLE" := "", "p" := "G", "G" := ""]

  /** The group G, holding the proxy p, is built. */
  lemma {:induction false} SampleIsBuilt()
    ensures AddGroup(SAMPLE_LEAVES, SAMPLE_GROUP, [], []) == Ok(SAMPLE)
  {
    var r, o := SAMPLE_LEAVES, SAMPLE_GROUP;
    assert Init(["p"]) == [] && Last(["p"]) == "p";
    var none: seq<nat> := [];
    assert Resolve(r.proxies, Init(["p"])) == Ok(none) && none + [1] == [1];
    assert Resolve(r.proxies, ["p"]) == Ok(none + [r.proxies["p"]]);
    assert MemberNames(o, [], []) == ["p"] && UseNames(o, []) == [] && FallbackName(o) == "COMPATIBLE";
    assert r.store + [Group([1], 0, false)] == SAMPLE.store;
    assert r.proxies["G" := 2] == SAMPLE.proxies && r.providers["G" := Compatible([1])] == SAMPLE.providers;
  }

  lemma SampleEnds(n: Name)
    requires n in SAMPLE_DIALERS
    ensures DialerProxies.Ends(DialerProxies.Named(SAMPLE_DIALERS), n)
  {
    var g := DialerProxies.Named(SAMPLE_DIALERS);
    assert g == map["p" := "G"];
    assert DialerProxies.Follow(g, "G", 1) == None && DialerProxies.Follow(g, "COMPATIBLE", 1) == None;
    assert DialerProxies.Follow(g, "p", 2) == DialerProxies.Follow(g, "G", 1);
  }

  lemma SampleIsDialled()
    ensures Dialled(SAMPLE, SAMPLE_DIALERS)
  {
  }

  lemma SampleIsAccepted()
    ensures Accepted(SAMPLE, SAMPLE_DIALERS)
  {
    SampleIsDialled();
    forall n | n in SAMPLE_DIALERS ensures DialerProxies.Ends(DialerProxies.Named(SAMPLE_DIALERS), n) {
      SampleEnds(n);
    }
  }

  /** The proxy p dials through G, G can select p, and the check accepts both. */
  lemma SampleGoesRound()
    ensures Accepted(SAMPLE, SAMPLE_DIALERS) && GoesRound(SAMPLE, SAMPLE_DIALERS)
  {
    SampleIsAccepted();
    assert Selects(SAMPLE, "G", "p") && DialsThrough(SAMPLE_DIALERS, "p", "G");
    CircleGoesRound(SAMPLE, SAMPLE_DIALERS, ["p", "G", "p"]);
  }

  lemma CircleGoesRound(reg: Reg, dialers: map<Name, Name>, p: seq<Name>)
    requires Circle(reg, dialers, p)
    ensures GoesRound(reg, dialers)
  {
  }
}
