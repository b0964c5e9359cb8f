/** `verifySubRule`: every SUB-RULE target exists and no chain of them returns. */
module SubRules {
  import opened Seqs
  import opened Graphs

  /** Only SUB-RULE entries refer to other rule sets. */
  datatype Rule = SubRule(adapter: Name) | OtherRule

  type RuleSets = map<Name, seq<Rule>>

  datatype Error = NotFound(index: nat, name: Name, target: Name) | Circular(chain: seq<Name>)

  /** A chain that enters a new rule set leaves fewer to enter. */
  lemma OneFewer(sets: RuleSets, arr: seq<Name>, n: Name)
    requires n in sets && n !in arr
    ensures |sets.Keys - Elements(arr + [n])| < |sets.Keys - Elements(arr)|
  {
    assert n in sets.Keys - Elements(arr) && n in arr + [n];
    SmallerSet(sets.Keys - Elements(arr + [n]), sets.Keys - Elements(arr));
  }

  /** One rule set, `arr` being the chain that led to it. */
  function Verify(sets: RuleSets, n: Name, arr: seq<Name>): (err: Option<Error>)
    requires n in sets && n !in arr
    decreases |sets.Keys - Elements(arr)|, 0, 0
  {
    OneFewer(sets, arr, n);
    VerifyFrom(sets, n, arr + [n], 0)
  }

  /** The loop over the rules of `n` from rule `i` on; `arr` ends with `n`. */
  function VerifyFrom(sets: RuleSets, n: Name, arr: seq<Name>, i: nat): (err: Option<Error>)
    requires n in sets && i <= |sets[n]|
    decreases |sets.Keys - Elements(arr)|, 1, |sets[n]| - i
  {
    if i == |sets[n]| then None else
    match sets[n][i]
    case OtherRule => VerifyFrom(sets, n, arr, i + 1)
    case SubRule(target) =>
      if target !in sets then Some(NotFound(i, n, target))
      else if target in arr then Some(Circular(arr + [target]))
      else
        var err := Verify(sets, target, arr);
        if err.Some? then err else VerifyFrom(sets, n, arr, i + 1)
  }

  // ---- what the verification means ----

  function Targets(rules: seq<Rule>): (targets: seq<Name>)
    ensures forall t :: t in targets ==> SubRule(t) in rules
    ensures forall t :: SubRule(t) in rules ==> t in targets
  {
    if rules == [] then [] else
    Targets(Init(rules)) + match Last(rules) case SubRule(t) => [t] case OtherRule => []
  }

  function RefersTo(sets: RuleSets): Graph {
    map n | n in sets :: Targets(sets[n])
  }

  ghost predicate Resolved(sets: RuleSets) {
    forall n, t :: n in sets && SubRule(t) in sets[n] ==> t in sets
  }

  /** An accepted rule set refers to existing sets only, none of them on the chain, and those are accepted too. */
  lemma {:induction false} AcceptedRule(sets: RuleSets, n: Name, arr: seq<Name>, i: nat, j: nat)
    requires n in sets && i <= j < |sets[n]| && VerifyFrom(sets, n, arr, i) == None && sets[n][j].SubRule?
    ensures var t := sets[n][j].adapter; t in sets && t !in arr && Verify(sets, t, arr) == None
    decreases j - i
  {
    if i < j {
      AcceptedRule(sets, n, arr, i + 1, j);
    }
  }

  /** From an accepted rule set no chain of references leads back to where it came from. */
  lemma {:induction false} AcceptedNeverReturns(sets: RuleSets, n: Name, arr: seq<Name>, p: seq<Name>)
    requires n in sets && n !in arr && Verify(sets, n, arr) == None
    requires Path(RefersTo(sets), p) && |p| >= 2 && p[0] == n
    ensures Last(p) !in arr + [n]
    decreases |p|
  {
    assert Edge(RefersTo(sets), p[0], p[1]);
    var j :| 0 <= j < |sets[n]| && sets[n][j] == SubRule(p[1]);
    AcceptedRule(sets, n, arr + [n], 0, j);
    if |p| > 2 {
      SubPath(RefersTo(sets), p, 1, |p| - 1);
      assert p[1..|p|] == p[1..];
      AcceptedNeverReturns(sets, p[1], arr + [n], p[1..]);
    }
  }

  /** What a rejection says is so: the target is missing, or the chain runs into itself. */
  ghost predicate Justified(sets: RuleSets, err: Error) {
    match err
    case NotFound(i, n, t) => n in sets && i < |sets[n]| && sets[n][i] == SubRule(t) && t !in sets
    case Circular(chain) => |chain| >= 2 && Path(RefersTo(sets), chain) && Last(chain) in Init(chain)
  }

  lemma PathExtend(g: Graph, p: seq<Name>, x: Name)
    requires p == [] || (Path(g, p) && Edge(g, Last(p), x))
    ensures Path(g, p + [x])
  {
    var q := p + [x];
    forall i | 0 <= i < |q| - 1 ensures Edge(g, q[i], q[i + 1]) {
      if i < |p| - 1 { assert Edge(g, p[i], p[i + 1]); }
    }
  }

  lemma {:induction false} RejectionJustified(sets: RuleSets, n: Name, arr: seq<Name>, i: nat)
    requires n in sets && i <= |sets[n]| && arr != [] && Last(arr) == n && Path(RefersTo(sets), arr)
    ensures VerifyFrom(sets, n, arr, i).Some? ==> Justified(sets, VerifyFrom(sets, n, arr, i).value)
    decreases |sets.Keys - Elements(arr)|, |sets[n]| - i
  {
    if i < |sets[n]| {
      RejectionJustified(sets, n, arr, i + 1);
      if sets[n][i].SubRule? && sets[n][i].adapter in sets {
        var t := sets[n][i].adapter;
        PathExtend(RefersTo(sets), arr, t);
        if t in arr {
          assert Init(arr + [t]) == arr;
        } else {
          OneFewer(sets, arr, t);
          RejectionJustified(sets, t, arr + [t], 0);
        }
      }
    }
  }

  lemma JustifiedRefutes(sets: RuleSets, err: Error)
    requires Justified(sets, err)
    ensures !Resolved(sets) || Cyclic(RefersTo(sets))
  {
    match err
    case NotFound(i, n, t) => assert SubRule(t) in sets[n];
    case Circular(chain) =>
      var i :| 0 <= i < |chain| - 1 && chain[i] == Last(chain);
      SubPath(RefersTo(sets), chain, i, |chain| - 1);
      assert Cycle(RefersTo(sets), chain[i..|chain|]);
  }

  /** Accepted exactly when every SUB-RULE target exists and no chain of references returns, in any order of roots. */
  method VerifySubRule(sets: RuleSets) returns (err: Option<Error>)
    ensures err == None <==> Resolved(sets) && !Cyclic(RefersTo(sets))
    ensures err.Some? ==> Justified(sets, err.value)
  {
    var names := sets.Keys;
    while names != {}
      invariant names <= sets.Keys
      invariant forall n :: n in sets && n !in names ==> Verify(sets, n, []) == None
      decreases |names|
    {
      var name :| name in names;
      names := names - {name};
      err := Verify(sets, name, []);
      if err.Some? {
        PathExtend(RefersTo(sets), [], name);
        assert [] + [name] == [name];
        RejectionJustified(sets, name, [name], 0);
        JustifiedRefutes(sets, err.value);
        return;
      }
    }
    err := None;
    AllAccepted(sets);
  }

  lemma AllAccepted(sets: RuleSets)
    requires forall n :: n in sets ==> Verify(sets, n, []) == None
    ensures Resolved(sets) && !Cyclic(RefersTo(sets))
  {
    forall n, t | n in sets && SubRule(t) in sets[n] ensures t in sets {
      var j :| 0 <= j < |sets[n]| && sets[n][j] == SubRule(t);
      assert [] + [n] == [n];
      AcceptedRule(sets, n, [n], 0, j);
    }
    forall p | Cycle(RefersTo(sets), p) ensures false {
      assert Edge(RefersTo(sets), p[0], p[1]);
      AcceptedNeverReturns(sets, p[0], [], p);
    }
  }
}
