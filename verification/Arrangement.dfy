/** Groups of the configuration rearranged: places, names, and what a rearrangement keeps. */
module Arrangement {
  import opened Graphs
  import opened Registry
  import opened Seqs

  function NamesIn(os: seq<GroupOption>): (r: seq<Name>)
    ensures |r| == |os| && forall i :: 0 <= i < |os| ==> r[i] == os[i].name
  {
    seq(|os|, i requires 0 <= i < |os| => os[i].name)
  }

  /** A rearrangement of the places below `n`. */
  ghost predicate Permutes(order: seq<nat>, n: nat) {
    |order| == n && NoDup(order) && forall i :: 0 <= i < n ==> order[i] < n
  }

  /** The groups of the configuration, rearranged. */
  function Arrange(os: seq<GroupOption>, order: seq<nat>): (r: seq<GroupOption>)
    requires forall i :: 0 <= i < |order| ==> order[i] < |os|
    ensures |r| == |order| && forall i :: 0 <= i < |order| ==> r[i] == os[order[i]]
  {
    seq(|order|, i requires 0 <= i < |order| => os[order[i]])
  }

  lemma {:induction false} SameNames(os: seq<GroupOption>, order: seq<nat>, n: Name)
    requires Permutes(order, |os|)
    ensures n in NamesOf(Arrange(os, order)) <==> n in NamesOf(os)
  {
    NamesListed(os, n);
    NamesListed(Arrange(os, order), n);
    if n in NamesOf(os) {
      var i :| 0 <= i < |os| && os[i].name == n;
      var j := PlaceOf(order, i);
      assert Arrange(os, order)[j].name == n;
    }
  }

  lemma {:induction false} NamesListed(os: seq<GroupOption>, n: Name)
    ensures n in NamesOf(os) <==> exists i :: 0 <= i < |os| && os[i].name == n
  {
    if os != [] {
      NamesListed(Init(os), n);
      assert forall i :: 0 <= i < |os| - 1 ==> Init(os)[i] == os[i];
      assert os[|os| - 1] == Last(os);
    }
  }

  function Below(n: nat): (r: set<nat>)
    ensures |r| == n && forall k: nat :: k in r <==> k < n
  {
    if n == 0 then {} else Below(n - 1) + {n - 1}
  }

  /** A rearrangement reaches every place. */
  lemma {:induction false} PlaceOf(order: seq<nat>, i: nat) returns (j: nat)
    requires Permutes(order, |order|) && i < |order|
    ensures j < |order| && order[j] == i
  {
    var reached, all := Members(order), Below(|order|);
    NoDupSize(order);
    assert reached <= all;
    assert |all - reached| == |all| - |reached|;
    assert i in all;
    assert i in order;
    j :| 0 <= j < |order| && order[j] == i;
  }
}
