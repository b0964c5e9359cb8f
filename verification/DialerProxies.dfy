/** `validateDialerProxies`: every dialer exists, and following dialers from any proxy comes to an end. */
module DialerProxies {
  import opened Seqs
  import opened Graphs

  datatype Error = NotFound(name: Name, dialer: Name) | Circular(name: Name)

  /** Who dials through whom. */
  type Dialers = map<Name, Name>

  /** `n` steps along the dialers from `x`; nothing once a proxy without a dialer has been passed. */
  function Follow(g: Dialers, x: Name, n: nat): Option<Name>
    decreases n
  {
    if n == 0 then Some(x) else if x in g then Follow(g, g[x], n - 1) else None
  }

  ghost predicate Ends(g: Dialers, x: Name) {
    exists n: nat :: Follow(g, x, n) == None
  }

  lemma {:induction false} FollowMore(g: Dialers, x: Name, m: nat, n: nat)
    ensures Follow(g, x, m + n) == match Follow(g, x, m) case Some(y) => Follow(g, y, n) case None => None
    decreases m
  {
    if m > 0 && x in g {
      FollowMore(g, g[x], m - 1, n);
    }
  }

  /** A proxy that comes back to itself never ends. */
  lemma {:induction false} ReturningGoesOn(g: Dialers, x: Name, m: nat, n: nat)
    requires m > 0 && Follow(g, x, m) == Some(x)
    ensures Follow(g, x, n).Some?
    decreases n
  {
    if n >= m {
      FollowMore(g, x, m, n - m);
      ReturningGoesOn(g, x, m, n - m);
    } else {
      FollowMore(g, x, n, m - n);
    }
  }

  lemma EndsByOne(g: Dialers, x: Name)
    ensures Ends(g, x) <==> x !in g || Ends(g, g[x])
  {
    if x !in g {
      assert Follow(g, x, 1) == None;
    } else {
      if Ends(g, x) {
        var n: nat :| Follow(g, x, n) == None;
        assert Follow(g, g[x], n - 1) == None;
      }
      if Ends(g, g[x]) {
        var n: nat :| Follow(g, g[x], n) == None;
        assert Follow(g, x, n + 1) == None;
      }
    }
  }

  /** Each proxy on the path dials through the next one. */
  ghost predicate Chain(g: Dialers, path: seq<Name>, next: Name) {
    && (forall x :: x in path ==> x in g)
    && (forall i, j :: 0 <= i < |path| && j == i + 1 < |path| ==> g[path[i]] == path[j])
    && (path != [] ==> g[Last(path)] == next)
  }

  lemma {:induction false} ChainFollows(g: Dialers, path: seq<Name>, next: Name, i: nat)
    requires Chain(g, path, next) && i < |path|
    ensures Follow(g, path[i], |path| - i) == Some(next)
    decreases |path| - i
  {
    if i < |path| - 1 {
      ChainFollows(g, path, next, i + 1);
      assert g[path[i]] == path[i + 1];
    } else {
      assert path[i] == Last(path);
      assert Follow(g, path[i], 1) == Follow(g, next, 0);
    }
  }

  /** `validateDialerProxiesHasCycle`; the visited set is shared by the whole search from one proxy. */
  method HasCycle(current: Name, g: Dialers, visited: set<Name>, path: seq<Name>) returns (cycle: bool, seen: set<Name>)
    requires Chain(g, path, current)
    requires forall v :: v in visited ==> v in path || Ends(g, v)
    ensures cycle <==> !Ends(g, current)
    decreases |g.Keys - visited|
  {
    seen := visited;
    for i := 0 to |path|
      invariant current !in path[..i]
    {
      if path[i] == current {
        ChainFollows(g, path, current, i);
        forall n: nat ensures Follow(g, current, n).Some? {
          ReturningGoesOn(g, current, |path| - i, n);
        }
        return true, seen;
      }
    }
    if current in visited {
      return false, seen;
    }
    EndsByOne(g, current);
    seen := seen + {current};
    if current in g {
      assert g.Keys - seen < g.Keys - visited by {
        assert current in g.Keys - visited;
      }
      SmallerSet(g.Keys - seen, g.Keys - visited);
      var longer := path + [current];
      assert Chain(g, longer, g[current]);
      cycle, seen := HasCycle(g[current], g, seen, longer);
      return;
    }
    cycle := false;
  }

  /** `proxies` gives each proxy's dialer, "" for none. */
  function Named(proxies: map<Name, Name>): Dialers {
    map n | n in proxies && proxies[n] != "" :: proxies[n]
  }

  /** Accepted exactly when every dialer exists and every proxy's dialers end, in any order of the maps. */
  method ValidateDialerProxies(proxies: map<Name, Name>) returns (err: Option<Error>)
    ensures err == None <==>
            && (forall n :: n in proxies && proxies[n] != "" ==> proxies[n] in proxies)
            && (forall n :: n in proxies ==> Ends(Named(proxies), n))
    ensures err.Some? && err.value.NotFound? ==>
            var n := err.value.name; n in proxies && proxies[n] == err.value.dialer != "" && proxies[n] !in proxies
    ensures err.Some? && err.value.Circular? ==> !Ends(Named(proxies), err.value.name)
  {
    var g: Dialers := map[];
    var names := proxies.Keys;
    while names != {}
      invariant names <= proxies.Keys
      invariant g == map n | n in proxies && n !in names && proxies[n] != "" :: proxies[n]
      invariant forall n :: n in g ==> g[n] in proxies
      decreases |names|
    {
      var name :| name in names;
      names := names - {name};
      var dialer := proxies[name];
      if dialer != "" {
        if dialer !in proxies {
          return Some(NotFound(name, dialer));
        }
        g := g[name := dialer];
      }
    }
    assert g == Named(proxies);
    names := g.Keys;
    while names != {}
      invariant names <= g.Keys
      invariant forall n :: n in g && n !in names ==> Ends(g, n)
      decreases |names|
    {
      var name :| name in names;
      names := names - {name};
      var cycle, _ := HasCycle(name, g, {}, []);
      if cycle {
        return Some(Circular(name));
      }
    }
    forall n | n in proxies ensures Ends(g, n) {
      EndsByOne(g, n);
    }
    err := None;
  }
}
