/** `GetProxies` and the providers behind it, as objects updated in place. */
module GroupBase {
  import opened Seqs
  import opened Selection

  class BaseProvider {
    const compatible: bool
    var proxies: seq<Proxy>
    var version: nat
    /** Every content so far, the initial one first. */
    ghost var history: seq<seq<Proxy>>

    ghost predicate Valid()
      reads this
    {
      |history| == version + 1 && proxies == Last(history)
    }

    constructor (compatible: bool, proxies: seq<Proxy>)
      ensures Valid() && version == 0 && this.proxies == proxies && this.compatible == compatible
    {
      this.compatible, this.proxies, version, history := compatible, proxies, 0, [proxies];
    }

    method SetProxies(ps: seq<Proxy>)
      requires Valid()
      modifies this
      ensures Valid() && proxies == ps && version == old(version) + 1 && history == old(history) + [ps]
    {
      proxies := ps;
      version := version + 1;
      history := history + [ps];
    }
  }

  class GroupBase {
    const cfg: Config
    const providers: seq<BaseProvider>
    const emptyFallback: Proxy
    var providerVersions: seq<nat>
    var providerProxies: seq<Proxy>

    ghost function At(versions: seq<nat>): (cs: seq<Content>)
      requires |versions| == |providers|
      requires forall i :: 0 <= i < |providers| ==> versions[i] < |providers[i].history|
      reads providers
      ensures |cs| == |providers|
    {
      seq(|providers|, i requires 0 <= i < |providers| && versions[i] < |providers[i].history| reads providers
        => Content(providers[i].compatible, providers[i].history[versions[i]]))
    }

    ghost function Current(): (cs: seq<Content>)
      reads providers
      ensures |cs| == |providers|
    {
      seq(|providers|, i requires 0 <= i < |providers| reads providers
        => Content(providers[i].compatible, providers[i].proxies))
    }

    /** What the providers hold now, read off their own fields. */
    lemma CurrentAt(i: nat)
      requires i < |providers|
      ensures Current()[i] == Content(providers[i].compatible, providers[i].proxies)
    {
    }

    /** What is cached was computed from contents no newer than the present ones, and is not empty. */
    ghost predicate Valid()
      reads this, providers
    {
      && (forall p :: p in providers ==> p.Valid())
      && (providerVersions == [] ==> providerProxies == [])
      && (providerVersions != [] ==>
            && |providerVersions| == |providers|
            && (forall i :: 0 <= i < |providers| ==> providerVersions[i] <= providers[i].version)
            && (forall i :: 0 <= i < |providers| ==> providerVersions[i] < |providers[i].history|)
            && providerProxies == Compute(cfg, At(providerVersions)) != [])
    }

    constructor (cfg: Config, providers: seq<BaseProvider>, emptyFallback: Proxy)
      requires forall p :: p in providers ==> p.Valid()
      ensures Valid() && this.cfg == cfg && this.providers == providers && this.emptyFallback == emptyFallback
    {
      this.cfg, this.providers, this.emptyFallback := cfg, providers, emptyFallback;
      providerVersions, providerProxies := [], [];
    }

    /** A provider's update leaves the group valid: what it cached is merely older now. */
    method Update(i: nat, ps: seq<Proxy>)
      requires Valid() && i < |providers|
      modifies providers[i]
      ensures Valid() && providers[i].proxies == ps
    {
      ghost var old_ := if providerVersions != [] then At(providerVersions) else [];
      providers[i].SetProxies(ps);
      if providerVersions != [] {
        assert At(providerVersions) == old_;
      }
    }

    method ReadVersions() returns (versions: seq<nat>)
      ensures |versions| == |providers| && forall i :: 0 <= i < |providers| ==> versions[i] == providers[i].version
    {
      versions := [];
      for i := 0 to |providers|
        invariant |versions| == i && forall k :: 0 <= k < i ==> versions[k] == providers[k].version
      {
        versions := versions + [providers[i].version];
      }
    }

    /** The loops over the providers: each one's part, filtered unless Compatible. */
    method Collect() returns (all: seq<Proxy>)
      ensures all == Flatten(Parts(cfg, Current()))
    {
      all := [];
      ghost var parts := Parts(cfg, Current());
      for i := 0 to |providers|
        invariant all == Flatten(parts[..i])
      {
        var pd := providers[i];
        var part := pd.proxies;
        if |cfg.filters| != 0 && !pd.compatible {
          part := Passes(pd.proxies, cfg.filters, false);
        }
        assert parts[..i + 1] == parts[..i] + [part] && Init(parts[..i + 1]) == parts[..i];
        all := all + part;
      }
      assert parts[..|providers|] == parts;
    }

    /** The computation behind a cache miss. */
    method Recompute() returns (r: seq<Proxy>)
      ensures r == Compute(cfg, Current())
    {
      ghost var parts := Parts(cfg, Current());
      r := Collect();
      r := Finish(cfg, r, |providers| > 1, parts);
    }

    lemma VersionsAreCurrent(versions: seq<nat>)
      requires forall p :: p in providers ==> p.Valid()
      requires |versions| == |providers| && forall i :: 0 <= i < |providers| ==> versions[i] == providers[i].version
      ensures forall i :: 0 <= i < |providers| ==> versions[i] < |providers[i].history|
      ensures At(versions) == Current()
    {
      forall i | 0 <= i < |providers|
        ensures versions[i] < |providers[i].history| && providers[i].history[versions[i]] == providers[i].proxies
      {
        assert providers[i] in providers;
      }
    }

    /** Only a non-empty answer is cached. */
    method Remember(versions: seq<nat>, ps: seq<Proxy>)
      requires Valid() && providers != [] && |versions| == |providers|
      requires forall i :: 0 <= i < |providers| ==>
                 versions[i] == providers[i].version && versions[i] < |providers[i].history|
      requires ps != [] && ps == Compute(cfg, At(versions))
      modifies this
      ensures Valid() && providerVersions == versions && providerProxies == ps
    {
      providerVersions := versions;
      providerProxies := ps;
    }

    /**
     With no update in between, the answer is that of a full recomputation, cached or not, and the empty
     fallback if that is empty. Without providers the answer is empty.
     */
    method GetProxies() returns (r: seq<Proxy>)
      requires Valid()
      modifies this
      ensures Valid()
      ensures providers == [] ==> r == []
      ensures providers != [] ==>
                var now := Compute(cfg, Current());
                r == if now == [] then [emptyFallback] else now
      ensures providers != [] ==> r != []
      ensures Compute(cfg, Current()) != [] && providers != [] ==>
                && |providerVersions| == |providers|
                && forall i :: 0 <= i < |providers| ==> providerVersions[i] == providers[i].version
    {
      var versions := ReadVersions();
      VersionsAreCurrent(versions);
      if versions == providerVersions {
        return providerProxies;
      }
      r := Recompute();
      if |r| == 0 {
        return [emptyFallback];
      }
      Remember(versions, r);
    }
  }
}
