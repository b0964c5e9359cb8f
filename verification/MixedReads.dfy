/** What a filter pass makes of contents that change between its filters. */
module MixedReads {
  import opened Answers
  import opened FilterOrder
  import opened ProviderProtocol
  import opened Selection
  import opened Seqs

  /** Filter `i`, which saw `lists[i]`, matches the proxy at `j`. */
  ghost predicate MatchAt(lists: seq<seq<Proxy>>, filters: seq<Filter>, i: nat, j: nat) {
    i < |lists| && i < |filters| && j < |lists[i]| && filters[i](lists[i][j].name)
  }

  /** Filter by filter, and within a filter by position. */
  predicate Earlier(a: (nat, nat), b: (nat, nat)) {
    a.0 < b.0 || (a.0 == b.0 && a.1 < b.1)
  }

  /** A proxy of that name was taken at `c` or before. */
  ghost predicate TakenBy(r: seq<Proxy>, at: seq<(nat, nat)>, n: Name, c: (nat, nat)) {
    exists k :: 0 <= k < |r| && k < |at| && r[k].name == n && !Earlier(c, at[k])
  }

  /**
   `r` holds what stands at the places `at`, which are matches before `c`, in order, each the first of its
   name: every match before `c` has its name taken there or earlier.
   */
  ghost predicate Gathered(lists: seq<seq<Proxy>>, filters: seq<Filter>, c: (nat, nat), r: seq<Proxy>,
                           at: seq<(nat, nat)>)
  {
    && |at| == |r|
    && (forall k :: 0 <= k < |r| ==> MatchAt(lists, filters, at[k].0, at[k].1) && r[k] == lists[at[k].0][at[k].1])
    && (forall k :: 0 <= k < |r| ==> Earlier(at[k], c))
    && (forall k, l :: 0 <= k < l < |r| ==> Earlier(at[k], at[l]) && r[k].name != r[l].name)
    && (forall i: nat, j: nat :: MatchAt(lists, filters, i, j) && Earlier((i, j), c) ==>
          TakenBy(r, at, lists[i][j].name, (i, j)))
  }

  /** The names taken are those of `r`. */
  ghost predicate Names(r: seq<Proxy>, names: set<Name>) {
    && (forall k :: 0 <= k < |r| ==> r[k].name in names)
    && forall n :: n in names ==> exists k :: 0 <= k < |r| && r[k].name == n
  }

  lemma TakenByMore(r: seq<Proxy>, at: seq<(nat, nat)>, p: Proxy, c: (nat, nat), n: Name, d: (nat, nat))
    requires |at| == |r| && TakenBy(r, at, n, d)
    ensures TakenBy(r + [p], at + [c], n, d)
  {
    var k :| 0 <= k < |r| && k < |at| && r[k].name == n && !Earlier(d, at[k]);
    assert (r + [p])[k] == r[k] && (at + [c])[k] == at[k];
  }

  lemma NamesMore(r: seq<Proxy>, p: Proxy, names: set<Name>)
    requires Names(r, names)
    ensures Names(r + [p], names + {p.name})
  {
    forall n | n in names + {p.name} ensures exists k :: 0 <= k < |r + [p]| && (r + [p])[k].name == n {
      if n in names {
        var k :| 0 <= k < |r| && r[k].name == n;
        assert (r + [p])[k].name == n;
      } else {
        assert (r + [p])[|r|].name == n;
      }
    }
  }

  /** A match whose name is free is taken. */
  lemma Take(lists: seq<seq<Proxy>>, filters: seq<Filter>, i: nat, j: nat, r: seq<Proxy>, at: seq<(nat, nat)>,
             names: set<Name>)
    requires Gathered(lists, filters, (i, j), r, at) && Names(r, names)
    requires MatchAt(lists, filters, i, j) && lists[i][j].name !in names
    ensures Gathered(lists, filters, (i, j + 1), r + [lists[i][j]], at + [(i, j)])
  {
    var p := lists[i][j];
    forall a: nat, b: nat | MatchAt(lists, filters, a, b) && Earlier((a, b), (i, j + 1))
      ensures TakenBy(r + [p], at + [(i, j)], lists[a][b].name, (a, b))
    {
      if Earlier((a, b), (i, j)) {
        TakenByMore(r, at, p, (i, j), lists[a][b].name, (a, b));
      } else {
        assert (r + [p])[|r|].name == p.name && (at + [(i, j)])[|r|] == (a, b);
      }
    }
  }

  /** Nothing new before the later place `d`. */
  lemma Later(lists: seq<seq<Proxy>>, filters: seq<Filter>, c: (nat, nat), d: (nat, nat), r: seq<Proxy>,
              at: seq<(nat, nat)>)
    requires Gathered(lists, filters, c, r, at) && (c == d || Earlier(c, d))
    requires forall i: nat, j: nat :: MatchAt(lists, filters, i, j) && Earlier((i, j), d) && !Earlier((i, j), c) ==>
               TakenBy(r, at, lists[i][j].name, (i, j))
    ensures Gathered(lists, filters, d, r, at)
  {
    forall k | 0 <= k < |r| ensures Earlier(at[k], d) {
      assert Earlier(at[k], c);
    }
  }

  /** Anything else is passed over. */
  lemma Skip(lists: seq<seq<Proxy>>, filters: seq<Filter>, i: nat, j: nat, r: seq<Proxy>, at: seq<(nat, nat)>,
             names: set<Name>)
    requires Gathered(lists, filters, (i, j), r, at) && Names(r, names) && i < |lists| && j < |lists[i]|
    requires !MatchAt(lists, filters, i, j) || lists[i][j].name in names
    ensures Gathered(lists, filters, (i, j + 1), r, at)
  {
    if MatchAt(lists, filters, i, j) {
      var k :| 0 <= k < |r| && r[k].name == lists[i][j].name;
      assert Earlier(at[k], (i, j));
      assert TakenBy(r, at, lists[i][j].name, (i, j));
    }
    Later(lists, filters, (i, j), (i, j + 1), r, at);
  }

  lemma RowDone(lists: seq<seq<Proxy>>, filters: seq<Filter>, i: nat, r: seq<Proxy>, at: seq<(nat, nat)>)
    requires i < |lists| && Gathered(lists, filters, (i, |lists[i]|), r, at)
    ensures Gathered(lists, filters, (i + 1, 0), r, at)
  {
    Later(lists, filters, (i, |lists[i]|), (i + 1, 0), r, at);
  }

  /** One more proxy under one more filter. */
  lemma SweepOne(lists: seq<seq<Proxy>>, filters: seq<Filter>, i: nat, j: nat, r: seq<Proxy>, bucket: seq<Proxy>,
                 names: set<Name>, at: seq<(nat, nat)>)
    returns (more: seq<(nat, nat)>)
    requires i < |lists| == |filters| && j < |lists[i]|
    requires Gathered(lists, filters, (i, j), r + bucket, at) && Names(r + bucket, names)
    ensures var p := lists[i][j];
            if filters[i](p.name) && p.name !in names
            then Gathered(lists, filters, (i, j + 1), r + (bucket + [p]), more)
                 && Names(r + (bucket + [p]), names + {p.name})
            else Gathered(lists, filters, (i, j + 1), r + bucket, more)
  {
    var p := lists[i][j];
    more := at;
    if filters[i](p.name) && p.name !in names {
      Take(lists, filters, i, j, r + bucket, at, names);
      NamesMore(r + bucket, p, names);
      more := at + [(i, j)];
      assert r + bucket + [p] == r + (bucket + [p]);
    } else {
      Skip(lists, filters, i, j, r + bucket, at, names);
    }
  }

  lemma SweepGathers(lists: seq<seq<Proxy>>, filters: seq<Filter>, i: nat, r: seq<Proxy>, names: set<Name>,
                     at: seq<(nat, nat)>)
    returns (more: seq<(nat, nat)>)
    requires i < |lists| == |filters| && Gathered(lists, filters, (i, 0), r, at) && Names(r, names)
    ensures var (bucket, taken) := SweepOver(lists[i], filters[i], names);
            Gathered(lists, filters, (i + 1, 0), r + bucket, more) && Names(r + bucket, taken)
  {
    more := at;
    assert r + [] == r;
    for j := 0 to |lists[i]|
      invariant var (bucket, taken) := SweepOver(lists[i][..j], filters[i], names);
                Gathered(lists, filters, (i, j), r + bucket, more) && Names(r + bucket, taken)
    {
      var (bucket, taken) := SweepOver(lists[i][..j], filters[i], names);
      SweepOverNext(lists[i], j, filters[i], names);
      more := SweepOne(lists, filters, i, j, r, bucket, taken, more);
    }
    assert lists[i][..|lists[i]|] == lists[i];
    RowDone(lists, filters, i, r + SweepOver(lists[i], filters[i], names).0, more);
  }

  /**
   A filter pass in which each filter sees its own content, whatever that is: the first match of each name,
   filter by filter and by position, and nothing else.
   */
  lemma PassGathers(lists: seq<seq<Proxy>>, filters: seq<Filter>) returns (at: seq<(nat, nat)>)
    requires |lists| == |filters|
    ensures Gathered(lists, filters, (|lists|, 0), PassOver(lists, filters).0, at)
  {
    at := [];
    for i := 0 to |lists|
      invariant var (r, names) := PassOver(lists[..i], filters[..i]);
                Gathered(lists, filters, (i, 0), r, at) && Names(r, names)
    {
      var (r, names) := PassOver(lists[..i], filters[..i]);
      assert Init(lists[..i + 1]) == lists[..i] && Last(lists[..i + 1]) == lists[i];
      assert Init(filters[..i + 1]) == filters[..i] && Last(filters[..i + 1]) == filters[i];
      at := SweepGathers(lists, filters, i, r, names, at);
    }
    assert lists[..|lists|] == lists && filters[..|filters|] == filters;
  }

  /** A provider's part: its content at the one read, or what the pass gathers from one read a filter. */
  ghost predicate IsPart(setup: Setup, h: History, got: seq<seq<nat>>, p: nat, part: seq<Proxy>, at: seq<(nat, nat)>)
    requires Readable(setup, h, got) && p < |got|
  {
    if setup.cfg.filters == [] || setup.compatible[p] then part == h[p][got[p][0]]
    else
      |got[p]| == |setup.cfg.filters| &&
      Gathered(seq(|got[p]|, k requires 0 <= k < |got[p]| => h[p][got[p][k]]), setup.cfg.filters,
               (|got[p]|, 0), part, at)
  }

  lemma PartGathers(setup: Setup, h: History, got: seq<seq<nat>>, p: nat) returns (at: seq<(nat, nat)>)
    requires Readable(setup, h, got) && p < |got|
    ensures IsPart(setup, h, got, p, PartsRead(setup, h, got)[p], at)
  {
    var lists := ListsRead(setup, h, got, p);
    at := [];
    if setup.cfg.filters != [] && !setup.compatible[p] {
      at := PassGathers(lists, setup.cfg.filters);
      assert lists == seq(|got[p]|, k requires 0 <= k < |got[p]| => h[p][got[p][k]]);
    }
  }

  ghost predicate HasPart(setup: Setup, h: History, got: seq<seq<nat>>, p: nat, part: seq<Proxy>)
    requires Readable(setup, h, got) && p < |got|
  {
    exists at :: IsPart(setup, h, got, p, part, at)
  }

  /** What a call answers when the contents changed while it read them. */
  lemma AnswerGathers(setup: Setup, h: History, got: seq<seq<nat>>) returns (parts: seq<seq<Proxy>>)
    requires Readable(setup, h, got)
    ensures |parts| == |got| && forall p :: 0 <= p < |got| ==> HasPart(setup, h, got, p, parts[p])
    ensures Answer(setup, h, got)
         == Survivors(setup.cfg, if |parts| <= 1 || |setup.cfg.filters| <= 1 then Concat(parts)
                                 else Ranked(Concat(parts), setup.cfg.filters, |setup.cfg.filters| + 1))
  {
    parts := PartsRead(setup, h, got);
    forall p | 0 <= p < |got| ensures HasPart(setup, h, got, p, parts[p]) {
      var at := PartGathers(setup, h, got, p);
    }
    AssembleIs(setup.cfg, parts);
  }
}
