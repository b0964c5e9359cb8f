/** How often an element occurs in a sequence. */
module Counting {
  import opened Seqs

  /** How often `x` occurs in `q`. */
  function Count<T(==)>(q: seq<T>, x: T): nat {
    if q == [] then 0 else Count(Init(q), x) + if Last(q) == x then 1 else 0
  }

  lemma CountAppend<T>(q: seq<T>, n: T, x: T)
    ensures Count(q + [n], x) == Count(q, x) + if x == n then 1 else 0
  {
    assert Init(q + [n]) == q;
  }

  lemma {:induction false} CountMember<T>(q: seq<T>, x: T)
    ensures x in q <==> Count(q, x) > 0
  {
    if q != [] {
      assert q == Init(q) + [Last(q)];
      CountMember(Init(q), x);
    }
  }

  lemma {:induction false} CountPrefix<T>(q: seq<T>, i: nat, x: T)
    requires i <= |q|
    ensures Count(q[..i], x) <= Count(q, x)
    decreases |q| - i
  {
    if i < |q| {
      CountAppend(q[..i], q[i], x);
      assert q[..i + 1] == q[..i] + [q[i]];
      CountPrefix(q, i + 1, x);
    } else {
      assert q[..i] == q;
    }
  }

  lemma {:induction false} CountFront<T>(q: seq<T>, n: T)
    requires q != []
    ensures Count(q, n) == Count(q[1..], n) + if q[0] == n then 1 else 0
  {
    if |q| > 1 {
      CountFront(Init(q), n);
      assert Init(q)[1..] == Init(q[1..]);
    }
  }

  lemma {:induction false} CountConcat<T>(a: seq<T>, b: seq<T>, c: T)
    ensures Count(a + b, c) == Count(a, c) + Count(b, c)
  {
    if b == [] {
      assert a + b == a;
    } else {
      assert Init(a + b) == a + Init(b) && Last(a + b) == Last(b);
      CountConcat(a, Init(b), c);
    }
  }

  lemma CountOne<T>(x: T, c: T)
    ensures Count([x], c) == if x == c then 1 else 0
  {
    assert Init([x]) == [];
  }

  lemma CountWithout<T>(q: seq<T>, i: nat, c: T)
    requires i < |q|
    ensures Count(q, c) == Count(q[..i] + q[i + 1..], c) + if q[i] == c then 1 else 0
  {
    assert q == (q[..i] + [q[i]]) + q[i + 1..];
    CountConcat(q[..i] + [q[i]], q[i + 1..], c);
    CountConcat(q[..i], [q[i]], c);
    CountOne(q[i], c);
    CountConcat(q[..i], q[i + 1..], c);
  }

  lemma {:induction false} CountNoDup<T>(q: seq<T>)
    requires forall c: T :: Count(q, c) <= 1
    ensures NoDup(q)
  {
    if q != [] {
      forall c: T ensures Count(Init(q), c) <= 1 {
        assert Count(q, c) <= 1;
      }
      CountNoDup(Init(q));
      CountMember(Init(q), Last(q));
      assert Count(q, Last(q)) <= 1;
      assert q == Init(q) + [Last(q)];
    }
  }
}
