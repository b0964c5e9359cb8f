/** Facts about sequences without repetition, shared by the cache, graph and selection models. */
module Seqs {
  datatype Option<+T> = None | Some(value: T)

  ghost predicate NoDup<T>(q: seq<T>) {
    forall i, j :: 0 <= i < j < |q| ==> q[i] != q[j]
  }

  function Last<T>(q: seq<T>): T
    requires q != []
  {
    q[|q| - 1]
  }

  function Init<T>(q: seq<T>): seq<T>
    requires q != []
  {
    q[..|q| - 1]
  }

  /** `q` with the first occurrence of `x` taken out. */
  function Without<T(==)>(q: seq<T>, x: T): (r: seq<T>)
    ensures x !in q ==> r == q
    ensures x in q ==> |r| == |q| - 1
  {
    if q == [] then [] else if q[0] == x then q[1..] else [q[0]] + Without(q[1..], x)
  }

  lemma {:induction false} WithoutAt<T>(q: seq<T>, i: nat)
    requires NoDup(q) && i < |q|
    ensures Without(q, q[i]) == q[..i] + q[i + 1..]
  {
    if i > 0 {
      assert q[1..][i - 1] == q[i];
      WithoutAt(q[1..], i - 1);
      assert q[..i] + q[i + 1..] == [q[0]] + (q[1..][..i - 1] + q[1..][i..]);
    }
  }

  lemma {:induction false} WithoutConcat<T>(a: seq<T>, b: seq<T>, x: T)
    ensures Without(a + b, x) == if x in a then Without(a, x) + b else a + Without(b, x)
  {
    if a == [] {
      assert a + b == b;
      assert a + Without(b, x) == Without(b, x);
    } else {
      assert (a + b)[1..] == a[1..] + b;
      WithoutConcat(a[1..], b, x);
      if a[0] != x {
        assert x in a <==> x in a[1..];
        assert [a[0]] + (a[1..] + Without(b, x)) == a + Without(b, x);
      }
    }
  }

  lemma PushAssoc<T>(x: T, a: seq<T>, b: seq<T>)
    ensures ([x] + a) + b == [x] + (a + b)
  {
  }

  /** Taking `x` out loses no other element and adds none. */
  lemma {:induction false} WithoutOthers<T>(q: seq<T>, x: T)
    ensures forall y :: y in Without(q, x) ==> y in q
    ensures forall y :: y in q && y != x ==> y in Without(q, x)
  {
    if q != [] {
      WithoutOthers(q[1..], x);
      assert q == [q[0]] + q[1..];
    }
  }

  /** Removing an element of a repetition-free sequence leaves the others, in order. */
  lemma WithoutMembers<T>(q: seq<T>, x: T)
    requires NoDup(q)
    ensures NoDup(Without(q, x))
    ensures x !in Without(q, x)
    ensures forall y :: y in Without(q, x) ==> y in q
    ensures forall y :: y in q && y != x ==> y in Without(q, x)
  {
    if x in q {
      var i :| 0 <= i < |q| && q[i] == x;
      WithoutAt(q, i);
      var r := Without(q, x);
      forall y ensures y in r <==> y in q && y != x {
        if y in q && y != x {
          var j :| 0 <= j < |q| && q[j] == y;
          assert r[if j < i then j else j - 1] == y;
        }
      }
    }
  }

  lemma NoDupConcat<T>(a: seq<T>, b: seq<T>)
    ensures NoDup(a + b) <==> NoDup(a) && NoDup(b) && forall x :: x in a ==> x !in b
  {
    if NoDup(a + b) {
      forall x | x in a ensures x !in b {
        var i :| 0 <= i < |a| && a[i] == x;
        forall j | 0 <= j < |b| ensures b[j] != x {
          assert (a + b)[i] != (a + b)[|a| + j];
        }
      }
      forall i, j | 0 <= i < j < |a| ensures a[i] != a[j] {
        assert (a + b)[i] != (a + b)[j];
      }
      forall i, j | 0 <= i < j < |b| ensures b[i] != b[j] {
        assert (a + b)[|a| + i] != (a + b)[|a| + j];
      }
    } else if NoDup(a) && NoDup(b) && forall x :: x in a ==> x !in b {
      forall i, j | 0 <= i < j < |a + b| ensures (a + b)[i] != (a + b)[j] {
        if i < |a| <= j {
          assert a[i] in a && b[j - |a|] in b;
        }
      }
    }
  }

  lemma PushNoDup<T>(x: T, q: seq<T>)
    requires NoDup(q) && x !in q
    ensures NoDup([x] + q) && forall y :: y in [x] + q <==> y == x || y in q
  {
  }

  function Members<T(==)>(q: seq<T>): set<T> {
    set x | x in q
  }

  lemma {:induction false} SubsetSize<T>(a: set<T>, b: set<T>)
    requires a <= b
    ensures |a| <= |b|
  {
    if a != {} {
      var x :| x in a;
      SubsetSize(a - {x}, b - {x});
    }
  }

  lemma {:induction false} NoDupSize<T>(q: seq<T>)
    requires NoDup(q)
    ensures |Members(q)| == |q|
  {
    if q != [] {
      NoDupSize(Init(q));
      assert Last(q) !in Init(q);
      assert q == Init(q) + [Last(q)];
      assert Members(q) == Members(Init(q)) + {Last(q)};
    }
  }
}
