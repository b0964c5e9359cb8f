/** The ring-buffer deque of core/Clash.Meta/common/deque, updated in place, as a sequence. */
module Deque {
  import opened Arith
  import opened Mask
  import opened DequeCost

  /** Go's `%`: the remainder takes the sign of the dividend. */
  function GoRemainder(n: int, m: int): int
    requires m > 0
  {
    if n >= 0 then n % m else -((-n) % m)
  }

  /** `s` turned `k` steps front to back. */
  function Rotated<T>(s: seq<T>, k: int): seq<T>
    requires 0 <= k <= |s|
  {
    s[k..] + s[..k]
  }

  /** `s` with two elements exchanged. */
  function Exchanged<T>(s: seq<T>, i: int, j: int): seq<T>
    requires 0 <= i < |s| && 0 <= j < |s|
  {
    s[i := s[j]][j := s[i]]
  }

  /** The first element moved to the end. */
  function Forward<T>(s: seq<T>): seq<T>
    requires s != []
  {
    s[1..] + s[..1]
  }

  /** The last element moved to the front. */
  function Backward<T>(s: seq<T>): seq<T>
    requires s != []
  {
    s[|s| - 1..] + s[..|s| - 1]
  }

  class Deque<T> {
    const zero: T
    var buf: array<T>
    var head: int
    var tail: int
    var count: int
    var minCap: int
    ghost var copied: nat

    /** The buffer cell of logical index `i`. */
    function Cell(i: int): int
      reads this
    {
      Wrap(head + i, buf.Length)
    }

    ghost predicate Live(j: int)
      reads this
    {
      Wrap(j - head, buf.Length) < count
    }

    ghost predicate Sized()
      reads this
    {
      && 0 <= minCap && (minCap == 0 || (minCap > 1 && Pow2(minCap)))
      && 0 <= count <= buf.Length
      && (buf.Length == 0 ==> head == 0 && tail == 0)
      && (buf.Length > 0 ==>
            && buf.Length > 1 && Pow2(buf.Length)
            && 0 <= head < buf.Length && tail == Wrap(head + count, buf.Length))
    }

    /** Capacity 0 or a power of two, the tail where head and count put it, blanks outside the window. */
    ghost predicate Valid()
      reads this, buf
    {
      && Sized()
      && forall j :: 0 <= j < buf.Length && !Live(j) ==> buf[j] == zero
    }

    ghost function Contents(): (s: seq<T>)
      requires Sized()
      reads this, buf
      ensures |s| == count
    {
      seq(count, i requires 0 <= i < count reads this, buf requires Sized() => buf[Cell(i)])
    }

    ghost function Sizes(): Shape
      requires Sized()
      reads this
    {
      Shape(buf.Length, count, minCap)
    }

    constructor (zero: T)
      ensures Valid() && Contents() == [] && Sizes() == Shape(0, 0, 0) && copied == 0 && fresh(buf)
    {
      this.zero := zero;
      buf := new T[0];
      head, tail, count, minCap, copied := 0, 0, 0, 0, 0;
    }

    function Next(i: int): (r: int)
      requires Sized() && 0 <= i < buf.Length
      reads this
      ensures r == Wrap(i + 1, buf.Length)
    {
      MaskWraps(i + 1, buf.Length);
      And(i + 1, buf.Length - 1)
    }

    function Prev(i: int): (r: int)
      requires Sized() && 0 <= i < buf.Length
      reads this
      ensures r == Wrap(i - 1, buf.Length)
    {
      MaskWraps(i - 1, buf.Length);
      And(i - 1, buf.Length - 1)
    }

    /** A zeroed buffer of `n` cells. */
    method Blank(n: nat) returns (b: array<T>)
      ensures fresh(b) && b.Length == n && forall j :: 0 <= j < n ==> b[j] == zero
    {
      var z := zero;
      b := new T[n](_ => z);
    }

    /** `copy(dst[at:], buf[from:to])`, for a destination with room. */
    method CopyOut(dst: array<T>, at: nat, from: nat, to: nat)
      requires from <= to <= buf.Length && at + (to - from) <= dst.Length && dst != buf
      modifies dst
      ensures forall j :: 0 <= j < dst.Length ==>
                dst[j] == if at <= j < at + (to - from) then buf[from + j - at] else old(dst[j])
    {
      for i := 0 to to - from
        invariant forall j :: 0 <= j < dst.Length ==>
                    dst[j] == if at <= j < at + i then buf[from + j - at] else old(dst[j])
      {
        dst[at + i] := buf[from + i];
      }
    }

    /** The end of `resize`: `b` holds the elements of `s` from its first cell on. */
    method Install(b: array<T>, ghost s: seq<T>)
      requires Sized() && |s| == count < b.Length && 1 < b.Length && Pow2(b.Length)
      requires forall i :: 0 <= i < b.Length ==> b[i] == if i < count then s[i] else zero
      modifies this`head, this`tail, this`buf
      ensures Valid() && Contents() == s && buf == b && head == 0 && tail == count
    {
      head := 0;
      tail := count;
      buf := b;
    }

    /** The copies of `resize`: in one piece, or from the head to the end of the buffer and then from its start. */
    method CopyAll(dst: array<T>)
      requires Valid() && 0 < count <= dst.Length && dst != buf
      modifies dst
      ensures forall i :: 0 <= i < dst.Length ==> dst[i] == if i < count then Contents()[i] else old(dst[i])
    {
      if tail > head {
        CopyOut(dst, 0, head, tail);
      } else {
        var n := buf.Length - head;
        CopyOut(dst, 0, head, buf.Length);
        CopyOut(dst, n, 0, tail);
      }
    }

    /** `resize`, for a non-empty deque and a larger power of two. */
    method Resize(newSize: nat)
      requires Valid() && 0 < count < newSize && Pow2(newSize)
      modifies this
      ensures Valid() && fresh(buf) && Contents() == old(Contents())
      ensures Sizes() == old(Sizes()).(cap := newSize) && copied == old(copied) + count
      ensures head == 0 && tail == count
    {
      var newBuf := Blank(newSize);
      CopyAll(newBuf);
      Install(newBuf, Contents());
      copied := copied + count;
    }

    method GrowIfFull()
      requires Valid()
      modifies this
      ensures Valid() && Contents() == old(Contents()) && count == old(count) < buf.Length
      ensures buf == old(buf) || fresh(buf)
      ensures var s := old(Sizes()); var t := Push(s).0;
              && Sizes() == t.(count := s.count)
              && copied == old(copied) + Push(s).1
    {
      if count != buf.Length {
        return;
      }
      if buf.Length == 0 {
        if minCap == 0 {
          minCap := MIN_CAPACITY;
        }
        buf := Blank(minCap);
        assert Pow2(8) by { assert Pow2(4) by { assert Pow2(2); } }
        return;
      }
      Pow2Double(count);
      Resize(count * 2);
    }

    method ShrinkIfExcess()
      requires Valid()
      modifies this
      ensures Valid() && Contents() == old(Contents()) && count == old(count)
      ensures buf == old(buf) || fresh(buf)
      ensures if old(buf.Length) > minCap && 4 * count == old(buf.Length)
              then Sizes() == old(Sizes()).(cap := 2 * count) && copied == old(copied) + count
              else Sizes() == old(Sizes()) && copied == old(copied)
    {
      if buf.Length > minCap && count * 4 == buf.Length {
        Pow2Double(buf.Length);
        Resize(count * 2);
      }
    }

    /** The store half of `PushBack`: there is room. */
    method StoreBack(elem: T)
      requires Valid() && count < buf.Length
      modifies this`tail, this`count, buf
      ensures Valid() && Contents() == old(Contents()) + [elem] && count == old(count) + 1
    {
      ghost var s := Contents();
      buf[tail] := elem;
      tail := Next(tail);
      count := count + 1;
      assert forall i :: 0 <= i < count - 1 ==> buf[Cell(i)] == s[i];
      assert Contents() == s + [elem];
    }

    /** The store half of `PushFront`. */
    method StoreFront(elem: T)
      requires Valid() && count < buf.Length
      modifies this`head, this`count, buf
      ensures Valid() && Contents() == [elem] + old(Contents()) && count == old(count) + 1
    {
      ghost var s := Contents();
      head := Prev(head);
      buf[head] := elem;
      count := count + 1;
      forall i | 1 <= i < count ensures buf[Cell(i)] == s[i - 1] {
        assert Cell(i) == old(Cell(i - 1));
      }
      assert Contents() == [elem] + s;
    }

    method PushBack(elem: T)
      requires Valid()
      modifies this, buf
      ensures Valid() && (buf == old(buf) || fresh(buf))
      ensures Contents() == old(Contents()) + [elem]
      ensures (Sizes(), copied - old(copied)) == Push(old(Sizes()))
    {
      GrowIfFull();
      StoreBack(elem);
    }

    method PushFront(elem: T)
      requires Valid()
      modifies this, buf
      ensures Valid() && (buf == old(buf) || fresh(buf))
      ensures Contents() == [elem] + old(Contents())
      ensures (Sizes(), copied - old(copied)) == Push(old(Sizes()))
    {
      GrowIfFull();
      StoreFront(elem);
    }

    /** `PopFront` before it considers shrinking. */
    method TakeFront() returns (ret: T)
      requires Valid() && count > 0
      modifies this`head, this`count, buf
      ensures Valid() && count == old(count) - 1 && [ret] + Contents() == old(Contents())
    {
      ghost var s := Contents();
      ret := buf[head];
      buf[head] := zero;
      head := Next(head);
      count := count - 1;
      assert [ret] + Contents() == s;
    }

    /** `PopBack` before it considers shrinking. */
    method TakeBack() returns (ret: T)
      requires Valid() && count > 0
      modifies this`tail, this`count, buf
      ensures Valid() && count == old(count) - 1 && Contents() + [ret] == old(Contents())
    {
      ghost var s := Contents();
      tail := Prev(tail);
      ret := buf[tail];
      buf[tail] := zero;
      count := count - 1;
      assert forall i :: 0 <= i < count ==> buf[Cell(i)] == s[i];
      assert Contents() + [ret] == s;
    }

    /** Panics on an empty deque. */
    method PopFront() returns (ret: T)
      requires Valid() && count > 0
      modifies this, buf
      ensures Valid() && (buf == old(buf) || fresh(buf))
      ensures [ret] + Contents() == old(Contents())
      ensures (Sizes(), copied - old(copied)) == Pop(old(Sizes()))
    {
      ret := TakeFront();
      ShrinkIfExcess();
    }

    /** Panics on an empty deque. */
    method PopBack() returns (ret: T)
      requires Valid() && count > 0
      modifies this, buf
      ensures Valid() && (buf == old(buf) || fresh(buf))
      ensures Contents() + [ret] == old(Contents())
      ensures (Sizes(), copied - old(copied)) == Pop(old(Sizes()))
    {
      ret := TakeBack();
      ShrinkIfExcess();
    }

    /** The cell a bitwise index computation reaches. */
    function Index(i: int): (j: int)
      requires Sized() && 0 <= i < count
      reads this
      ensures j == Cell(i) && 0 <= j < buf.Length
    {
      MaskWraps(head + i, buf.Length);
      And(head + i, buf.Length - 1)
    }

    method At(i: int) returns (x: T)
      requires Valid() && 0 <= i < count
      ensures x == Contents()[i]
    {
      x := buf[Index(i)];
    }

    method Set(i: int, item: T)
      requires Valid() && 0 <= i < count
      modifies buf
      ensures Valid() && Contents() == old(Contents())[i := item]
    {
      ghost var s := Contents();
      buf[Index(i)] := item;
      assert Contents() == s[i := item];
    }

    /** Exchange the cells of logical indices `i` and `j`. */
    method SwapCells(a: int, b: int, ghost i: int, ghost j: int)
      requires Valid() && 0 <= i < count && 0 <= j < count && a == Cell(i) && b == Cell(j)
      modifies buf
      ensures Valid() && Contents() == Exchanged(old(Contents()), i, j)
    {
      ghost var s := Contents();
      buf[a], buf[b] := buf[b], buf[a];
      assert Contents() == Exchanged(s, i, j);
    }

    method Swap(idxA: int, idxB: int)
      requires Valid() && 0 <= idxA < count && 0 <= idxB < count
      modifies buf
      ensures Valid() && Contents() == Exchanged(old(Contents()), idxA, idxB)
    {
      if idxA == idxB {
        return;
      }
      SwapCells(Index(idxA), Index(idxB), idxA, idxB);
    }

    method ClearSlice(from: int, to: int)
      requires 0 <= from <= to <= buf.Length
      modifies buf
      ensures forall j :: 0 <= j < buf.Length ==> buf[j] == if from <= j < to then zero else old(buf[j])
    {
      for i := from to to
        invariant forall j :: 0 <= j < buf.Length ==> buf[j] == if from <= j < i then zero else old(buf[j])
      {
        buf[i] := zero;
      }
    }

    method Clear()
      requires Valid()
      modifies this, buf
      ensures Valid() && Contents() == [] && Sizes() == old(Sizes()).(count := 0) && buf == old(buf)
    {
      if count == 0 {
        return;
      }
      var h, t := head, tail;
      ghost var n := count;
      count := 0;
      head := 0;
      tail := 0;
      if h >= t {
        ClearSlice(h, buf.Length);
        h := 0;
      }
      ClearSlice(h, t);
    }

    /** Room for `n` more items without another allocation. Panics on a negative `n`. */
    method Grow(n: int)
      requires Valid() && n >= 0
      modifies this
      ensures Valid() && Contents() == old(Contents()) && buf.Length - count >= n
      ensures minCap == old(minCap) && (buf == old(buf) || fresh(buf))
      ensures n <= old(buf.Length - count) ==> buf == old(buf) && head == old(head) && copied == old(copied)
      ensures n > old(buf.Length - count) ==>
                copied == old(copied) + count && (buf.Length == MIN_CAPACITY || buf.Length < 2 * (count + n))
    {
      var c, l := buf.Length, count;
      if n <= c - l {
        return;
      }
      if c == 0 {
        c := MIN_CAPACITY;
        assert Pow2(8) by { assert Pow2(4) by { assert Pow2(2); } }
      }
      var newLen := l + n;
      while c < newLen
        invariant Pow2(c) && c > 1 && c >= buf.Length && (c == MIN_CAPACITY || c < 2 * newLen)
        modifies {}
        decreases newLen - c
      {
        Pow2Double(c);
        c := c * 2;
      }
      if l == 0 {
        var newBuf := Blank(c);
        Install(newBuf, []);
      } else {
        Resize(c);
      }
    }

    method SetBaseCap(baseCap: int)
      requires Valid()
      modifies this`minCap
      ensures Valid() && Contents() == old(Contents())
      ensures minCap >= baseCap && minCap >= MIN_CAPACITY && (minCap == MIN_CAPACITY || minCap / 2 < baseCap)
    {
      var m := MIN_CAPACITY;
      assert Pow2(8) by { assert Pow2(4) by { assert Pow2(2); } }
      while m < baseCap
        invariant Pow2(m) && m >= MIN_CAPACITY && (m == MIN_CAPACITY || m / 2 < baseCap)
        decreases baseCap - m
      {
        Pow2Double(m);
        m := m * 2;
      }
      minCap := m;
    }

    /** Turn the deque `n` steps front to back, or back to front if `n` is negative. */
    method Rotate(n: int)
      requires Valid()
      modifies this`head, this`tail, this`count, buf
      ensures Valid() && Sizes() == old(Sizes())
      ensures count > 0 ==> Contents() == Rotated(old(Contents()), n % count)
    {
      if count <= 1 {
        return;
      }
      var m := GoRemainder(n, count);
      RemainderTurn(n, count);
      if m == 0 {
        return;
      }
      if head == tail {
        TurnFull(m);
      } else if m < 0 {
        TurnBack(-m);
      } else {
        TurnFront(m);
      }
    }

    /** A full buffer: only head and tail move. */
    method TurnFull(m: int)
      requires Valid() && count > 1 && head == tail && -count < m < count && m != 0
      modifies this`head, this`tail
      ensures Valid() && Contents() == Rotated(old(Contents()), Wrap(m, count))
    {
      ghost var b, h := buf[..], head;
      FullBuffer();
      FullTurn(b, h, m);
      MaskWraps(head + m, buf.Length);
      head := And(head + m, buf.Length - 1);
      tail := head;
      assert buf[..] == b && head == Wrap(h + m, |b|);
      FullBuffer();
    }

    lemma FullBuffer()
      requires Sized() && count > 0 && head == tail
      ensures buf.Length == count && Contents() == FullContents(buf[..], head)
    {
    }

    /** Move the front element to the back `m` times. */
    method TurnFront(m: int)
      requires Valid() && 1 < count < buf.Length && 0 < m < count
      modifies this`head, this`tail, this`count, buf
      ensures Valid() && count == old(count) && Contents() == Rotated(old(Contents()), m)
    {
      ghost var s := Contents();
      ghost var now := s;
      for i := 0 to m
        invariant Valid() && count == |s| && Contents() == now && now == Rotated(s, i)
      {
        RotatedStep(s, i);
        now := Forward(now);
        FrontToBack();
      }
    }

    /** One turn: the head value goes to the tail cell, and its own cell is blanked. */
    method FrontToBack()
      requires Valid() && 1 < count < buf.Length
      modifies this`head, this`tail, this`count, buf
      ensures Valid() && count == old(count) && Contents() == Forward(old(Contents()))
    {
      ghost var c := Contents();
      var x := TakeFront();
      assert Contents() == c[1..] && [x] == c[..1];
      StoreBack(x);
    }

    /** Move the back element to the front `m` times. */
    method TurnBack(m: int)
      requires Valid() && 1 < count < buf.Length && 0 < m < count
      modifies this`head, this`tail, this`count, buf
      ensures Valid() && count == old(count) && Contents() == Rotated(old(Contents()), count - m)
    {
      ghost var s := Contents();
      ghost var now := s;
      RotatedAll(s);
      for i := 0 to m
        invariant Valid() && count == |s| && Contents() == now && now == Rotated(s, |s| - i)
      {
        RotatedBack(s, now, |s| - i);
        now := Backward(now);
        BackToFront();
      }
    }

    /** One turn back: the last value goes to the cell before the head. */
    method BackToFront()
      requires Valid() && 1 < count < buf.Length
      modifies this`head, this`tail, this`count, buf
      ensures Valid() && count == old(count) && Contents() == Backward(old(Contents()))
    {
      ghost var c := Contents();
      var x := TakeBack();
      assert Contents() == c[..|c| - 1] && [x] == c[|c| - 1..];
      StoreFront(x);
    }

    /** One swap of the loops of `Insert` and `Remove`, towards the back. */
    method SwapNext(at: int, ghost r: seq<T>, ghost x: T, ghost j: int) returns (next: int)
      requires Valid() && 0 <= j < |r| == count - 1 && at == Cell(j) && Contents() == Inserted(r, j, x)
      modifies buf
      ensures Valid() && next == Cell(j + 1) && Contents() == Inserted(r, j + 1, x)
    {
      next := Next(at);
      InsertedNext(r, j, x);
      SwapCells(at, next, j, j + 1);
    }

    /** One swap towards the front. */
    method SwapPrev(at: int, ghost r: seq<T>, ghost x: T, ghost j: int) returns (prev: int)
      requires Valid() && 0 < j <= |r| == count - 1 && at == Cell(j) && Contents() == Inserted(r, j, x)
      modifies buf
      ensures Valid() && prev == Cell(j - 1) && Contents() == Inserted(r, j - 1, x)
    {
      prev := Prev(at);
      InsertedNext(r, j - 1, x);
      SwapCells(at, prev, j, j - 1);
    }

    /** The loops of `Insert` and `Remove`: carry `x` from index `j` `steps` places towards the back, by swaps. */
    method CarryBack(cell: int, steps: int, ghost r: seq<T>, ghost x: T, ghost j: int)
      requires Valid() && 0 <= j <= j + steps <= |r| == count - 1 && cell == Cell(j)
      requires Contents() == Inserted(r, j, x)
      modifies buf
      ensures Valid() && Contents() == Inserted(r, j + steps, x)
    {
      var at := cell;
      for i := 0 to steps
        invariant Valid() && at == Cell(j + i) && Contents() == Inserted(r, j + i, x)
      {
        at := SwapNext(at, r, x, j + i);
      }
    }

    /** Carry `x` from index `j` `steps` places towards the front. */
    method CarryFront(cell: int, steps: int, ghost r: seq<T>, ghost x: T, ghost j: int)
      requires Valid() && 0 <= j - steps <= j <= |r| == count - 1 && cell == Cell(j)
      requires Contents() == Inserted(r, j, x)
      modifies buf
      ensures Valid() && Contents() == Inserted(r, j - steps, x)
    {
      var at := cell;
      for i := 0 to steps
        invariant Valid() && at == Cell(j - i) && Contents() == Inserted(r, j - i, x)
      {
        at := SwapPrev(at, r, x, j - i);
      }
    }

    /** Insert before logical index `at`; an index out of range pushes onto the nearer end. */
    method Insert(at: int, item: T)
      requires Valid()
      modifies this, buf
      ensures Valid() && (buf == old(buf) || fresh(buf))
      ensures var n := |old(Contents())|;
              Contents() == Inserted(old(Contents()), if at <= 0 then 0 else if at >= n then n else at, item)
      ensures (Sizes(), copied - old(copied)) == Push(old(Sizes()))
    {
      if at <= 0 {
        PushFront(item);
        return;
      }
      if at >= count {
        PushBack(item);
        return;
      }
      if at * 2 < count {
        InsertFromFront(at, item);
      } else {
        InsertFromBack(at, item);
      }
    }

    /** The front half of `Insert`: push onto the front, then swap towards the index. */
    method InsertFromFront(at: int, item: T)
      requires Valid() && 0 < at < count
      modifies this, buf
      ensures Valid() && (buf == old(buf) || fresh(buf)) && Contents() == Inserted(old(Contents()), at, item)
      ensures (Sizes(), copied - old(copied)) == Push(old(Sizes()))
    {
      ghost var s := Contents();
      PushFront(item);
      assert Contents() == Inserted(s, 0, item);
      CarryBack(head, at, s, item, 0);
    }

    /** The back half of `Insert`: push onto the back, then swap towards the index. */
    method InsertFromBack(at: int, item: T)
      requires Valid() && 0 < at < count
      modifies this, buf
      ensures Valid() && (buf == old(buf) || fresh(buf)) && Contents() == Inserted(old(Contents()), at, item)
      ensures (Sizes(), copied - old(copied)) == Push(old(Sizes()))
    {
      ghost var s := Contents();
      var swaps := count - at;
      PushBack(item);
      assert Contents() == Inserted(s, |s|, item);
      CarryFront(Prev(tail), swaps, s, item, |s|);
    }

    /** Remove and return the element at logical index `at`. Panics when out of range. */
    method Remove(at: int) returns (ret: T)
      requires Valid() && 0 <= at < count
      modifies this, buf
      ensures Valid() && (buf == old(buf) || fresh(buf))
      ensures ret == old(Contents())[at] && Contents() == old(Contents())[..at] + old(Contents())[at + 1..]
      ensures (Sizes(), copied - old(copied)) == Pop(old(Sizes()))
    {
      ghost var s := Contents();
      ghost var r := s[..at] + s[at + 1..];
      assert s == Inserted(r, at, s[at]);
      if at * 2 < count {
        ret := RemoveAtFront(at, r, s[at]);
      } else {
        ret := RemoveAtBack(at, r, s[at]);
      }
    }

    /** The front half of `Remove`: swap the element `x` to the front, then pop it. */
    method RemoveAtFront(at: int, ghost r: seq<T>, ghost x: T) returns (ret: T)
      requires Valid() && 0 <= at <= |r| == count - 1 && Contents() == Inserted(r, at, x)
      modifies this, buf
      ensures Valid() && (buf == old(buf) || fresh(buf)) && ret == x && Contents() == r
      ensures (Sizes(), copied - old(copied)) == Pop(old(Sizes()))
    {
      CarryFront(Index(at), at, r, x, at);
      assert Contents() == [x] + r;
      ret := PopFront();
      SplitFront(ret, Contents(), x, r);
    }

    /** The back half of `Remove`: swap the element `x` to the back, then pop it. */
    method RemoveAtBack(at: int, ghost r: seq<T>, ghost x: T) returns (ret: T)
      requires Valid() && 0 <= at <= |r| == count - 1 && Contents() == Inserted(r, at, x)
      modifies this, buf
      ensures Valid() && (buf == old(buf) || fresh(buf)) && ret == x && Contents() == r
      ensures (Sizes(), copied - old(copied)) == Pop(old(Sizes()))
    {
      CarryBack(Index(at), count - at - 1, r, x, at);
      assert Contents() == r + [x];
      ret := PopBack();
      SplitBack(Contents(), ret, r, x);
    }
  }

  /** What a completely full buffer holds, from cell `h` round to cell `h` again. */
  function FullContents<T>(b: seq<T>, h: int): seq<T>
    requires 0 <= h < |b|
  {
    b[h..] + b[..h]
  }

  /** On a full buffer, moving the head by `m` is a rotation. */
  lemma FullTurn<T>(b: seq<T>, h: int, m: int)
    requires 0 <= h < |b| && -|b| < m < |b|
    ensures 0 <= Wrap(h + m, |b|) < |b|
    ensures FullContents(b, Wrap(h + m, |b|)) == Rotated(FullContents(b, h), Wrap(m, |b|))
  {
    var s, t := FullContents(b, h), FullContents(b, Wrap(h + m, |b|));
    forall i | 0 <= i < |b| ensures t[i] == s[Wrap(i + Wrap(m, |b|), |b|)] {
      WrapTurn(h, m, i, |b|);
    }
    RotatedAt(s, t, Wrap(m, |b|));
  }

  lemma WrapTurn(h: int, m: int, i: int, n: int)
    requires 0 <= h < n && -n < m < n && 0 <= i < n
    ensures Wrap(Wrap(h + m, n) + i, n) == Wrap(h + Wrap(i + Wrap(m, n), n), n)
    ensures 0 <= Wrap(i + Wrap(m, n), n) < n
  {
  }

  lemma RotatedAt<T>(s: seq<T>, t: seq<T>, k: int)
    requires 0 <= k < |s| == |t|
    requires forall i :: 0 <= i < |s| ==> t[i] == s[Wrap(i + k, |s|)]
    ensures t == Rotated(s, k)
  {
  }

  /** One more step of a rotation, in either direction. */
  lemma RotatedStep<T>(s: seq<T>, k: int)
    requires 0 <= k < |s|
    ensures Rotated(s, k + 1) == Forward(Rotated(s, k))
    ensures Rotated(s, k) == Backward(Rotated(s, k + 1))
  {
    var a, b := Rotated(s, k), Rotated(s, k + 1);
    assert a[1..] == s[k + 1..] + s[..k] && a[..1] == [s[k]];
    assert s[..k + 1] == s[..k] + [s[k]];
    assert b[..|s| - 1] == s[k + 1..] + s[..k] && b[|s| - 1..] == [s[k]];
    assert s[k..] == [s[k]] + s[k + 1..];
  }

  lemma RotatedAll<T>(s: seq<T>)
    ensures Rotated(s, |s|) == s
  {
  }

  lemma RotatedBack<T>(s: seq<T>, c: seq<T>, k: int)
    requires 0 < k <= |s| && c == Rotated(s, k)
    ensures |c| == |s| && Backward(c) == Rotated(s, k - 1)
  {
    RotatedStep(s, k - 1);
  }

  /** `x` put before index `j` of `r`. */
  function Inserted<T>(r: seq<T>, j: int, x: T): seq<T>
    requires 0 <= j <= |r|
  {
    r[..j] + [x] + r[j..]
  }

  /** `x` one place further is `x` exchanged with its neighbour, from either side. */
  lemma InsertedNext<T>(r: seq<T>, j: int, x: T)
    requires 0 <= j < |r|
    ensures Inserted(r, j + 1, x) == Exchanged(Inserted(r, j, x), j, j + 1)
    ensures Inserted(r, j, x) == Exchanged(Inserted(r, j + 1, x), j + 1, j)
  {
  }

  lemma SplitFront<T>(x: T, a: seq<T>, y: T, b: seq<T>)
    requires [x] + a == [y] + b
    ensures x == y && a == b
  {
    assert x == ([x] + a)[0] && a == ([x] + a)[1..];
    assert y == ([y] + b)[0] && b == ([y] + b)[1..];
  }

  lemma SplitBack<T>(a: seq<T>, x: T, b: seq<T>, y: T)
    requires a + [x] == b + [y]
    ensures x == y && a == b
  {
    assert |a| == |b|;
    assert x == (a + [x])[|a|] && a == (a + [x])[..|a|];
    assert y == (b + [y])[|b|] && b == (b + [y])[..|b|];
  }

  /** Go's remainder and the Euclidean one name the same turn. */
  lemma RemainderTurn(n: int, m: int)
    requires m > 0
    ensures -m < GoRemainder(n, m) < m && n % m == Wrap(GoRemainder(n, m), m)
  {
    if n < 0 {
      var q, r := (-n) / m, (-n) % m;
      assert n == (-q) * m - r;
      if r == 0 { ModUnique(n, m, -q, 0); } else { ModUnique(n, m, -q - 1, m - r); }
    }
  }
}
