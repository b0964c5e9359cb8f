/** How much the deque copies: its sizes as a value, and the amortised bound over whole runs. */
module DequeCost {
  import opened Seqs

  const MIN_CAPACITY := 8

  datatype Shape = Shape(cap: nat, count: nat, minCap: nat)

  /** One push or pop: the new sizes and the number of elements copied to a new buffer. */
  function Push(s: Shape): (Shape, nat) {
    if s.count != s.cap then (s.(count := s.count + 1), 0)
    else if s.cap == 0 then
      var m := if s.minCap == 0 then MIN_CAPACITY else s.minCap;
      (Shape(m, 1, m), 0)
    else (s.(cap := 2 * s.count, count := s.count + 1), s.count)
  }

  function Pop(s: Shape): (Shape, nat)
    requires s.count > 0
  {
    var n := s.count - 1;
    if s.cap > s.minCap && 4 * n == s.cap then (s.(cap := 2 * n, count := n), n) else (s.(count := n), 0)
  }

  /** Distance from half full: what the next resize has already been paid. */
  function Potential(s: Shape): nat {
    if 2 * s.count >= s.cap then 2 * s.count - s.cap
    else if s.cap > s.minCap then s.cap / 2 - s.count
    else 0
  }

  datatype Op = PushOp | PopOp

  /** Sizes, total copied, and numbers of pushes and pops; a pop of an empty deque panics and changes nothing. */
  datatype Tally = Tally(shape: Shape, copied: nat, pushes: nat, pops: nat)

  function Run(start: Shape, ops: seq<Op>): Tally {
    if ops == [] then Tally(start, 0, 0, 0) else
    var t := Run(start, Init(ops));
    match Last(ops)
    case PushOp =>
      var (s, cost) := Push(t.shape);
      Tally(s, t.copied + cost, t.pushes + 1, t.pops)
    case PopOp =>
      if t.shape.count == 0 then t else
      var (s, cost) := Pop(t.shape);
      Tally(s, t.copied + cost, t.pushes, t.pops + 1)
  }

  ghost predicate Fits(s: Shape) {
    s.count <= s.cap && (s.cap == 0 || s.cap % 2 == 0) && s.minCap % 2 == 0
  }

  /** A push is paid by two: a full buffer has saved up its whole capacity. */
  lemma PushPaid(s: Shape)
    requires Fits(s)
    ensures Fits(Push(s).0) && Push(s).1 + Potential(Push(s).0) <= Potential(s) + 2
  {
  }

  /** A pop is paid by one: a buffer down to a quarter has saved up that quarter. */
  lemma PopPaid(s: Shape)
    requires Fits(s) && s.count > 0
    ensures Fits(Pop(s).0) && Pop(s).1 + Potential(Pop(s).0) <= Potential(s) + 1
  {
  }

  /** From any start: two copies per push and one per pop, beyond what the start had already been paid. */
  lemma {:induction false} CopiesAmortised(start: Shape, ops: seq<Op>)
    requires Fits(start)
    ensures var t := Run(start, ops);
            Fits(t.shape) && t.copied + Potential(t.shape) <= Potential(start) + 2 * t.pushes + t.pops
  {
    if ops != [] {
      CopiesAmortised(start, Init(ops));
      var t := Run(start, Init(ops));
      match Last(ops)
      case PushOp => PushPaid(t.shape);
      case PopOp => if t.shape.count > 0 { PopPaid(t.shape); }
    }
  }

  /** From an unallocated deque, whatever the base capacity: at most two copies per push and one per pop. */
  lemma FreshCopies(minCap: nat, ops: seq<Op>)
    requires minCap % 2 == 0
    ensures var t := Run(Shape(0, 0, minCap), ops); t.copied <= 2 * t.pushes + t.pops
    ensures Run(Shape(0, 0, minCap), ops).copied <= 2 * |ops|
  {
    CopiesAmortised(Shape(0, 0, minCap), ops);
    CallsCounted(Shape(0, 0, minCap), ops);
  }

  lemma {:induction false} CallsCounted(start: Shape, ops: seq<Op>)
    ensures Run(start, ops).pushes + Run(start, ops).pops <= |ops|
  {
    if ops != [] {
      CallsCounted(start, Init(ops));
    }
  }

  // ---- how large the buffer is ----

  /** `c` is `m` doubled some number of times. */
  predicate Doubled(m: nat, c: nat) {
    c == m || (c > m && c % 2 == 0 && Doubled(m, c / 2))
  }

  lemma {:induction false} DoubledQuarters(m: nat, c: nat)
    requires m % 4 == 0 && Doubled(m, c)
    ensures c % 4 == 0 && (c > m ==> c / 2 >= m)
  {
    if c > m { DoubledQuarters(m, c / 2); }
  }

  /** Nothing allocated, or the base capacity doubled, and then more than a quarter full. */
  ghost predicate Dense(s: Shape) {
    && s.count <= s.cap && s.minCap % 4 == 0
    && (s.cap > 0 ==> s.minCap > 0 && Doubled(s.minCap, s.cap) && (s.cap > s.minCap ==> 4 * s.count > s.cap))
  }

  lemma PushKeepsDense(s: Shape)
    requires Dense(s)
    ensures Dense(Push(s).0)
  {
    if s.count == s.cap && s.cap > 0 {
      assert (2 * s.count) / 2 == s.cap;
    }
  }

  lemma PopKeepsDense(s: Shape)
    requires Dense(s) && s.count > 0
    ensures Dense(Pop(s).0)
  {
    DoubledQuarters(s.minCap, s.cap);
  }

  /** The most elements held at any point of a run from an empty deque. */
  function Peak(start: Shape, ops: seq<Op>): nat {
    var now := Run(start, ops).shape.count;
    if ops == [] then now else
    var before := Peak(start, ops[..|ops| - 1]);
    if now > before then now else before
  }

  lemma {:induction false} PeakCovers(start: Shape, ops: seq<Op>)
    ensures Run(start, ops).shape.count <= Peak(start, ops)
  {
  }

  /**
   After any run from an unallocated deque the buffer is the base capacity doubled; beyond that it is more
   than a quarter full, so it shrinks as elements leave, and smaller than twice the most it ever held, so it
   does not grow before it must.
   */
  lemma {:induction false} BufferFits(minCap: nat, ops: seq<Op>)
    requires minCap % 4 == 0
    ensures var s := Run(Shape(0, 0, minCap), ops).shape;
            var least := if minCap == 0 then MIN_CAPACITY else minCap;
            && s.count <= s.cap && (s.cap > 0 ==> Doubled(least, s.cap))
            && (s.cap > least ==> 4 * s.count > s.cap && s.cap < 2 * Peak(Shape(0, 0, minCap), ops))
  {
    var start := Shape(0, 0, minCap);
    RunKeepsDense(start, ops);
    BaseKept(minCap, ops);
    BufferPeak(minCap, ops);
  }

  lemma {:induction false} RunKeepsDense(start: Shape, ops: seq<Op>)
    requires Dense(start)
    ensures Dense(Run(start, ops).shape)
  {
    if ops != [] {
      RunKeepsDense(start, Init(ops));
      var t := Run(start, Init(ops));
      match Last(ops)
      case PushOp => PushKeepsDense(t.shape);
      case PopOp => if t.shape.count > 0 { PopKeepsDense(t.shape); }
    }
  }

  lemma {:induction false} BaseKept(minCap: nat, ops: seq<Op>)
    ensures var s := Run(Shape(0, 0, minCap), ops).shape;
            if s.cap == 0 then s.count == 0 && s.minCap == minCap
            else s.minCap == if minCap == 0 then MIN_CAPACITY else minCap
  {
    if ops != [] {
      BaseKept(minCap, Init(ops));
    }
  }

  lemma {:induction false} BufferPeak(minCap: nat, ops: seq<Op>)
    ensures var s := Run(Shape(0, 0, minCap), ops).shape;
            s.cap > s.minCap ==> s.cap < 2 * Peak(Shape(0, 0, minCap), ops)
  {
    if ops != [] {
      BufferPeak(minCap, Init(ops));
      BaseKept(minCap, Init(ops));
      PeakCovers(Shape(0, 0, minCap), Init(ops));
      PeakCovers(Shape(0, 0, minCap), ops);
    }
  }
}
