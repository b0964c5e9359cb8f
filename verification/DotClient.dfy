/** The DNS-over-TLS client as an object: its lock sections and its retry loop over the deque it pools in. */
module DotClient {
  import opened Seqs
  import DotPool
  import opened D = Deque

  const NO_CONN := -1

  predicate AllConns(q: seq<int>) {
    forall i :: 0 <= i < |q| ==> q[i] >= 0
  }

  lemma AllConnsParts(a: seq<int>, b: seq<int>)
    ensures AllConns(a + b) <==> AllConns(a) && AllConns(b)
  {
    assert forall i :: 0 <= i < |a| ==> (a + b)[i] == a[i];
    assert forall i :: 0 <= i < |b| ==> (a + b)[|a| + i] == b[i];
  }

  /** Connections as the state machine numbers them. */
  function AsConns(q: seq<int>): (r: seq<nat>)
    requires AllConns(q)
    ensures |r| == |q| && forall i :: 0 <= i < |q| ==> r[i] == q[i]
  {
    seq(|q|, i requires 0 <= i < |q| => q[i])
  }

  class DnsOverTls {
    const disableReuse: bool
    const connections: Deque<int>
    /** Close calls made so far, background ones included. */
    ghost var closed: seq<int>

    ghost predicate Valid()
      reads this, connections, connections.buf
    {
      && connections.Valid()
      && AllConns(connections.Contents())
      && connections.count <= DotPool.MAX_OLD_CONNS
    }

    ghost function Pool(): seq<nat>
      requires Valid()
      reads this, connections, connections.buf
    {
      AsConns(connections.Contents())
    }

    constructor (disableReuse: bool)
      ensures Valid() && Pool() == [] && closed == [] && this.disableReuse == disableReuse
      ensures fresh(connections) && fresh(connections.buf)
    {
      this.disableReuse := disableReuse;
      var pool := new Deque<int>(NO_CONN);
      connections := pool;
      closed := [];
      new;
      connections.SetBaseCap(DotPool.MAX_OLD_CONNS);
    }

    /** The first lock section: the connection returned last, or none. */
    method TakeOld() returns (conn: int)
      requires Valid()
      modifies connections, connections.buf
      ensures Valid() && (connections.buf == old(connections.buf) || fresh(connections.buf))
      ensures if disableReuse then conn == NO_CONN && Pool() == old(Pool())
              else var (taken, rest) := DotPool.PoolTake(old(Pool()));
                   Pool() == rest && conn == match taken case Some(c) => c case None => NO_CONN
    {
      conn := NO_CONN;
      if !disableReuse && connections.count > 0 {
        ghost var before := connections.Contents();
        conn := connections.PopBack();
        AllConnsParts(connections.Contents(), [conn]);
        assert before == connections.Contents() + [conn];
        assert conn == before[|before| - 1];
      }
    }

    /** The second lock section: return the connection, closing the oldest one of a full pool. */
    method GiveBack(conn: nat)
      requires Valid()
      modifies this, connections, connections.buf
      ensures Valid() && (connections.buf == old(connections.buf) || fresh(connections.buf))
      ensures if disableReuse then closed == old(closed) + [conn] && Pool() == old(Pool())
              else var (evicted, pool) := DotPool.PoolPut(old(Pool()), conn);
                   Pool() == pool && closed == old(closed) + match evicted case Some(c) => [c] case None => []
    {
      if disableReuse {
        closed := closed + [conn];
        return;
      }
      ghost var before := connections.Contents();
      if connections.count >= DotPool.MAX_OLD_CONNS {
        var oldConn := connections.PopFront();
        AllConnsParts([oldConn], connections.Contents());
        assert before == [oldConn] + connections.Contents();
        closed := closed + [oldConn];
      } else {
        assert closed + [] == closed;
      }
      AllConnsParts(connections.Contents(), [conn]);
      connections.PushBack(conn);
    }

    /** Close everything pooled, oldest first. */
    method ResetConnection()
      requires Valid()
      modifies this, connections, connections.buf
      ensures Valid() && (connections.buf == old(connections.buf) || fresh(connections.buf))
      ensures disableReuse ==> Pool() == old(Pool()) && closed == old(closed)
      ensures !disableReuse ==> Pool() == [] && closed == old(closed) + old(connections.Contents())
    {
      if disableReuse {
        return;
      }
      ghost var done: seq<int> := [];
      while connections.count > 0
        invariant Valid() && (connections.buf == old(connections.buf) || fresh(connections.buf))
        invariant done + connections.Contents() == old(connections.Contents()) && closed == old(closed) + done
        decreases connections.count
      {
        ghost var before := connections.Contents();
        var oldConn := connections.PopFront();
        AllConnsParts([oldConn], connections.Contents());
        assert before == [oldConn] + connections.Contents();
        closed := closed + [oldConn];
        done := done + [oldConn];
      }
    }

    /** One turn of the retry loop, past the look at the context; `retry` after a failure on an old connection. */
    method TryOnce(next: nat, w: DotPool.World, ghost round: nat) returns (ok: bool, retry: bool)
      requires Valid() && !w.cancelled(round)
      modifies this, connections, connections.buf
      ensures Valid() && (connections.buf == old(connections.buf) || fresh(connections.buf))
      ensures !retry ==>
                var o := DotPool.Alone(!disableReuse, old(Pool()), round, next, w);
                ok == o.ok && Pool() == o.pool && closed == old(closed) + o.closed
      ensures retry ==>
                && !disableReuse && old(Pool()) != [] && !w.works(Last(old(Pool())))
                && Pool() == Init(old(Pool())) && closed == old(closed) + [Last(old(Pool()))]
    {
      var conn := TakeOld();
      var isOldConn := true;
      if conn == NO_CONN {
        if !w.dialOk {
          return false, false;
        }
        conn := next;
        isOldConn := false;
      }
      if !w.works(conn) {
        closed := closed + [conn];
        return false, isOldConn;
      }
      GiveBack(conn);
      return true, false;
    }

    /** The retry loop, run alone; `next` numbers the connection a dial would make. */
    method Exchange(next: nat, w: DotPool.World) returns (ok: bool)
      requires Valid()
      modifies this, connections, connections.buf
      ensures Valid() && (connections.buf == old(connections.buf) || fresh(connections.buf))
      ensures var o := DotPool.Alone(!disableReuse, old(Pool()), 0, next, w);
              ok == o.ok && Pool() == o.pool && closed == old(closed) + o.closed
    {
      var round: nat := 0;
      ghost var start, pool := closed, Pool();
      ghost var o := DotPool.Alone(!disableReuse, pool, 0, next, w);
      var retry := true;
      ok := false;
      while retry
        invariant Valid() && (connections.buf == old(connections.buf) || fresh(connections.buf))
        invariant retry ==>
                    && pool == Pool()
                    && DotPool.OnTrack(o, start, closed, DotPool.Alone(!disableReuse, pool, round, next, w))
        invariant !retry ==> ok == o.ok && Pool() == o.pool && closed == start + o.closed
        decreases retry, |pool|
      {
        if w.cancelled(round) {
          return false;
        }
        ghost var before := closed;
        ok, retry := TryOnce(next, w, round);
        if retry {
          DotPool.TrackRetry(o, start, before, pool, round, next, w);
          pool := Init(pool);
          round := round + 1;
        }
      }
    }
  }
}
