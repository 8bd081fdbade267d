/**
 * The connection pool (src/pool/ConnectionPool.cpp, include/vix/db/pool/ConnectionPool.hpp): a
 * FIFO queue of idle connections plus a counter of the connections the pool considers alive.
 * The pool is modelled sequentially. The connection factory and Connection::ping are oracles
 * supplied by the caller; the condition-variable wait of acquire is the outcome Blocked.
 */
module Pool {
  import opened Ints
  import opened Wrappers
  import opened Drivers

  /** PoolConfig with its member defaults. */
  datatype PoolConfig = PoolConfig(min: size_t, max: size_t)

  function DefaultPoolConfig(): (c: PoolConfig)
    ensures c.min == 1 && c.max == 8
  {
    PoolConfig(1, 8)
  }

  /** The pool's mutable part: idle_ front to back, and total_. */
  datatype PoolState = PoolState(idle: seq<Conn>, total: nat)

  const FactoryInvalid := "ConnectionPool: factory returned invalid connection"
  const WarmupInvalid := "ConnectionPool::warmup: factory returned invalid connection"

  /** What acquire ends with: a connection, the DBError it throws, or the wait for a release. */
  datatype Acquired = Got(c: Conn) | Failed(msg: string) | Blocked

  /**
   * One call of the factory: it returns a connection pointer (possibly null), or it throws the
   * DBError of a failed connect with that error's message.
   */
  datatype Made = Returned(conn: Option<Conn>) | Threw(msg: string)

  /** A connection pointer usable as a connection: non-null and answering ping. */
  predicate Valid(made: Option<Conn>, ping: Conn -> bool) {
    made.Some? && ping(made.value)
  }

  /** A factory call that yields a usable connection. */
  predicate Usable(m: Made, ping: Conn -> bool) {
    m.Returned? && Valid(m.conn, ping)
  }

  // ---------------------------------------------------------------------------------------
  // Specification of acquire, release and warmup

  /**
   * The while loop of acquire: pops idle connections from the front, discarding each dead one
   * with a decrement of total (when positive), until one answers ping.
   */
  function Drain(s: PoolState, ping: Conn -> bool): (PoolState, Option<Conn>)
    decreases |s.idle|
  {
    if |s.idle| == 0 then (s, None)
    else if ping(s.idle[0]) then (PoolState(s.idle[1..], s.total), Some(s.idle[0]))
    else Drain(PoolState(s.idle[1..], if s.total > 0 then s.total - 1 else 0), ping)
  }

  /**
   * acquire. `made` is what the factory call does if it is made. A thrown DBError leaves the
   * call with total already raised: only a null or dead result is rolled back.
   */
  function Acquire(s: PoolState, max: size_t, ping: Conn -> bool, made: Made): (PoolState, Acquired) {
    var (d, found) := Drain(s, ping);
    if found.Some? then (d, Got(found.value))
    else if d.total < max as nat then
      match made
      case Threw(msg) => (PoolState(d.idle, d.total + 1), Failed(msg))
      case Returned(c) =>
        if Valid(c, ping) then (PoolState(d.idle, d.total + 1), Got(c.value))
        else (d, Failed(FactoryInvalid))
    else (d, Blocked)
  }

  /** release: a non-null connection goes to the back of idle; total never changes. */
  function Release(s: PoolState, c: Option<Conn>): (r: PoolState)
    ensures r.total == s.total
    ensures c.Some? ==> r.idle == s.idle + [c.value]
    ensures c.None? ==> r == s
  {
    if c.Some? then PoolState(s.idle + [c.value], s.total) else s
  }

  /** The message warmup fails with for an unusable factory call: the thrown one, or its own. */
  function WarmupError(m: Made): string {
    if m.Threw? then m.msg else WarmupInvalid
  }

  /**
   * warmup, for its first `n` factory calls: each valid connection is pushed with total + 1; the
   * first unusable call throws (its own DBError, or warmup's for a null or dead result), and the
   * connections before it stay pushed and counted.
   */
  function Warmup(s: PoolState, n: nat, factory: nat -> Made, ping: Conn -> bool): (PoolState, Result<(), string>) {
    if n == 0 then (s, Success(()))
    else
      var (t, r) := Warmup(s, n - 1, factory, ping);
      if r.Failure? then (t, r)
      else if !Usable(factory(n - 1), ping) then (t, Failure(WarmupError(factory(n - 1))))
      else (PoolState(t.idle + [factory(n - 1).conn.value], t.total + 1), Success(()))
  }

  // ---------------------------------------------------------------------------------------
  // The pool object

  class ConnectionPool {
    const cfg: PoolConfig
    var idle: seq<Conn>
    var total: nat

    function State(): PoolState
      reads this
    {
      PoolState(idle, total)
    }

    /** ConnectionPool(factory, cfg): nothing idle, nothing counted. */
    constructor (cfg: PoolConfig)
      ensures this.cfg == cfg && idle == [] && total == 0
    {
      this.cfg := cfg;
      idle := [];
      total := 0;
    }

    method AcquireConn(ping: Conn -> bool, made: Made) returns (r: Acquired)
      modifies this
      ensures (State(), r) == Acquire(old(State()), cfg.max, ping, made)
    {
      while |idle| > 0
        invariant Drain(State(), ping) == Drain(old(State()), ping)
        decreases |idle|
      {
        var c := idle[0];
        idle := idle[1..];
        if !ping(c) {
          if total > 0 {
            total := total - 1;
          }
          continue;
        }
        return Got(c);
      }
      if total < cfg.max as nat {
        total := total + 1;
        if made.Threw? {
          return Failed(made.msg);
        }
        var c := made.conn;
        if c.None? || !ping(c.value) {
          if total > 0 {
            total := total - 1;
          }
          return Failed(FactoryInvalid);
        }
        return Got(c.value);
      }
      return Blocked;
    }

    method ReleaseConn(c: Option<Conn>)
      modifies this
      ensures State() == Release(old(State()), c)
    {
      if c.Some? {
        idle := idle + [c.value];
      }
    }

    /** warmup: `factory(i)` is the result of the i-th factory call. */
    method WarmupPool(factory: nat -> Made, ping: Conn -> bool) returns (r: Result<(), string>)
      modifies this
      ensures (State(), r) == Warmup(old(State()), cfg.min as nat, factory, ping)
    {
      var i: nat := 0;
      while i < cfg.min as nat
        invariant i <= cfg.min as nat
        invariant Warmup(old(State()), i, factory, ping) == (State(), Success(()))
      {
        var m := factory(i);
        if m.Threw? {
          WarmupStops(old(State()), i, cfg.min as nat, factory, ping);
          return Failure(m.msg);
        }
        var c := m.conn;
        if c.None? || !ping(c.value) {
          WarmupStops(old(State()), i, cfg.min as nat, factory, ping);
          return Failure(WarmupInvalid);
        }
        idle := idle + [c.value];
        total := total + 1;
        i := i + 1;
      }
      r := Success(());
    }
  }

  // ---------------------------------------------------------------------------------------
  // Properties

  lemma {:induction false} WarmupStops(s: PoolState, i: nat, n: nat, factory: nat -> Made, ping: Conn -> bool)
    requires i < n
    requires Warmup(s, i, factory, ping).1.Success? && !Usable(factory(i), ping)
    ensures Warmup(s, n, factory, ping) == (Warmup(s, i, factory, ping).0, Failure(WarmupError(factory(i))))
    decreases n - i
  {
    if i + 1 < n {
      WarmupFailureSticks(s, i + 1, n, factory, ping);
    }
  }

  lemma {:induction false} WarmupFailureSticks(s: PoolState, i: nat, n: nat, factory: nat -> Made, ping: Conn -> bool)
    requires i <= n && Warmup(s, i, factory, ping).1.Failure?
    ensures Warmup(s, n, factory, ping) == Warmup(s, i, factory, ping)
    decreases n - i
  {
    if i < n {
      WarmupFailureSticks(s, i, n - 1, factory, ping);
    }
  }

  /** The dead connections at the front of idle, up to the first live one. */
  function DeadPrefix(idle: seq<Conn>, ping: Conn -> bool): (k: nat)
    ensures k <= |idle|
    ensures forall j :: 0 <= j < k ==> !ping(idle[j])
    ensures k < |idle| ==> ping(idle[k])
  {
    if |idle| == 0 || ping(idle[0]) then 0 else 1 + DeadPrefix(idle[1..], ping)
  }

  function Saturating(total: nat, k: nat): nat {
    if total >= k then total - k else 0
  }

  /**
   * acquire's loop is FIFO: it discards exactly the dead prefix of idle, each with a saturating
   * decrement of total, and returns the first live connection with the rest of the queue in order.
   */
  lemma {:induction false} DrainIsFifo(s: PoolState, ping: Conn -> bool)
    ensures var (d, found) := Drain(s, ping);
      var k := DeadPrefix(s.idle, ping);
      && d.total == Saturating(s.total, k)
      && (k < |s.idle| ==> found == Some(s.idle[k]) && d.idle == s.idle[k + 1..])
      && (k == |s.idle| ==> found.None? && d.idle == [])
    decreases |s.idle|
  {
    if |s.idle| > 0 && !ping(s.idle[0]) {
      var s' := PoolState(s.idle[1..], if s.total > 0 then s.total - 1 else 0);
      DrainIsFifo(s', ping);
      var k := DeadPrefix(s'.idle, ping);
      if k < |s'.idle| {
        assert s'.idle[k + 1..] == s.idle[k + 2..];
      }
    }
  }

  /**
   * The outcomes of acquire: a live idle connection is taken from the front at unchanged total
   * (less the discards); with nothing live idle and room below max the counter is raised for the
   * factory's connection, and rolled back if the factory's result is null or dead, but not when
   * the factory throws; at max it blocks. It never raises total to more than max, nor at all once
   * total >= max.
   */
  lemma AcquireOutcomes(s: PoolState, max: size_t, ping: Conn -> bool, made: Made)
    ensures var (t, r) := Acquire(s, max, ping, made);
      var k := DeadPrefix(s.idle, ping);
      && (k < |s.idle| ==> r == Got(s.idle[k]) && t == PoolState(s.idle[k + 1..], Saturating(s.total, k)))
      && (k == |s.idle| && Saturating(s.total, k) < max as nat && Usable(made, ping) ==>
            r == Got(made.conn.value) && t == PoolState([], Saturating(s.total, k) + 1))
      && (k == |s.idle| && Saturating(s.total, k) < max as nat && made.Returned? && !Valid(made.conn, ping) ==>
            r == Failed(FactoryInvalid) && t == PoolState([], Saturating(s.total, k)))
      && (k == |s.idle| && Saturating(s.total, k) < max as nat && made.Threw? ==>
            r == Failed(made.msg) && t == PoolState([], Saturating(s.total, k) + 1))
      && (k == |s.idle| && Saturating(s.total, k) >= max as nat ==> r == Blocked && t == PoolState([], Saturating(s.total, k)))
      && (t.total > s.total ==> t.total <= max as nat && s.total < max as nat)
  {
    DrainIsFifo(s, ping);
  }

  /** With the default ping every idle connection is alive: acquire takes the front one and discards nothing. */
  lemma AcquireWithDefaultPing(s: PoolState, max: size_t, made: Made)
    requires |s.idle| > 0
    ensures Acquire(s, max, DefaultPing, made) == (PoolState(s.idle[1..], s.total), Got(s.idle[0]))
  {
  }

  /**
   * Accounting: when total counts the idle connections plus `out` connections held by callers,
   * acquire keeps that balance with one more held on Got, and release of a held connection
   * keeps it with one fewer. A factory that throws breaks the balance: total then counts one
   * connection that nobody holds.
   */
  lemma {:induction false} AcquireKeepsBalance(s: PoolState, max: size_t, ping: Conn -> bool, made: Made, out: nat)
    requires s.total == |s.idle| + out
    ensures var (t, r) := Acquire(s, max, ping, made);
      t.total == |t.idle| + out + (if r.Got? then 1 else 0) + (if r.Failed? && made.Threw? then 1 else 0)
  {
    DrainIsFifo(s, ping);
    var k := DeadPrefix(s.idle, ping);
    if k < |s.idle| {
      assert |s.idle[k + 1..]| == |s.idle| - k - 1;
    }
  }

  lemma ReleaseKeepsBalance(s: PoolState, c: Conn, out: nat)
    requires s.total == |s.idle| + out + 1
    ensures var t := Release(s, Some(c)); t.total == |t.idle| + out
  {
  }

  /** A released live connection is the next one handed out when nothing else is idle. */
  lemma ReleaseThenAcquire(s: PoolState, c: Conn, max: size_t, ping: Conn -> bool, made: Made)
    requires s.idle == [] && ping(c)
    ensures Acquire(Release(s, Some(c)), max, ping, made) == (s, Got(c))
  {
    var r := Release(s, Some(c));
    assert r.idle == [c] && r.idle[1..] == [];
  }

  /**
   * warmup with all `n` factory calls usable pushes their connections in call order with
   * total + n, never consulting max; the first unusable i-th call ends it with that call's
   * error, keeping the i pushed before.
   */
  lemma {:induction false} WarmupOutcomes(s: PoolState, n: nat, factory: nat -> Made, ping: Conn -> bool)
    ensures var (t, r) := Warmup(s, n, factory, ping);
      && (r.Success? <==> forall i :: 0 <= i < n ==> Usable(factory(i), ping))
      && (r.Success? ==> t.total == s.total + n && |t.idle| == |s.idle| + n)
      && (r.Success? ==> t.idle[..|s.idle|] == s.idle && forall i :: 0 <= i < n ==> Some(t.idle[|s.idle| + i]) == factory(i).conn)
      && (r.Failure? ==>
            exists i :: (0 <= i < n && !Usable(factory(i), ping) && (forall j :: 0 <= j < i ==> Usable(factory(j), ping))
              && r.error == WarmupError(factory(i)) && t.total == s.total + i && |t.idle| == |s.idle| + i))
  {
    if n > 0 {
      WarmupOutcomes(s, n - 1, factory, ping);
      var (t, r) := Warmup(s, n - 1, factory, ping);
      if r.Success? && !Usable(factory(n - 1), ping) {
        assert !Usable(factory(n - 1), ping) && (forall j :: 0 <= j < n - 1 ==> Usable(factory(j), ping))
          && t.total == s.total + (n - 1) && |t.idle| == |s.idle| + (n - 1);
      }
      if r.Success? && Usable(factory(n - 1), ping) {
        var t' := PoolState(t.idle + [factory(n - 1).conn.value], t.total + 1);
        assert t'.idle[..|s.idle|] == t.idle[..|s.idle|];
        forall i | 0 <= i < n ensures Some(t'.idle[|s.idle| + i]) == factory(i).conn {
          if i < n - 1 {
            assert t'.idle[|s.idle| + i] == t.idle[|s.idle| + i];
          }
        }
      }
    }
  }

  /** `n` acquires in a row, each of which finds the factory throwing `msg`. */
  function AcquireThrowing(s: PoolState, max: size_t, ping: Conn -> bool, msg: string, n: nat): PoolState
    decreases n
  {
    if n == 0 then s else AcquireThrowing(Acquire(s, max, ping, Threw(msg)).0, max, ping, msg, n - 1)
  }

  /**
   * The counter leak of a throwing factory: on a pool with nothing idle, each of `n` throwing
   * acquires below max raises total by one, and none of them hands out a connection.
   */
  lemma {:induction false} ThrowsRaiseTotal(j: nat, max: size_t, ping: Conn -> bool, msg: string, n: nat)
    requires j + n <= max as nat
    ensures AcquireThrowing(PoolState([], j), max, ping, msg, n) == PoolState([], j + n)
    decreases n
  {
    if n > 0 {
      assert Acquire(PoolState([], j), max, ping, Threw(msg)).0 == PoolState([], j + 1);
      ThrowsRaiseTotal(j + 1, max, ping, msg, n - 1);
    }
  }

  /**
   * After max throwing factory calls on a fresh pool, total is max with nothing idle and nothing
   * held, and from then on acquire blocks whatever the factory would do.
   */
  lemma ThrowsExhaustPool(max: size_t, ping: Conn -> bool, msg: string, made: Made)
    ensures var t := AcquireThrowing(PoolState([], 0), max, ping, msg, max as nat);
      t == PoolState([], max as nat) && Acquire(t, max, ping, made) == (t, Blocked)
  {
    ThrowsRaiseTotal(0, max, ping, msg, max as nat);
  }

  // ---------------------------------------------------------------------------------------
  // The RAII guard

  /** PooledConn: holds one connection of `pool` and gives it back when destroyed. */
  class PooledConn {
    const pool: ConnectionPool
    var c: Option<Conn>

    constructor Hold(p: ConnectionPool, c: Conn)
      ensures pool == p && this.c == Some(c)
    {
      pool := p;
      this.c := Some(c);
    }

    /**
     * PooledConn(p): exactly one acquire. A guard exists only when acquire produced a
     * connection; when it throws or waits no guard is made and nothing will be released.
     */
    static method Open(p: ConnectionPool, ping: Conn -> bool, made: Made) returns (r: Acquired, g: PooledConn?)
      modifies p
      ensures (p.State(), r) == Acquire(old(p.State()), p.cfg.max, ping, made)
      ensures r.Got? <==> g != null
      ensures g != null ==> fresh(g) && g.pool == p && g.c == Some(r.c)
    {
      r := p.AcquireConn(ping, made);
      if r.Got? {
        g := new PooledConn.Hold(p, r.c);
      } else {
        g := null;
      }
    }

    /** ~PooledConn: releases the connection iff one is still held; afterwards none is. */
    method Destroy()
      modifies this, pool
      ensures pool.State() == Release(old(pool.State()), old(c))
      ensures c.None?
    {
      if c.Some? {
        pool.ReleaseConn(c);
      }
      c := None;
    }

    /** PooledConn(PooledConn&&): the connection moves over and the source holds nothing. */
    constructor MoveFrom(other: PooledConn)
      modifies other
      ensures pool == other.pool && c == old(other.c)
      ensures other.c.None?
    {
      pool := other.pool;
      c := other.c;
      new;
      other.c := None;
    }

    /**
     * operator=(PooledConn&&): a self-move changes nothing; a guard of another pool terminates
     * the program (reported as true, with nothing changed); otherwise the held connection is
     * released first and then the other's is taken, leaving the other empty.
     */
    method MoveAssign(other: PooledConn) returns (terminated: bool)
      modifies this, other, pool
      ensures terminated <==> this != other && pool != other.pool
      ensures this == other || terminated ==> c == old(c) && other.c == old(other.c) && pool.State() == old(pool.State())
      ensures this != other && !terminated ==>
        && pool.State() == Release(old(pool.State()), old(c))
        && c == old(other.c) && other.c.None?
    {
      if this == other {
        return false;
      }
      if pool != other.pool {
        return true;
      }
      if c.Some? {
        pool.ReleaseConn(c);
      }
      c := other.c;
      other.c := None;
      terminated := false;
    }
  }
}
