/**
 * The transaction guard (include/vix/db/Transaction.hpp): begins on construction, and rolls back
 * on destruction unless commit or rollback already ended it. The driver's begin, commit and
 * rollback are recorded in a call log; whether each of them throws is an oracle argument.
 */
module Transactions {
  import opened Wrappers
  import opened Drivers
  import opened Pool

  /** The calls the guard makes on its connection. */
  datatype Call = Begin(c: Conn) | Commit(c: Conn) | Rollback(c: Conn)

  /** What the driver has been asked to do, in order. */
  class CallLog {
    var calls: seq<Call>

    constructor ()
      ensures calls == []
    {
      calls := [];
    }

    method Record(call: Call)
      modifies this
      ensures calls == old(calls) + [call]
    {
      calls := calls + [call];
    }
  }

  /** The guard's own state: the active_ flag and the calls it has issued. */
  datatype TxState = TxState(active: bool, calls: seq<Call>)

  /** commit(): the driver's commit, then inactive, unless the driver's commit threw. */
  function CommitStep(s: TxState, c: Conn, ok: bool): TxState {
    TxState(if ok then false else s.active, s.calls + [Commit(c)])
  }

  /** rollback(): the driver's rollback, then inactive, unless the driver's rollback threw. */
  function RollbackStep(s: TxState, c: Conn, ok: bool): TxState {
    TxState(if ok then false else s.active, s.calls + [Rollback(c)])
  }

  /** ~Transaction(): one rollback if still active, its exception swallowed; nothing otherwise. */
  function DestroyStep(s: TxState, c: Conn): TxState {
    if s.active then TxState(false, s.calls + [Rollback(c)]) else s
  }

  function CountCommits(calls: seq<Call>): nat {
    if |calls| == 0 then 0 else CountCommits(calls[..|calls| - 1]) + (if calls[|calls| - 1].Commit? then 1 else 0)
  }

  function CountRollbacks(calls: seq<Call>): nat {
    if |calls| == 0 then 0 else CountRollbacks(calls[..|calls| - 1]) + (if calls[|calls| - 1].Rollback? then 1 else 0)
  }

  lemma CountsOfAppend(calls: seq<Call>, call: Call)
    ensures CountCommits(calls + [call]) == CountCommits(calls) + (if call.Commit? then 1 else 0)
    ensures CountRollbacks(calls + [call]) == CountRollbacks(calls) + (if call.Rollback? then 1 else 0)
  {
    assert (calls + [call])[..|calls|] == calls;
  }

  /** Destroying an active guard issues exactly one rollback and never a commit; an inactive one issues nothing. */
  lemma DestroyRollsBackOnce(s: TxState, c: Conn)
    ensures var t := DestroyStep(s, c);
      && !t.active
      && CountCommits(t.calls) == CountCommits(s.calls)
      && (s.active ==> CountRollbacks(t.calls) == CountRollbacks(s.calls) + 1 && t.calls == s.calls + [Rollback(c)])
      && (!s.active ==> t.calls == s.calls)
  {
    CountsOfAppend(s.calls, Rollback(c));
  }

  /** After a commit that did not throw, destruction issues no further call. */
  lemma CommittedIsNotRolledBack(s: TxState, c: Conn)
    ensures DestroyStep(CommitStep(s, c, true), c) == CommitStep(s, c, true)
  {
  }

  /** A commit that threw leaves an active guard active, so destruction still rolls it back. */
  lemma FailedCommitIsRolledBack(s: TxState, c: Conn)
    requires s.active
    ensures DestroyStep(CommitStep(s, c, false), c).calls == s.calls + [Commit(c), Rollback(c)]
  {
  }

  /** The guard. `pooled` is the member PooledConn; `log` records what the connection was asked. */
  class Transaction {
    const pooled: PooledConn
    const log: CallLog
    var active: bool

    /** An active guard still holds its connection. */
    predicate Valid()
      reads this, pooled
    {
      active ==> pooled.c.Some?
    }

    constructor Begun(p: PooledConn, log: CallLog)
      requires p.c.Some?
      ensures pooled == p && this.log == log && active && Valid()
    {
      pooled := p;
      this.log := log;
      active := true;
    }

    /**
     * Transaction(pool): acquires through a PooledConn, then calls begin exactly once. No guard
     * results when acquire does not produce a connection. When begin throws there is no guard and
     * no rollback, but the member PooledConn is destroyed and gives the connection back.
     */
    static method Open(pool: ConnectionPool, log: CallLog, ping: Conn -> bool, made: Made, beginOk: bool)
      returns (acquired: Acquired, tx: Transaction?)
      modifies pool, log
      ensures var (s1, a) := Acquire(old(pool.State()), pool.cfg.max, ping, made);
        && acquired == a
        && pool.State() == (if acquired.Got? && !beginOk then Release(s1, Some(acquired.c)) else s1)
      ensures log.calls == old(log.calls) + (if acquired.Got? then [Begin(acquired.c)] else [])
      ensures tx != null <==> acquired.Got? && beginOk
      ensures tx != null ==> fresh(tx) && tx.active && tx.Valid() && tx.log == log && tx.pooled.pool == pool && tx.pooled.c == Some(acquired.c)
    {
      var g;
      acquired, g := PooledConn.Open(pool, ping, made);
      if g == null {
        return acquired, null;
      }
      log.Record(Begin(acquired.c));
      if !beginOk {
        g.Destroy();
        return acquired, null;
      }
      tx := new Transaction.Begun(g, log);
    }

    /** commit(). */
    method CommitTx(ok: bool)
      requires pooled.c.Some?
      modifies this, log
      ensures TxState(active, log.calls) == CommitStep(old(TxState(active, log.calls)), pooled.c.value, ok)
    {
      log.Record(Commit(pooled.c.value));
      if ok {
        active := false;
      }
    }

    /** rollback(). */
    method RollbackTx(ok: bool)
      requires pooled.c.Some?
      modifies this, log
      ensures TxState(active, log.calls) == RollbackStep(old(TxState(active, log.calls)), pooled.c.value, ok)
    {
      log.Record(Rollback(pooled.c.value));
      if ok {
        active := false;
      }
    }

    /**
     * ~Transaction(): the implicit rollback (whatever it throws is swallowed), then the member
     * PooledConn's destructor gives the connection back.
     */
    method Destroy()
      requires Valid()
      modifies this, log, pooled, pooled.pool
      ensures old(active) ==> log.calls == old(log.calls) + [Rollback(old(pooled.c).value)]
      ensures !old(active) ==> log.calls == old(log.calls)
      ensures !active && pooled.c.None?
      ensures pooled.pool.State() == Release(old(pooled.pool.State()), old(pooled.c))
    {
      if active {
        log.Record(Rollback(pooled.c.value));
        active := false;
      }
      pooled.Destroy();
    }

    /** Transaction(Transaction&&): takes over the connection and the active flag; the source becomes inactive and empty. */
    constructor MoveFrom(other: Transaction)
      requires other.Valid()
      modifies other, other.pooled
      ensures active == old(other.active) && log == other.log && Valid()
      ensures pooled.pool == other.pooled.pool && pooled.c == old(other.pooled.c)
      ensures !other.active && other.pooled.c.None?
    {
      var moved := new PooledConn.MoveFrom(other.pooled);
      pooled := moved;
      log := other.log;
      active := other.active;
      new;
      other.active := false;
    }
  }
}
