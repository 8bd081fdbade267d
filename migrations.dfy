/**
 * Code-based migrations (include/vix/db/mig/Migration.hpp, MigrationsRunner.hpp and
 * src/mig/MigrationsRunner.cpp). A migration is an identifier plus an `up` and a `down` step on
 * the database state reached through a connection; either step may throw, which is a Failure.
 */
module Migrations {
  import opened Wrappers
  import opened Drivers

  /** Migration: `id()`, `up(c)` and `down(c)` as transformations of the database state. */
  datatype Migration<!Db> = Migration(id: string, up: Db -> Result<Db, string>, down: Db -> Result<Db, string>)

  /** The obligation Migration.hpp puts on `down`: it undoes whatever a successful `up` did. */
  ghost predicate Reversible<Db(!new)>(m: Migration<Db>) {
    forall d: Db :: m.up(d).Success? ==> m.down(m.up(d).value) == Success(d)
  }

  /** The calls a runner makes: which registered migration, which step, through which connection. */
  datatype Invocation = Up(index: nat, via: Conn) | Down(index: nat, via: Conn)

  /** Every `up`, in order, stopping at the first that throws. */
  function RunUps<Db>(migs: seq<Migration<Db>>, db: Db): Result<Db, string>
  {
    if |migs| == 0 then Success(db)
    else
      match migs[0].up(db)
      case Failure(e) => Failure(e)
      case Success(next) => RunUps(migs[1..], next)
  }

  /** Every `down`, last migration first. */
  function RunDownsReversed<Db>(migs: seq<Migration<Db>>, db: Db): Result<Db, string>
  {
    if |migs| == 0 then Success(db)
    else
      match migs[|migs| - 1].down(db)
      case Failure(e) => Failure(e)
      case Success(prev) => RunDownsReversed(migs[..|migs| - 1], prev)
  }

  /** How many `up` calls RunUps makes: all of them, or up to and including the one that throws. */
  function UpsAttempted<Db>(migs: seq<Migration<Db>>, db: Db): (n: nat)
    ensures n <= |migs|
    ensures RunUps(migs, db).Success? ==> n == |migs|
    ensures n < |migs| ==> RunUps(migs, db).Failure?
  {
    if |migs| == 0 then 0
    else
      match migs[0].up(db)
      case Failure(_) => 1
      case Success(next) => 1 + UpsAttempted(migs[1..], next)
  }

  /** The ups of a prefix that all succeeded, followed by the next one. */
  lemma {:induction false} RunUpsSnoc<Db>(migs: seq<Migration<Db>>, k: nat, db: Db)
    requires k < |migs| && RunUps(migs[..k], db).Success?
    ensures RunUps(migs[..k + 1], db) == migs[k].up(RunUps(migs[..k], db).value)
  {
    if k > 0 {
      assert migs[..k][0] == migs[0] && migs[..k + 1][0] == migs[0];
      var d := migs[0].up(db).value;
      assert migs[..k][1..] == migs[1..][..k - 1];
      assert migs[..k + 1][1..] == migs[1..][..k];
      RunUpsSnoc(migs[1..], k - 1, d);
    }
  }

  /** Running all ups and then all downs in reverse order gives back the starting state. */
  lemma {:induction false} DownsUndoUps<Db(!new)>(migs: seq<Migration<Db>>, db: Db)
    requires forall k :: 0 <= k < |migs| ==> Reversible(migs[k])
    requires RunUps(migs, db).Success?
    ensures RunDownsReversed(migs, RunUps(migs, db).value) == Success(db)
    decreases |migs|
  {
    if |migs| > 0 {
      var n := |migs| - 1;
      var front := migs[..n];
      assert RunUps(front, db).Success? by { UpsOfPrefix(migs, n, db); }
      RunUpsSnoc(migs, n, db);
      assert migs[..n + 1] == migs;
      var mid := RunUps(front, db).value;
      assert Reversible(migs[n]);
      assert migs[n].down(migs[n].up(mid).value) == Success(mid);
      DownsUndoUps(front, db);
    }
  }

  /** A successful run of the ups also succeeded on every prefix. */
  lemma {:induction false} UpsOfPrefix<Db>(migs: seq<Migration<Db>>, k: nat, db: Db)
    requires k <= |migs| && RunUps(migs, db).Success?
    ensures RunUps(migs[..k], db).Success?
  {
    if k > 0 {
      var d := migs[0].up(db).value;
      assert migs[..k][0] == migs[0];
      assert migs[..k][1..] == migs[1..][..k - 1];
      UpsOfPrefix(migs[1..], k - 1, d);
    }
  }

  /** MigrationsRunner: the connection fixed at construction and the registered migrations. */
  class MigrationsRunner<Db> {
    const conn: Conn
    var migs: seq<Migration<Db>>

    /** MigrationsRunner(c). */
    constructor (c: Conn)
      ensures conn == c && migs == []
    {
      conn := c;
      migs := [];
    }

    /** add(m): appended at the end, with no sorting and no de-duplication. */
    method Add(m: Migration<Db>)
      modifies this
      ensures migs == old(migs) + [m]
    {
      migs := migs + [m];
    }

    /**
     * runAll(): `up` of each registered migration, in registration order, through the runner's
     * connection; the first `up` that throws ends the run. `down` is never called.
     */
    method RunAll(db: Db) returns (r: Result<Db, string>, calls: seq<Invocation>)
      ensures r == RunUps(migs, db)
      ensures |calls| == UpsAttempted(migs, db)
      ensures forall k :: 0 <= k < |calls| ==> calls[k] == Up(k, conn)
    {
      var cur := db;
      calls := [];
      var i := 0;
      while i < |migs|
        invariant 0 <= i <= |migs|
        invariant RunUps(migs, db) == RunUps(migs[i..], cur)
        invariant UpsAttempted(migs, db) == i + UpsAttempted(migs[i..], cur)
        invariant |calls| == i
        invariant forall k :: 0 <= k < i ==> calls[k] == Up(k, conn)
      {
        calls := calls + [Up(i, conn)];
        var step := migs[i].up(cur);
        if step.Failure? {
          return Failure(step.error), calls;
        }
        assert migs[i..][1..] == migs[i + 1..];
        cur := step.value;
        i := i + 1;
      }
      r := Success(cur);
    }
  }
}
