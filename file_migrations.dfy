/**
 * File-based migrations (include/vix/db/mig/FileMigrationsRunner.hpp). The header declares the
 * runner and documents its behaviour; the model follows that documentation. The ledger table is
 * kept as its rows, reading a script file and running its statements are oracles.
 */
module FileMigrations {
  import opened Wrappers
  import opened Drivers
  import opened Chars

  // ---------------------------------------------------------------------------------------------
  // Identifier order: std::string's operator<, lexicographic by character.

  predicate Less(a: string, b: string)
  {
    if |a| == 0 then |b| > 0
    else if |b| == 0 then false
    else if a[0] < b[0] then true
    else a[0] == b[0] && Less(a[1..], b[1..])
  }

  predicate LessEq(a: string, b: string) {
    a == b || Less(a, b)
  }

  lemma {:induction false} LessIrreflexive(a: string)
    ensures !Less(a, a)
  {
    if |a| > 0 {
      LessIrreflexive(a[1..]);
    }
  }

  lemma {:induction false} LessTotal(a: string, b: string)
    ensures Less(a, b) || a == b || Less(b, a)
  {
    if |a| > 0 && |b| > 0 && a[0] == b[0] {
      LessTotal(a[1..], b[1..]);
      if a[1..] == b[1..] {
        assert a == [a[0]] + a[1..] && b == [b[0]] + b[1..];
      }
    }
  }

  lemma {:induction false} LessTransitive(a: string, b: string, c: string)
    requires Less(a, b) && Less(b, c)
    ensures Less(a, c)
  {
    if |a| > 0 && a[0] == b[0] && b[0] == c[0] {
      LessTransitive(a[1..], b[1..], c[1..]);
    }
  }

  lemma LessEqTransitive(a: string, b: string, c: string)
    requires LessEq(a, b) && LessEq(b, c)
    ensures LessEq(a, c)
  {
    if a != b && b != c {
      LessTransitive(a, b, c);
    }
  }

  lemma LessAsymmetric(a: string, b: string)
    requires Less(a, b)
    ensures !Less(b, a) && a != b
  {
    LessIrreflexive(a);
    if Less(b, a) {
      LessTransitive(a, b, a);
    }
  }

  // ---------------------------------------------------------------------------------------------
  // Migration pairs and the ledger.

  /** MigrationPair: an id, the up script (required), the down script (empty when missing) and the up script's checksum. */
  datatype MigrationPair = MigrationPair(id: string, upPath: string, downPath: string, upChecksum: string)

  /** One row of the tracking table. */
  datatype LedgerRow = LedgerRow(id: string, checksum: string)

  /** What the runner executed, in order. */
  datatype Run = Up(id: string) | Down(id: string)

  datatype RunError = ScriptFailed(id: string) | NothingToRollback | MissingDown(id: string)

  const DefaultTable: string := "schema_migrations"

  /** isApplied(id, &checksum): whether a row for `id` exists, with its stored checksum. */
  function IsApplied(rows: seq<LedgerRow>, id: string): (r: Option<string>)
    ensures r.None? <==> forall k :: 0 <= k < |rows| ==> rows[k].id != id
    ensures r.Some? ==> exists k :: 0 <= k < |rows| && rows[k] == LedgerRow(id, r.value)
  {
    if |rows| == 0 then None
    else if rows[0].id == id then Some(rows[0].checksum)
    else
      var r := IsApplied(rows[1..], id);
      assert forall k :: 1 <= k < |rows| ==> rows[k] == rows[1..][k - 1];
      r
  }

  /** unmarkApplied(id): every row of `id` goes, the others stay in order. */
  function Without(rows: seq<LedgerRow>, id: string): (r: seq<LedgerRow>)
    ensures forall k :: 0 <= k < |r| ==> r[k].id != id
    ensures |r| <= |rows|
  {
    if |rows| == 0 then []
    else if rows[0].id == id then Without(rows[1..], id)
    else [rows[0]] + Without(rows[1..], id)
  }

  /** unmarkApplied keeps exactly the rows of other ids. */
  lemma {:induction false} WithoutKeepsOthers(rows: seq<LedgerRow>, id: string)
    ensures forall x :: x in Without(rows, id) <==> x in rows && x.id != id
  {
    if |rows| > 0 {
      WithoutKeepsOthers(rows[1..], id);
      assert rows == [rows[0]] + rows[1..];
    }
  }

  /** The greatest applied id: what lastAppliedId() reads, ordering the ledger by id descending. */
  function LastId(rows: seq<LedgerRow>): (m: string)
    requires |rows| > 0
    ensures exists k :: 0 <= k < |rows| && rows[k].id == m
    ensures forall k :: 0 <= k < |rows| ==> LessEq(rows[k].id, m)
  {
    if |rows| == 1 then rows[0].id
    else
      var rest := LastId(rows[1..]);
      assert forall k :: 1 <= k < |rows| ==> rows[k] == rows[1..][k - 1];
      LessTotal(rest, rows[0].id);
      if Less(rest, rows[0].id) then
        assert forall k :: 1 <= k < |rows| ==> LessEq(rows[k].id, rows[0].id) by {
          forall k | 1 <= k < |rows| ensures LessEq(rows[k].id, rows[0].id) {
            LessEqTransitive(rows[k].id, rest, rows[0].id);
          }
        }
        rows[0].id
      else
        rest
  }

  /** The first pair with the given id. */
  function FindPair(pairs: seq<MigrationPair>, id: string): (r: Option<MigrationPair>)
    ensures r.None? <==> forall k :: 0 <= k < |pairs| ==> pairs[k].id != id
    ensures r.Some? ==> r.value in pairs && r.value.id == id
  {
    if |pairs| == 0 then None
    else if pairs[0].id == id then Some(pairs[0])
    else
      assert forall k :: 1 <= k < |pairs| ==> pairs[k] == pairs[1..][k - 1];
      FindPair(pairs[1..], id)
  }

  // ---------------------------------------------------------------------------------------------
  // Ascending order of the pairs.

  predicate SortedById(ps: seq<MigrationPair>) {
    forall i, j :: 0 <= i < j < |ps| ==> LessEq(ps[i].id, ps[j].id)
  }

  function Insert(p: MigrationPair, ps: seq<MigrationPair>): (r: seq<MigrationPair>)
    requires SortedById(ps)
    ensures SortedById(r)
    ensures multiset(r) == multiset(ps) + multiset{p}
  {
    if |ps| == 0 then [p]
    else if LessEq(p.id, ps[0].id) then
      BelowFirst(p, ps);
      SortedCons(p, ps);
      [p] + ps
    else
      assert ps == [ps[0]] + ps[1..];
      var tail := Insert(p, ps[1..]);
      LessTotal(p.id, ps[0].id);
      BelowAll(ps[0], ps[1..], p, tail);
      SortedCons(ps[0], tail);
      [ps[0]] + tail
  }

  /** A pair no greater than the first of a sorted sequence is no greater than any of it. */
  lemma BelowFirst(p: MigrationPair, ps: seq<MigrationPair>)
    requires SortedById(ps) && |ps| > 0 && LessEq(p.id, ps[0].id)
    ensures forall j :: 0 <= j < |ps| ==> LessEq(p.id, ps[j].id)
  {
    forall j | 0 <= j < |ps| ensures LessEq(p.id, ps[j].id) {
      LessEqTransitive(p.id, ps[0].id, ps[j].id);
    }
  }

  /** A lower bound of `rest` and of `p` bounds any rearrangement of `rest` with `p`. */
  lemma BelowAll(x: MigrationPair, rest: seq<MigrationPair>, p: MigrationPair, tail: seq<MigrationPair>)
    requires forall j :: 0 <= j < |rest| ==> LessEq(x.id, rest[j].id)
    requires LessEq(x.id, p.id)
    requires multiset(tail) == multiset(rest) + multiset{p}
    ensures forall j :: 0 <= j < |tail| ==> LessEq(x.id, tail[j].id)
  {
    forall j | 0 <= j < |tail| ensures LessEq(x.id, tail[j].id) {
      var y := tail[j];
      assert y in multiset(tail);
      if y != p {
        assert y in multiset(rest);
        var k :| 0 <= k < |rest| && rest[k] == y;
      }
    }
  }

  lemma SortedCons(x: MigrationPair, ps: seq<MigrationPair>)
    requires SortedById(ps) && forall j :: 0 <= j < |ps| ==> LessEq(x.id, ps[j].id)
    ensures SortedById([x] + ps)
  {
    var r := [x] + ps;
    forall i, j | 0 <= i < j < |r| ensures LessEq(r[i].id, r[j].id) {
      if i > 0 {
        assert r[i] == ps[i - 1] && r[j] == ps[j - 1];
      } else {
        assert r[j] == ps[j - 1];
      }
    }
  }

  /** The pairs in ascending id order (the order applyAll applies them in). */
  function SortById(ps: seq<MigrationPair>): (r: seq<MigrationPair>)
    ensures SortedById(r)
    ensures multiset(r) == multiset(ps)
  {
    if |ps| == 0 then []
    else
      assert ps == [ps[0]] + ps[1..];
      Insert(ps[0], SortById(ps[1..]))
  }

  // ---------------------------------------------------------------------------------------------
  // applyAll and rollback as functions of the ledger.

  datatype LedgerState = LedgerState(rows: seq<LedgerRow>, ran: seq<Run>)

  /**
   * The apply loop over pairs already in ascending order: an applied id is skipped; otherwise its
   * up script runs, and only when it fully succeeds is (id, checksum) recorded. The first
   * failing script ends the run.
   */
  function ApplyPending(ps: seq<MigrationPair>, st: LedgerState, upOk: MigrationPair -> bool): (LedgerState, Result<(), RunError>)
  {
    if |ps| == 0 then (st, Success(()))
    else
      var p := ps[0];
      if IsApplied(st.rows, p.id).Some? then ApplyPending(ps[1..], st, upOk)
      else if !upOk(p) then (LedgerState(st.rows, st.ran + [Up(p.id)]), Failure(ScriptFailed(p.id)))
      else ApplyPending(ps[1..], LedgerState(st.rows + [LedgerRow(p.id, p.upChecksum)], st.ran + [Up(p.id)]), upOk)
  }

  /**
   * rollback(steps): `steps` times, the greatest applied id is reverted with its down script and
   * then unmarked. An empty ledger, a pair without a down script and a failing script are errors.
   */
  function RollbackSteps(steps: int, pairs: seq<MigrationPair>, st: LedgerState, downOk: MigrationPair -> bool): (LedgerState, Result<(), RunError>)
    decreases steps
  {
    if steps <= 0 then (st, Success(()))
    else if |st.rows| == 0 then (st, Failure(NothingToRollback))
    else
      var (next, r) := RollbackOne(pairs, st, downOk);
      if r.Failure? then (next, r) else RollbackSteps(steps - 1, pairs, next, downOk)
  }

  /** The first iteration of rollback, then the remaining ones. */
  lemma RollbackStepsUnfold(steps: int, pairs: seq<MigrationPair>, st: LedgerState, downOk: MigrationPair -> bool)
    requires steps > 0 && |st.rows| > 0
    ensures var (next, r) := RollbackOne(pairs, st, downOk);
      RollbackSteps(steps, pairs, st, downOk) == if r.Failure? then (next, r) else RollbackSteps(steps - 1, pairs, next, downOk)
  {
  }

  /** One step of rollback: revert and unmark the greatest applied id. */
  function RollbackOne(pairs: seq<MigrationPair>, st: LedgerState, downOk: MigrationPair -> bool): (LedgerState, Result<(), RunError>)
    requires |st.rows| > 0
  {
    var id := LastId(st.rows);
    match FindPair(pairs, id)
    case None => (st, Failure(MissingDown(id)))
    case Some(p) =>
      if p.downPath == "" then (st, Failure(MissingDown(id)))
      else if !downOk(p) then (LedgerState(st.rows, st.ran + [Down(id)]), Failure(ScriptFailed(id)))
      else (LedgerState(Without(st.rows, id), st.ran + [Down(id)]), Success(()))
  }

  /** Nothing ever leaves the ledger during apply, and the run log only grows. */
  lemma {:induction false} ApplyExtends(ps: seq<MigrationPair>, st: LedgerState, upOk: MigrationPair -> bool)
    ensures var (st', _) := ApplyPending(ps, st, upOk);
      && st.rows <= st'.rows && st.ran <= st'.ran
  {
    if |ps| > 0 {
      var p := ps[0];
      if IsApplied(st.rows, p.id).Some? {
        ApplyExtends(ps[1..], st, upOk);
      } else if upOk(p) {
        ApplyExtends(ps[1..], LedgerState(st.rows + [LedgerRow(p.id, p.upChecksum)], st.ran + [Up(p.id)]), upOk);
      }
    }
  }

  /** After a successful apply every pair's id is in the ledger. */
  lemma {:induction false} ApplyCovers(ps: seq<MigrationPair>, st: LedgerState, upOk: MigrationPair -> bool)
    requires ApplyPending(ps, st, upOk).1.Success?
    ensures forall k :: 0 <= k < |ps| ==> IsApplied(ApplyPending(ps, st, upOk).0.rows, ps[k].id).Some?
  {
    if |ps| > 0 {
      var p := ps[0];
      var next := if IsApplied(st.rows, p.id).Some? then st
                  else LedgerState(st.rows + [LedgerRow(p.id, p.upChecksum)], st.ran + [Up(p.id)]);
      assert ApplyPending(ps, st, upOk) == ApplyPending(ps[1..], next, upOk);
      ApplyCovers(ps[1..], next, upOk);
      ApplyExtends(ps[1..], next, upOk);
      var rows' := ApplyPending(ps, st, upOk).0.rows;
      if IsApplied(st.rows, p.id).None? {
        MarkedIsApplied(st.rows, LedgerRow(p.id, p.upChecksum));
      }
      AppliedInExtension(next.rows, rows', p.id);
      forall k | 0 <= k < |ps| ensures IsApplied(rows', ps[k].id).Some? {
        if k > 0 {
          assert ps[k] == ps[1..][k - 1];
        }
      }
    }
  }

  /** markApplied(id) makes id applied. */
  lemma MarkedIsApplied(rows: seq<LedgerRow>, row: LedgerRow)
    ensures IsApplied(rows + [row], row.id).Some?
  {
    assert (rows + [row])[|rows|] == row;
  }

  /** Appending rows never makes an applied id unapplied. */
  lemma AppliedInExtension(rows: seq<LedgerRow>, rows': seq<LedgerRow>, id: string)
    requires rows <= rows' && IsApplied(rows, id).Some?
    ensures IsApplied(rows', id).Some?
  {
    var j :| 0 <= j < |rows| && rows[j].id == id;
    assert rows'[j] == rows[j];
  }

  /** With every id already applied, apply executes nothing and changes nothing. */
  lemma {:induction false} ApplyAllAppliedIsNoop(ps: seq<MigrationPair>, st: LedgerState, upOk: MigrationPair -> bool)
    requires forall k :: 0 <= k < |ps| ==> IsApplied(st.rows, ps[k].id).Some?
    ensures ApplyPending(ps, st, upOk) == (st, Success(()))
  {
    if |ps| > 0 {
      assert forall k :: 1 <= k < |ps| ==> ps[1..][k - 1] == ps[k];
      ApplyAllAppliedIsNoop(ps[1..], st, upOk);
    }
  }

  /** A second apply after a successful one executes no script and leaves the ledger as it was. */
  lemma ApplyIdempotent(ps: seq<MigrationPair>, st: LedgerState, upOk: MigrationPair -> bool)
    requires ApplyPending(ps, st, upOk).1.Success?
    ensures var st' := ApplyPending(ps, st, upOk).0;
      ApplyPending(ps, st', upOk) == (st', Success(()))
  {
    ApplyCovers(ps, st, upOk);
    ApplyAllAppliedIsNoop(ps, ApplyPending(ps, st, upOk).0, upOk);
  }

  /**
   * What apply executes: up scripts only, only of ids not in the ledger beforehand, each the id
   * of one of the pairs; over pairs in ascending order, in strictly ascending id order.
   */
  lemma {:induction false} ApplyRuns(ps: seq<MigrationPair>, st: LedgerState, upOk: MigrationPair -> bool)
    ensures var st' := ApplyPending(ps, st, upOk).0;
      && st.ran <= st'.ran
      && (forall k :: |st.ran| <= k < |st'.ran| ==>
            st'.ran[k].Up? && IsApplied(st.rows, st'.ran[k].id).None? &&
            exists j :: 0 <= j < |ps| && ps[j].id == st'.ran[k].id)
      && (SortedById(ps) ==> forall k, l :: |st.ran| <= k < l < |st'.ran| ==> Less(st'.ran[k].id, st'.ran[l].id))
  {
    ApplyExtends(ps, st, upOk);
    if |ps| > 0 {
      var p := ps[0];
      var st' := ApplyPending(ps, st, upOk).0;
      assert forall j :: 1 <= j < |ps| ==> ps[1..][j - 1] == ps[j];
      if IsApplied(st.rows, p.id).Some? {
        ApplyRuns(ps[1..], st, upOk);
      } else if upOk(p) {
        var next := LedgerState(st.rows + [LedgerRow(p.id, p.upChecksum)], st.ran + [Up(p.id)]);
        ApplyRuns(ps[1..], next, upOk);
        assert st'.ran[|st.ran|] == Up(p.id);
        forall k | |next.ran| <= k < |st'.ran|
          ensures IsApplied(st.rows, st'.ran[k].id).None? && st'.ran[k].id != p.id
        {
          assert forall q :: 0 <= q < |st.rows| ==> next.rows[q] == st.rows[q];
          assert next.rows[|st.rows|].id == p.id;
        }
        if SortedById(ps) {
          forall k, l | |st.ran| <= k < l < |st'.ran| ensures Less(st'.ran[k].id, st'.ran[l].id) {
            if k == |st.ran| {
              var j :| 0 <= j < |ps[1..]| && ps[1..][j].id == st'.ran[l].id;
              assert LessEq(p.id, ps[j + 1].id);
            }
          }
        }
      }
    }
  }

  /** rollback(steps) with fewer applied rows than steps cannot succeed. */
  lemma {:induction false} RollbackNeedsRows(steps: int, pairs: seq<MigrationPair>, st: LedgerState, downOk: MigrationPair -> bool)
    requires |st.rows| < steps
    ensures RollbackSteps(steps, pairs, st, downOk).1.Failure?
    decreases steps
  {
    if |st.rows| > 0 {
      var (next, r) := RollbackOne(pairs, st, downOk);
      if r.Success? {
        LastIdShrinks(st.rows);
        assert |next.rows| < |st.rows|;
        RollbackNeedsRows(steps - 1, pairs, next, downOk);
      }
    }
  }

  /** Unmarking the greatest id removes at least one row. */
  lemma LastIdShrinks(rows: seq<LedgerRow>)
    requires |rows| > 0
    ensures |Without(rows, LastId(rows))| < |rows|
  {
    var k :| 0 <= k < |rows| && rows[k].id == LastId(rows);
    WithoutShrinks(rows, LastId(rows), rows[k]);
  }

  lemma {:induction false} WithoutShrinks(rows: seq<LedgerRow>, id: string, row: LedgerRow)
    requires row in rows && row.id == id
    ensures |Without(rows, id)| < |rows|
  {
    if rows[0] != row {
      WithoutLength(rows[1..], id);
      assert row in rows[1..];
      WithoutShrinks(rows[1..], id, row);
    } else {
      WithoutLength(rows[1..], id);
    }
  }

  lemma {:induction false} WithoutLength(rows: seq<LedgerRow>, id: string)
    ensures |Without(rows, id)| <= |rows|
  {
    if |rows| > 0 {
      WithoutLength(rows[1..], id);
    }
  }

  /**
   * One successful rollback step reverts the greatest applied id: its down script runs, every
   * row of that id goes and every other row stays.
   */
  lemma RollbackOneStep(pairs: seq<MigrationPair>, st: LedgerState, downOk: MigrationPair -> bool)
    requires RollbackSteps(1, pairs, st, downOk).1.Success?
    ensures |st.rows| > 0
    ensures var (st', _) := RollbackSteps(1, pairs, st, downOk);
      var id := LastId(st.rows);
      && (forall k :: 0 <= k < |st.rows| ==> LessEq(st.rows[k].id, id))
      && st'.ran == st.ran + [Down(id)]
      && st'.rows == Without(st.rows, id)
      && FindPair(pairs, id).Some? && FindPair(pairs, id).value.downPath != ""
  {
  }

  /** The documented scenario, first half: applying 001 and 002 on an empty ledger applies both, in id order. */
  lemma ApplyTwoFromEmpty(up1: MigrationPair, up2: MigrationPair, upOk: MigrationPair -> bool)
    requires up1.id == "001" && up2.id == "002"
    requires upOk(up1) && upOk(up2)
    ensures ApplyPending(SortById([up2, up1]), LedgerState([], []), upOk) ==
      (LedgerState([LedgerRow("001", up1.upChecksum), LedgerRow("002", up2.upChecksum)], [Up("001"), Up("002")]), Success(()))
  {
    SortTwo(up1, up2);
    var s1 := LedgerState([LedgerRow("001", up1.upChecksum)], [Up("001")]);
    ApplyFirstOfTwo(up1, up2, upOk);
    ApplySecondOfTwo(up2, s1, upOk);
    assert s1.rows + [LedgerRow("002", up2.upChecksum)] == [LedgerRow("001", up1.upChecksum), LedgerRow("002", up2.upChecksum)];
    assert s1.ran + [Up("002")] == [Up("001"), Up("002")];
  }

  lemma SortTwo(up1: MigrationPair, up2: MigrationPair)
    requires up1.id == "001" && up2.id == "002"
    ensures SortById([up2, up1]) == [up1, up2]
  {
    assert Less("001", "002");
    LessAsymmetric("001", "002");
    assert [up2, up1][1..] == [up1];
    assert SortById([up1]) == [up1];
  }

  lemma ApplyFirstOfTwo(up1: MigrationPair, up2: MigrationPair, upOk: MigrationPair -> bool)
    requires up1.id == "001" && upOk(up1)
    ensures ApplyPending([up1, up2], LedgerState([], []), upOk) ==
      ApplyPending([up2], LedgerState([LedgerRow("001", up1.upChecksum)], [Up("001")]), upOk)
  {
    assert [up1, up2][1..] == [up2];
    assert [] + [LedgerRow(up1.id, up1.upChecksum)] == [LedgerRow("001", up1.upChecksum)];
    assert [] + [Up(up1.id)] == [Up("001")];
  }

  lemma ApplySecondOfTwo(up2: MigrationPair, s1: LedgerState, upOk: MigrationPair -> bool)
    requires up2.id == "002" && upOk(up2)
    requires |s1.rows| == 1 && s1.rows[0].id == "001"
    ensures ApplyPending([up2], s1, upOk) == (LedgerState(s1.rows + [LedgerRow("002", up2.upChecksum)], s1.ran + [Up("002")]), Success(()))
  {
    assert "001" != "002" by { assert "001"[2] != "002"[2]; }
    assert IsApplied(s1.rows, "002").None?;
    assert [up2][1..] == [];
  }

  /** The documented scenario, second half: rollback(1) runs only 002's down script and leaves 001 applied. */
  lemma RollbackLatestOfTwo(up1: MigrationPair, up2: MigrationPair, downOk: MigrationPair -> bool, c1: string, c2: string)
    requires up1.id == "001" && up2.id == "002" && up2.downPath != "" && downOk(up2)
    ensures RollbackSteps(1, [up1, up2], LedgerState([LedgerRow("001", c1), LedgerRow("002", c2)], [Up("001"), Up("002")]), downOk) ==
      (LedgerState([LedgerRow("001", c1)], [Up("001"), Up("002"), Down("002")]), Success(()))
  {
    assert Less("001", "002");
    var rows := [LedgerRow("001", c1), LedgerRow("002", c2)];
    assert LastId(rows) == "002" by {
      assert rows[1..] == [LedgerRow("002", c2)];
    }
    assert Without(rows, "002") == [LedgerRow("001", c1)] by {
      assert rows[1..] == [LedgerRow("002", c2)];
      assert rows[1..][1..] == [];
    }
    assert FindPair([up1, up2], "002") == Some(up2) by {
      assert [up1, up2][1..] == [up2];
    }
    assert [Up("001"), Up("002")] + [Down("002")] == [Up("001"), Up("002"), Down("002")];
  }

  // ---------------------------------------------------------------------------------------------
  // Script text helpers.

  /** Index just past the last non-space character before `j`, not going below `i`. */
  function SkipTrailing(s: string, i: nat, j: nat): (e: nat)
    requires i <= j <= |s|
    ensures i <= e <= j
    ensures forall k :: e <= k < j ==> IsSpace(s[k])
    ensures e > i ==> !IsSpace(s[e - 1])
  {
    if j == i || !IsSpace(s[j - 1]) then j else SkipTrailing(s, i, j - 1)
  }

  /** trim(s): leading and trailing whitespace removed, nothing else. */
  function Trim(s: string): (r: string)
    ensures var i := SkipLeading(s, 0);
      var j := SkipTrailing(s, i, |s|);
      && r == s[i..j]
      && (forall k :: 0 <= k < i ==> IsSpace(s[k]))
      && (forall k :: j <= k < |s| ==> IsSpace(s[k]))
    ensures |r| > 0 ==> !IsSpace(r[0]) && !IsSpace(r[|r| - 1])
  {
    var i := SkipLeading(s, 0);
    s[i..SkipTrailing(s, i, |s|)]
  }

  lemma TrimUnchanged(s: string)
    requires |s| > 0 ==> !IsSpace(s[0]) && !IsSpace(s[|s| - 1])
    ensures Trim(s) == s
  {
  }

  /** trim is idempotent. */
  lemma TrimIdempotent(s: string)
    ensures Trim(Trim(s)) == Trim(s)
  {
    TrimUnchanged(Trim(s));
  }

  function IndexOf(s: string, c: char): (r: Option<nat>)
    ensures r.None? <==> c !in s
    ensures r.Some? ==> r.value < |s| && s[r.value] == c && c !in s[..r.value]
  {
    if |s| == 0 then None
    else if s[0] == c then Some(0)
    else
      match IndexOf(s[1..], c)
      case None => None
      case Some(k) =>
        assert s[..k + 1] == [s[0]] + s[1..][..k];
        Some(k + 1)
  }

  /** The text between statement terminators ';'. */
  function Pieces(s: string): (r: seq<string>)
    ensures |r| > 0
    ensures forall k :: 0 <= k < |r| ==> ';' !in r[k]
    decreases |s|
  {
    match IndexOf(s, ';')
    case None => [s]
    case Some(k) => [s[..k]] + Pieces(s[k + 1..])
  }

  function JoinWith(parts: seq<string>, sep: char): string
    requires |parts| > 0
  {
    if |parts| == 1 then parts[0] else parts[0] + [sep] + JoinWith(parts[1..], sep)
  }

  /** Cutting at every ';' loses nothing: joining the pieces with ';' gives the script back. */
  lemma {:induction false} PiecesJoin(s: string)
    ensures JoinWith(Pieces(s), ';') == s
    decreases |s|
  {
    match IndexOf(s, ';')
    case None =>
    case Some(k) =>
      PiecesJoin(s[k + 1..]);
      assert s == s[..k] + [';'] + s[k + 1..];
  }

  function TrimmedStatements(pieces: seq<string>): (r: seq<string>)
    ensures forall k :: 0 <= k < |r| ==> |r[k]| > 0 && Trim(r[k]) == r[k]
  {
    if |pieces| == 0 then []
    else
      var t := Trim(pieces[0]);
      TrimIdempotent(pieces[0]);
      if |t| == 0 then TrimmedStatements(pieces[1..]) else [t] + TrimmedStatements(pieces[1..])
  }

  /** splitStatements(sql): the pieces between ';', each trimmed, the empty ones dropped. */
  function SplitStatements(sql: string): (r: seq<string>)
    ensures forall k :: 0 <= k < |r| ==> |r[k]| > 0 && Trim(r[k]) == r[k] && ';' !in r[k]
  {
    var ps := Pieces(sql);
    StatementsHaveNoTerminator(ps);
    TrimmedStatements(ps)
  }

  lemma {:induction false} StatementsHaveNoTerminator(pieces: seq<string>)
    requires forall k :: 0 <= k < |pieces| ==> ';' !in pieces[k]
    ensures forall k :: 0 <= k < |TrimmedStatements(pieces)| ==> ';' !in TrimmedStatements(pieces)[k]
  {
    if |pieces| > 0 {
      var s := pieces[0];
      var t := Trim(s);
      assert forall k :: 0 <= k < |t| ==> t[k] in s;
      assert forall k :: 1 <= k < |pieces| ==> pieces[1..][k - 1] == pieces[k];
      StatementsHaveNoTerminator(pieces[1..]);
    }
  }

  /** A script without ';' whose text is not blank is a single statement, trimmed. */
  lemma SingleStatement(sql: string)
    requires ';' !in sql && |Trim(sql)| > 0
    ensures SplitStatements(sql) == [Trim(sql)]
  {
    assert Pieces(sql) == [sql];
    assert [sql][1..] == [];
    assert TrimmedStatements([sql]) == [Trim(sql)] + TrimmedStatements([]);
  }

  /** execScript(sql): the statements in order, stopping after the first that fails. */
  function ExecScript(statements: seq<string>, exec: string -> bool): (r: (seq<string>, bool))
    ensures r.0 <= statements
    ensures r.1 <==> r.0 == statements && forall k :: 0 <= k < |statements| ==> exec(statements[k])
    ensures !r.1 ==> |r.0| > 0 && !exec(r.0[|r.0| - 1]) && forall k :: 0 <= k < |r.0| - 1 ==> exec(r.0[k])
  {
    if |statements| == 0 then ([], true)
    else if !exec(statements[0]) then ([statements[0]], false)
    else
      var (sent, ok) := ExecScript(statements[1..], exec);
      assert forall k :: 1 <= k < |statements| ==> statements[1..][k - 1] == statements[k];
      ([statements[0]] + sent, ok)
  }

  // ---------------------------------------------------------------------------------------------
  // The runner.

  /** FileMigrationsRunner: connection, directory, tracking table name, and the table's rows. */
  class FileMigrationsRunner {
    const conn: Conn
    const dir: string
    var table: string
    var rows: seq<LedgerRow>
    var ran: seq<Run>

    /** FileMigrationsRunner(c, dir): the table name defaults to schema_migrations; `existing` are the rows already in it. */
    constructor (c: Conn, migrationsDir: string, existing: seq<LedgerRow>)
      ensures conn == c && dir == migrationsDir && table == DefaultTable && rows == existing && ran == []
    {
      conn := c;
      dir := migrationsDir;
      table := DefaultTable;
      rows := existing;
      ran := [];
    }

    /** setTable(t): only the table name changes. */
    method SetTable(t: string)
      modifies this
      ensures table == t && rows == old(rows) && ran == old(ran)
    {
      table := t;
    }

    /** markApplied(id, checksum). */
    method MarkApplied(id: string, checksum: string)
      modifies this
      ensures rows == old(rows) + [LedgerRow(id, checksum)] && table == old(table) && ran == old(ran)
      ensures IsApplied(rows, id).Some?
    {
      rows := rows + [LedgerRow(id, checksum)];
      assert rows[|rows| - 1].id == id;
    }

    /** unmarkApplied(id). */
    method UnmarkApplied(id: string)
      modifies this
      ensures rows == Without(old(rows), id) && table == old(table) && ran == old(ran)
      ensures IsApplied(rows, id).None?
    {
      rows := Without(rows, id);
    }

    /**
     * applyAll(): the scanned pairs sorted by id, then each pending one applied in turn.
     * `upOk(p)` says whether running p's up script succeeds.
     */
    method ApplyAll(scanned: seq<MigrationPair>, upOk: MigrationPair -> bool) returns (r: Result<(), RunError>)
      modifies this
      ensures (LedgerState(rows, ran), r) == ApplyPending(SortById(scanned), old(LedgerState(rows, ran)), upOk)
      ensures table == old(table)
    {
      var pairs := SortById(scanned);
      var i := 0;
      while i < |pairs|
        invariant 0 <= i <= |pairs|
        invariant ApplyPending(pairs, old(LedgerState(rows, ran)), upOk) == ApplyPending(pairs[i..], LedgerState(rows, ran), upOk)
        invariant table == old(table)
      {
        var p := pairs[i];
        assert pairs[i..][0] == p && pairs[i..][1..] == pairs[i + 1..];
        if IsApplied(rows, p.id).None? {
          ran := ran + [Up(p.id)];
          if !upOk(p) {
            return Failure(ScriptFailed(p.id));
          }
          rows := rows + [LedgerRow(p.id, p.upChecksum)];
        }
        i := i + 1;
      }
      r := Success(());
    }

    /** rollback(steps): `downOk(p)` says whether running p's down script succeeds. */
    method Rollback(steps: int, scanned: seq<MigrationPair>, downOk: MigrationPair -> bool) returns (r: Result<(), RunError>)
      modifies this
      ensures (LedgerState(rows, ran), r) == RollbackSteps(steps, scanned, old(LedgerState(rows, ran)), downOk)
      ensures table == old(table)
    {
      ghost var goal := RollbackSteps(steps, scanned, LedgerState(rows, ran), downOk);
      var left := steps;
      while left > 0
        invariant goal == RollbackSteps(left, scanned, LedgerState(rows, ran), downOk)
        invariant table == old(table)
      {
        if |rows| == 0 {
          return Failure(NothingToRollback);
        }
        ghost var before := LedgerState(rows, ran);
        var step := RevertLast(scanned, downOk);
        RollbackStepsUnfold(left, scanned, before, downOk);
        if step.Failure? {
          return step;
        }
        left := left - 1;
      }
      r := Success(());
    }

    /** One iteration of rollback's loop: the down script of the greatest applied id, then unmarkApplied. */
    method RevertLast(scanned: seq<MigrationPair>, downOk: MigrationPair -> bool) returns (r: Result<(), RunError>)
      requires |rows| > 0
      modifies this
      ensures (LedgerState(rows, ran), r) == RollbackOne(scanned, old(LedgerState(rows, ran)), downOk)
      ensures table == old(table)
    {
      var id := LastId(rows);
      var p := FindPair(scanned, id);
      if p.None? || p.value.downPath == "" {
        return Failure(MissingDown(id));
      }
      ran := ran + [Down(id)];
      if !downOk(p.value) {
        return Failure(ScriptFailed(id));
      }
      UnmarkApplied(id);
      r := Success(());
    }
  }
}
