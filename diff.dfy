/**
 * The schema diff engine (src/mig/diff/Diff.cpp). Tables are matched by name through a hash map
 * whose iteration order is unspecified; the model visits map keys in an arbitrary order (a `:|`
 * choice) and records the order it used in ghost out-parameters, so nothing below depends on it.
 * Within one table the order is fixed by the column and index vectors.
 */
module Diff {
  import opened Wrappers
  import opened Schema
  import opened Ops

  /** `order` lists every element of `s` exactly once. */
  predicate IsEnumeration(order: seq<string>, s: set<string>) {
    && (forall k :: 0 <= k < |order| ==> order[k] in s)
    && (forall x :: x in s ==> x in order)
    && (forall i, j :: 0 <= i < j < |order| ==> order[i] != order[j])
  }

  // ---------------------------------------------------------------------------------------
  // map_tables

  /** What map_tables builds: emplace never overwrites, so the first table of each name wins. */
  function FirstByName(ts: seq<Table>): map<string, Table>
  {
    if |ts| == 0 then map[]
    else
      var m := FirstByName(ts[..|ts| - 1]);
      var t := ts[|ts| - 1];
      if t.name in m then m else m[t.name := t]
  }

  /** Looking a name up in a sequence extended at the back. */
  lemma {:induction false} FindTableInSnoc(p: seq<Table>, t: Table, n: string)
    ensures FindTableIn(p + [t], n) == if FindTableIn(p, n).Some? then FindTableIn(p, n) else if t.name == n then Some(t) else None
  {
    if |p| > 0 {
      assert (p + [t])[1..] == p[1..] + [t];
      FindTableInSnoc(p[1..], t, n);
    }
  }

  lemma {:induction false} FirstByNameIsFindTable(ts: seq<Table>, n: string)
    ensures n in FirstByName(ts) <==> FindTableIn(ts, n).Some?
    ensures n in FirstByName(ts) ==> FirstByName(ts)[n] == FindTableIn(ts, n).value
  {
    if |ts| > 0 {
      var p := ts[..|ts| - 1];
      assert ts == p + [ts[|ts| - 1]];
      FirstByNameIsFindTable(p, n);
      FindTableInSnoc(p, ts[|ts| - 1], n);
    }
  }

  /** `m` maps each table name of `s` to the table findTable gives for it. */
  predicate Indexes(m: map<string, Table>, s: Schema) {
    m.Keys == TableNames(s) && forall n :: n in m ==> FindTable(s, n) == Some(m[n])
  }

  /** map_tables: every table name is a key, and each key maps to the first table of that name. */
  method MapTables(s: Schema) returns (m: map<string, Table>)
    ensures Indexes(m, s)
  {
    m := map[];
    var i := 0;
    while i < |s.tables|
      invariant 0 <= i <= |s.tables|
      invariant m == FirstByName(s.tables[..i])
    {
      var t := s.tables[i];
      assert s.tables[..i + 1][..i] == s.tables[..i];
      if t.name !in m {
        m := m[t.name := t];
      }
      i := i + 1;
    }
    assert s.tables[..i] == s.tables;
    forall n ensures n in m <==> n in TableNames(s)
      ensures n in m ==> FindTable(s, n) == Some(m[n])
    {
      FirstByNameIsFindTable(s.tables, n);
    }
  }

  // ---------------------------------------------------------------------------------------
  // The operations diff_or_throw emits, as specification functions

  /**
   * The columns of `cols`, in order, that have no column of the same name in `other`, as
   * DropColumn operations (drop) or AddColumn operations (not drop) on table `tname`.
   */
  function ColumnOps(tname: string, cols: seq<Column>, other: Table, drop: bool): seq<Op>
  {
    if |cols| == 0 then []
    else
      var c := cols[|cols| - 1];
      ColumnOps(tname, cols[..|cols| - 1], other, drop)
      + (if FindColumn(other, c.name).None? then [if drop then DropColumn(tname, c) else AddColumn(tname, c)] else [])
  }

  /** The same for indexes: DropIndex (drop) or CreateIndex (not drop). */
  function IndexOps(tname: string, idxs: seq<Index>, other: Table, drop: bool): seq<Op>
  {
    if |idxs| == 0 then []
    else
      var i := idxs[|idxs| - 1];
      IndexOps(tname, idxs[..|idxs| - 1], other, drop)
      + (if FindIndex(other, i.name).None? then [if drop then DropIndex(tname, i) else CreateIndex(tname, i)] else [])
  }

  /** Step 3 for one table present on both sides: column drops, column adds, index drops, index adds. */
  function TableDiff(name: string, oldT: Table, newT: Table): seq<Op> {
    ColumnOps(name, oldT.columns, newT, true)
    + ColumnOps(name, newT.columns, oldT, false)
    + IndexOps(name, oldT.indexes, newT, true)
    + IndexOps(name, newT.indexes, oldT, false)
  }

  /** What the second loop emits for one table name of `to`. */
  function TableStep(name: string, from: Schema, to: Schema): seq<Op>
    requires FindTable(to, name).Some?
  {
    match FindTable(from, name)
    case None => [CreateTable(FindTable(to, name).value)]
    case Some(oldT) => TableDiff(name, oldT, FindTable(to, name).value)
  }

  /** The second loop over the names of `to`, visited in the order `names`. */
  function ChangePhase(names: seq<string>, from: Schema, to: Schema): seq<Op>
    requires forall k :: 0 <= k < |names| ==> names[k] in TableNames(to)
  {
    if |names| == 0 then []
    else
      var n := names[|names| - 1];
      assert n in TableNames(to);
      ChangePhase(names[..|names| - 1], from, to) + TableStep(n, from, to)
  }

  lemma AppendAssoc(x: seq<Op>, y: seq<Op>, z: seq<Op>)
    ensures (x + y) + z == x + (y + z)
  {
  }

  lemma ChangePhaseSnoc(names: seq<string>, n: string, from: Schema, to: Schema)
    requires forall k :: 0 <= k < |names| ==> names[k] in TableNames(to)
    requires n in TableNames(to)
    ensures ChangePhase(names + [n], from, to) == ChangePhase(names, from, to) + TableStep(n, from, to)
  {
    assert (names + [n])[..|names|] == names;
  }

  /** The first loop: a DropTable carrying the full `from` table for each name in `names`. */
  function DropPhase(names: seq<string>, from: Schema): (r: seq<Op>)
    requires forall k :: 0 <= k < |names| ==> names[k] in TableNames(from)
    ensures |r| == |names|
    ensures forall k :: 0 <= k < |names| ==> FindTable(from, names[k]).Some? && r[k] == DropTable(FindTable(from, names[k]).value)
  {
    if |names| == 0 then []
    else
      var n := names[|names| - 1];
      assert n in TableNames(from);
      DropPhase(names[..|names| - 1], from) + [DropTable(FindTable(from, n).value)]
  }

  /** Extending an enumeration by one new element. */
  lemma EnumerationSnoc(order: seq<string>, s: set<string>, x: string)
    requires IsEnumeration(order, s) && x !in s
    ensures IsEnumeration(order + [x], s + {x})
  {
    var o := order + [x];
    forall y | y in s + {x} ensures y in o {
      if y != x {
        assert y in order;
        var k :| 0 <= k < |order| && order[k] == y;
        assert o[k] == y;
      } else {
        assert o[|order|] == x;
      }
    }
  }

  lemma DropPhaseSnoc(names: seq<string>, n: string, from: Schema)
    requires forall k :: 0 <= k < |names| ==> names[k] in TableNames(from)
    requires n in TableNames(from)
    ensures DropPhase(names + [n], from) == DropPhase(names, from) + [DropTable(FindTable(from, n).value)]
  {
    assert (names + [n])[..|names|] == names;
  }

  // ---------------------------------------------------------------------------------------
  // The imperative diff

  /** One column loop of step 3: appends the operation for each column of `cols` that `other` lacks. */
  method AppendColumnOps(tname: string, cols: seq<Column>, other: Table, drop: bool, ops: seq<Op>) returns (out: seq<Op>)
    ensures out == ops + ColumnOps(tname, cols, other, drop)
  {
    out := ops;
    var i := 0;
    while i < |cols|
      invariant 0 <= i <= |cols|
      invariant out == ops + ColumnOps(tname, cols[..i], other, drop)
    {
      var c := cols[i];
      assert cols[..i + 1][..i] == cols[..i];
      if FindColumn(other, c.name).None? {
        out := out + [if drop then DropColumn(tname, c) else AddColumn(tname, c)];
      }
      i := i + 1;
    }
    assert cols[..i] == cols;
  }

  /** One index loop of step 3: appends the operation for each index of `idxs` that `other` lacks. */
  method AppendIndexOps(tname: string, idxs: seq<Index>, other: Table, drop: bool, ops: seq<Op>) returns (out: seq<Op>)
    ensures out == ops + IndexOps(tname, idxs, other, drop)
  {
    out := ops;
    var i := 0;
    while i < |idxs|
      invariant 0 <= i <= |idxs|
      invariant out == ops + IndexOps(tname, idxs[..i], other, drop)
    {
      var x := idxs[i];
      assert idxs[..i + 1][..i] == idxs[..i];
      if FindIndex(other, x.name).None? {
        out := out + [if drop then DropIndex(tname, x) else CreateIndex(tname, x)];
      }
      i := i + 1;
    }
    assert idxs[..i] == idxs;
  }

  /** Step 3 for one shared table: the four loops in order, appending to `ops`. */
  method AppendTableDiff(name: string, oldT: Table, newT: Table, ops: seq<Op>) returns (out: seq<Op>)
    ensures out == ops + TableDiff(name, oldT, newT)
  {
    out := AppendColumnOps(name, oldT.columns, newT, true, ops);
    out := AppendColumnOps(name, newT.columns, oldT, false, out);
    out := AppendIndexOps(name, oldT.indexes, newT, true, out);
    out := AppendIndexOps(name, newT.indexes, oldT, false, out);
  }

  /** Step 1: one DropTable per name of `a` that `b` lacks, in the order the names are met. */
  method DropMissing(from: Schema, to: Schema, a: map<string, Table>, b: map<string, Table>)
    returns (ops: seq<Op>, ghost dropped: seq<string>)
    requires Indexes(a, from) && Indexes(b, to)
    ensures IsEnumeration(dropped, TableNames(from) - TableNames(to))
    ensures ops == DropPhase(dropped, from)
  {
    ops := [];
    var rest := a.Keys;
    dropped := [];
    while rest != {}
      invariant rest <= a.Keys
      invariant IsEnumeration(dropped, (a.Keys - rest) - b.Keys)
      invariant ops == DropPhase(dropped, from)
      decreases rest
    {
      var name :| name in rest;
      ghost var done := (a.Keys - rest) - b.Keys;
      RestStep(a.Keys, rest, b.Keys, name);
      rest := rest - {name};
      assert done <= TableNames(from);
      if name !in b {
        EnumerationSnoc(dropped, done, name);
        EnumerationWithin(dropped, done, TableNames(from));
        DropPhaseSnoc(dropped, name, from);
        ops := ops + [DropTable(a[name])];
        dropped := dropped + [name];
      }
    }
    assert a.Keys - {} - b.Keys == TableNames(from) - TableNames(to);
  }

  /** Taking one more name out of the pending set, as a set identity. */
  lemma RestStep(keys: set<string>, rest: set<string>, other: set<string>, name: string)
    requires name in rest && rest <= keys
    ensures name !in other ==> name !in (keys - rest) - other && (keys - (rest - {name})) - other == ((keys - rest) - other) + {name}
    ensures name in other ==> (keys - (rest - {name})) - other == (keys - rest) - other
    ensures name !in keys - rest
    ensures keys - (rest - {name}) == (keys - rest) + {name}
  {
  }

  /** The elements of an enumeration of a subset of `t` are in `t`. */
  lemma EnumerationWithin(order: seq<string>, s: set<string>, t: set<string>)
    requires IsEnumeration(order, s) && s <= t
    ensures forall k :: 0 <= k < |order| ==> order[k] in t
  {
  }


  /** Steps 2 and 3: for each name of `b`, a CreateTable or the table's column and index diff. */
  method CreateOrAlter(from: Schema, to: Schema, a: map<string, Table>, b: map<string, Table>, ops0: seq<Op>)
    returns (ops: seq<Op>, ghost visited: seq<string>)
    requires Indexes(a, from) && Indexes(b, to)
    ensures IsEnumeration(visited, TableNames(to))
    ensures ops == ops0 + ChangePhase(visited, from, to)
  {
    ops := ops0;
    var rest := b.Keys;
    visited := [];
    while rest != {}
      invariant rest <= b.Keys
      invariant IsEnumeration(visited, b.Keys - rest)
      invariant ops == ops0 + ChangePhase(visited, from, to)
      decreases rest
    {
      var name :| name in rest;
      EnumerationSnoc(visited, b.Keys - rest, name);
      assert (b.Keys - rest) + {name} == b.Keys - (rest - {name});
      rest := rest - {name};
      assert name in TableNames(to);
      ghost var before := ops;
      ghost var step := TableStep(name, from, to);
      if name !in a {
        assert step == [CreateTable(b[name])];
        ops := ops + [CreateTable(b[name])];
      } else {
        assert step == TableDiff(name, a[name], b[name]);
        ops := AppendTableDiff(name, a[name], b[name], ops);
      }
      ChangePhaseSnoc(visited, name, from, to);
      AppendAssoc(ops0, ChangePhase(visited, from, to), step);
      visited := visited + [name];
    }
  }

  /**
   * diff_or_throw. `dropped` is the order in which the first loop met the names it dropped and
   * `visited` the order in which the second loop met the names of `to`; both are arbitrary.
   * It never fails: the table of `from` is looked up only for names `from` has.
   */
  method DiffOrThrow(from: Schema, to: Schema) returns (ops: seq<Op>, ghost dropped: seq<string>, ghost visited: seq<string>)
    ensures Orders(dropped, visited, from, to)
    ensures ops == Diffed(dropped, visited, from, to)
    ensures forall t :: DropTable(t) in ops <==> FindTable(from, t.name) == Some(t) && FindTable(to, t.name).None?
    ensures forall t :: CreateTable(t) in ops <==> FindTable(to, t.name) == Some(t) && FindTable(from, t.name).None?
    ensures forall k :: 0 <= k < |ops| ==> (ops[k].DropTable? <==> k < |dropped|)
    ensures from == to ==> ops == []
  {
    var a := MapTables(from);
    var b := MapTables(to);
    ops, dropped := DropMissing(from, to, a, b);
    ops, visited := CreateOrAlter(from, to, a, b, ops);
    DropTablesExactly(dropped, visited, from, to);
    CreateTablesExactly(dropped, visited, from, to);
    DropsComeFirst(dropped, visited, from, to);
    if from == to {
      SelfDiffEmpty(dropped, visited, from);
    }
  }

  // ---------------------------------------------------------------------------------------
  // Properties of the emitted operations, for every visiting order

  /** Fixes the orders a run of DiffOrThrow may have used. */
  predicate Orders(dropped: seq<string>, visited: seq<string>, from: Schema, to: Schema) {
    IsEnumeration(dropped, TableNames(from) - TableNames(to)) && IsEnumeration(visited, TableNames(to))
  }

  function Diffed(dropped: seq<string>, visited: seq<string>, from: Schema, to: Schema): seq<Op>
    requires Orders(dropped, visited, from, to)
  {
    DropPhase(dropped, from) + ChangePhase(visited, from, to)
  }

  lemma {:induction false} ColumnOpsShape(tname: string, cols: seq<Column>, other: Table, drop: bool, op: Op)
    requires op in ColumnOps(tname, cols, other, drop)
    ensures (if drop then op.DropColumn? else op.AddColumn?) && op.tableName == tname
    ensures op.column in cols && FindColumn(other, op.column.name).None?
  {
    if |cols| > 0 {
      var p := cols[..|cols| - 1];
      if op in ColumnOps(tname, p, other, drop) {
        ColumnOpsShape(tname, p, other, drop, op);
        assert op.column in cols by { var k :| 0 <= k < |p| && p[k] == op.column; assert cols[k] == op.column; }
      }
    }
  }

  lemma {:induction false} ColumnOpsComplete(tname: string, cols: seq<Column>, other: Table, drop: bool, c: Column)
    requires c in cols && FindColumn(other, c.name).None?
    ensures (if drop then DropColumn(tname, c) else AddColumn(tname, c)) in ColumnOps(tname, cols, other, drop)
  {
    var p := cols[..|cols| - 1];
    if c != cols[|cols| - 1] {
      assert c in p by { var k :| 0 <= k < |cols| && cols[k] == c; assert k < |cols| - 1; assert p[k] == c; }
      ColumnOpsComplete(tname, p, other, drop, c);
    }
  }

  lemma {:induction false} IndexOpsShape(tname: string, idxs: seq<Index>, other: Table, drop: bool, op: Op)
    requires op in IndexOps(tname, idxs, other, drop)
    ensures (if drop then op.DropIndex? else op.CreateIndex?) && op.tableName == tname
    ensures op.index in idxs && FindIndex(other, op.index.name).None?
  {
    if |idxs| > 0 {
      var p := idxs[..|idxs| - 1];
      if op in IndexOps(tname, p, other, drop) {
        IndexOpsShape(tname, p, other, drop, op);
        assert op.index in idxs by { var k :| 0 <= k < |p| && p[k] == op.index; assert idxs[k] == op.index; }
      }
    }
  }

  lemma {:induction false} IndexOpsComplete(tname: string, idxs: seq<Index>, other: Table, drop: bool, x: Index)
    requires x in idxs && FindIndex(other, x.name).None?
    ensures (if drop then DropIndex(tname, x) else CreateIndex(tname, x)) in IndexOps(tname, idxs, other, drop)
  {
    var p := idxs[..|idxs| - 1];
    if x != idxs[|idxs| - 1] {
      assert x in p by { var k :| 0 <= k < |idxs| && idxs[k] == x; assert k < |idxs| - 1; assert p[k] == x; }
      IndexOpsComplete(tname, p, other, drop, x);
    }
  }

  /** Every operation of the second loop comes from the step of one visited name, and every such operation is emitted. */
  lemma ChangePhaseMember(names: seq<string>, from: Schema, to: Schema, op: Op)
    requires forall k :: 0 <= k < |names| ==> names[k] in TableNames(to)
    ensures op in ChangePhase(names, from, to) <==> exists k :: 0 <= k < |names| && op in TableStep(names[k], from, to)
  {
    var parts := Steps(names, from, to);
    ChangePhaseIsFlatten(names, from, to);
    FlattenMember(parts, op);
    if op in ChangePhase(names, from, to) {
      var k :| 0 <= k < |parts| && op in parts[k];
      assert op in TableStep(names[k], from, to);
    }
    if exists k :: 0 <= k < |names| && op in TableStep(names[k], from, to) {
      var k :| 0 <= k < |names| && op in TableStep(names[k], from, to);
      assert op in parts[k];
    }
  }

  /** The step of each visited name, in visiting order. */
  function Steps(names: seq<string>, from: Schema, to: Schema): (r: seq<seq<Op>>)
    requires forall k :: 0 <= k < |names| ==> names[k] in TableNames(to)
    ensures |r| == |names| && forall k :: 0 <= k < |names| ==> names[k] in TableNames(to) && r[k] == TableStep(names[k], from, to)
  {
    seq(|names|, k requires 0 <= k < |names| => assert names[k] in TableNames(to); TableStep(names[k], from, to))
  }

  function Flatten(parts: seq<seq<Op>>): seq<Op> {
    if |parts| == 0 then [] else Flatten(parts[..|parts| - 1]) + parts[|parts| - 1]
  }

  lemma {:induction false} FlattenMember(parts: seq<seq<Op>>, op: Op)
    ensures op in Flatten(parts) <==> exists k :: 0 <= k < |parts| && op in parts[k]
  {
    if |parts| > 0 {
      var p := parts[..|parts| - 1];
      FlattenMember(p, op);
      if op in Flatten(p) {
        var k :| 0 <= k < |p| && op in p[k];
        assert parts[k] == p[k];
      }
      if exists k :: 0 <= k < |parts| && op in parts[k] {
        var k :| 0 <= k < |parts| && op in parts[k];
        if k < |p| {
          assert p[k] == parts[k];
        }
      }
    }
  }

  lemma {:induction false} ChangePhaseIsFlatten(names: seq<string>, from: Schema, to: Schema)
    requires forall k :: 0 <= k < |names| ==> names[k] in TableNames(to)
    ensures ChangePhase(names, from, to) == Flatten(Steps(names, from, to))
  {
    if |names| > 0 {
      var p := names[..|names| - 1];
      ChangePhaseIsFlatten(p, from, to);
      var parts := Steps(names, from, to);
      assert parts[..|parts| - 1] == Steps(p, from, to);
    }
  }

  /** The operations of one table step. */
  lemma TableStepShape(name: string, from: Schema, to: Schema, op: Op)
    requires FindTable(to, name).Some?
    requires op in TableStep(name, from, to)
    ensures op.CreateTable? ==> FindTable(from, name).None? && op.table == FindTable(to, name).value
    ensures !op.DropTable?
    ensures !op.CreateTable? ==> FindTable(from, name).Some? && op.tableName == name
    ensures op.DropColumn? ==> op.column in FindTable(from, name).value.columns && FindColumn(FindTable(to, name).value, op.column.name).None?
    ensures op.AddColumn? ==> op.column in FindTable(to, name).value.columns && FindColumn(FindTable(from, name).value, op.column.name).None?
    ensures op.DropIndex? ==> op.index in FindTable(from, name).value.indexes && FindIndex(FindTable(to, name).value, op.index.name).None?
    ensures op.CreateIndex? ==> op.index in FindTable(to, name).value.indexes && FindIndex(FindTable(from, name).value, op.index.name).None?
  {
    if FindTable(from, name).Some? {
      var oldT, newT := FindTable(from, name).value, FindTable(to, name).value;
      if op in ColumnOps(name, oldT.columns, newT, true) {
        ColumnOpsShape(name, oldT.columns, newT, true, op);
      } else if op in ColumnOps(name, newT.columns, oldT, false) {
        ColumnOpsShape(name, newT.columns, oldT, false, op);
      } else if op in IndexOps(name, oldT.indexes, newT, true) {
        IndexOpsShape(name, oldT.indexes, newT, true, op);
      } else {
        IndexOpsShape(name, newT.indexes, oldT, false, op);
      }
    }
  }

  /** A DropTable is emitted exactly for the tables of `from` whose name `to` lacks, carrying the first table of that name. */
  lemma DropTablesExactly(dropped: seq<string>, visited: seq<string>, from: Schema, to: Schema)
    requires Orders(dropped, visited, from, to)
    ensures forall t :: DropTable(t) in Diffed(dropped, visited, from, to) <==> FindTable(from, t.name) == Some(t) && FindTable(to, t.name).None?
  {
    forall t ensures DropTable(t) in Diffed(dropped, visited, from, to) <==> FindTable(from, t.name) == Some(t) && FindTable(to, t.name).None? {
      ChangePhaseMember(visited, from, to, DropTable(t));
      if DropTable(t) in ChangePhase(visited, from, to) {
        var k :| 0 <= k < |visited| && DropTable(t) in TableStep(visited[k], from, to);
        TableStepShape(visited[k], from, to, DropTable(t));
      }
      if FindTable(from, t.name) == Some(t) && FindTable(to, t.name).None? {
        assert t.name in dropped;
        var k :| 0 <= k < |dropped| && dropped[k] == t.name;
        assert DropPhase(dropped, from)[k] == DropTable(t);
      }
    }
  }

  /** A CreateTable is emitted exactly for the tables of `to` whose name `from` lacks, carrying the first table of that name. */
  lemma CreateTablesExactly(dropped: seq<string>, visited: seq<string>, from: Schema, to: Schema)
    requires Orders(dropped, visited, from, to)
    ensures forall t :: CreateTable(t) in Diffed(dropped, visited, from, to) <==> FindTable(to, t.name) == Some(t) && FindTable(from, t.name).None?
  {
    forall t ensures CreateTable(t) in Diffed(dropped, visited, from, to) <==> FindTable(to, t.name) == Some(t) && FindTable(from, t.name).None? {
      ChangePhaseMember(visited, from, to, CreateTable(t));
      if CreateTable(t) in ChangePhase(visited, from, to) {
        var k :| 0 <= k < |visited| && CreateTable(t) in TableStep(visited[k], from, to);
        TableStepShape(visited[k], from, to, CreateTable(t));
      }
      if FindTable(to, t.name) == Some(t) && FindTable(from, t.name).None? {
        assert t.name in visited;
        var k :| 0 <= k < |visited| && visited[k] == t.name;
        assert CreateTable(t) in TableStep(visited[k], from, to);
      }
    }
  }

  /** Every DropTable precedes every other operation. */
  lemma DropsComeFirst(dropped: seq<string>, visited: seq<string>, from: Schema, to: Schema)
    requires Orders(dropped, visited, from, to)
    ensures var ops := Diffed(dropped, visited, from, to);
      forall k :: 0 <= k < |ops| ==> (ops[k].DropTable? <==> k < |dropped|)
  {
    var ops := Diffed(dropped, visited, from, to);
    forall k | |dropped| <= k < |ops| ensures !ops[k].DropTable? {
      var op := ops[k];
      assert op in ChangePhase(visited, from, to) by {
        assert op == ChangePhase(visited, from, to)[k - |dropped|];
      }
      ChangePhaseMember(visited, from, to, op);
      var j :| 0 <= j < |visited| && op in TableStep(visited[j], from, to);
      TableStepShape(visited[j], from, to, op);
    }
  }

  /** Column `c` belongs to table `n` of `src`, and table `n` of `dst` has no column of its name. */
  predicate ColumnOnlyIn(n: string, c: Column, src: Schema, dst: Schema) {
    && FindTable(src, n).Some? && FindTable(dst, n).Some?
    && c in FindTable(src, n).value.columns
    && FindColumn(FindTable(dst, n).value, c.name).None?
  }

  /** Index `x` belongs to table `n` of `src`, and table `n` of `dst` has no index of its name. */
  predicate IndexOnlyIn(n: string, x: Index, src: Schema, dst: Schema) {
    && FindTable(src, n).Some? && FindTable(dst, n).Some?
    && x in FindTable(src, n).value.indexes
    && FindIndex(FindTable(dst, n).value, x.name).None?
  }

  lemma DropPhaseOnlyDrops(names: seq<string>, from: Schema, op: Op)
    requires forall k :: 0 <= k < |names| ==> names[k] in TableNames(from)
    requires op in DropPhase(names, from)
    ensures op.DropTable?
  {
    var k :| 0 <= k < |names| && DropPhase(names, from)[k] == op;
  }

  /**
   * A column operation is emitted exactly for a column present on one side only of a table both
   * schemas have: DropColumn for a column only `from` has, AddColumn for one only `to` has. A
   * column present by name on both sides yields nothing, whatever its type or flags.
   */
  lemma ColumnOpsExactly(dropped: seq<string>, visited: seq<string>, from: Schema, to: Schema, n: string, c: Column)
    requires Orders(dropped, visited, from, to)
    ensures DropColumn(n, c) in Diffed(dropped, visited, from, to) <==> ColumnOnlyIn(n, c, from, to)
    ensures AddColumn(n, c) in Diffed(dropped, visited, from, to) <==> ColumnOnlyIn(n, c, to, from)
  {
    MemberOpExactly(dropped, visited, from, to, n, DropColumn(n, c));
    MemberOpExactly(dropped, visited, from, to, n, AddColumn(n, c));
  }

  /** The same for indexes: DropIndex for an index only `from` has, CreateIndex for one only `to` has. */
  lemma IndexOpsExactly(dropped: seq<string>, visited: seq<string>, from: Schema, to: Schema, n: string, x: Index)
    requires Orders(dropped, visited, from, to)
    ensures DropIndex(n, x) in Diffed(dropped, visited, from, to) <==> IndexOnlyIn(n, x, from, to)
    ensures CreateIndex(n, x) in Diffed(dropped, visited, from, to) <==> IndexOnlyIn(n, x, to, from)
  {
    MemberOpExactly(dropped, visited, from, to, n, DropIndex(n, x));
    MemberOpExactly(dropped, visited, from, to, n, CreateIndex(n, x));
  }

  lemma MemberOpExactly(dropped: seq<string>, visited: seq<string>, from: Schema, to: Schema, n: string, op: Op)
    requires Orders(dropped, visited, from, to)
    requires op.DropColumn? || op.AddColumn? || op.DropIndex? || op.CreateIndex?
    requires op.tableName == n
    ensures op.DropColumn? ==> (op in Diffed(dropped, visited, from, to) <==> ColumnOnlyIn(n, op.column, from, to))
    ensures op.AddColumn? ==> (op in Diffed(dropped, visited, from, to) <==> ColumnOnlyIn(n, op.column, to, from))
    ensures op.DropIndex? ==> (op in Diffed(dropped, visited, from, to) <==> IndexOnlyIn(n, op.index, from, to))
    ensures op.CreateIndex? ==> (op in Diffed(dropped, visited, from, to) <==> IndexOnlyIn(n, op.index, to, from))
  {
    var ops := Diffed(dropped, visited, from, to);
    ChangePhaseMember(visited, from, to, op);
    if op in ops {
      if op in DropPhase(dropped, from) {
        DropPhaseOnlyDrops(dropped, from, op);
      }
      var k :| 0 <= k < |visited| && op in TableStep(visited[k], from, to);
      TableStepShape(visited[k], from, to, op);
    }
    var shared := FindTable(from, n).Some? && FindTable(to, n).Some?;
    if shared {
      var oldT, newT := FindTable(from, n).value, FindTable(to, n).value;
      assert n in visited;
      var k :| 0 <= k < |visited| && visited[k] == n;
      assert TableStep(n, from, to) == TableDiff(n, oldT, newT);
      match op
      case DropColumn(_, c) =>
        if ColumnOnlyIn(n, c, from, to) { ColumnOpsComplete(n, oldT.columns, newT, true, c); }
      case AddColumn(_, c) =>
        if ColumnOnlyIn(n, c, to, from) { ColumnOpsComplete(n, newT.columns, oldT, false, c); }
      case DropIndex(_, x) =>
        if IndexOnlyIn(n, x, from, to) { IndexOpsComplete(n, oldT.indexes, newT, true, x); }
      case CreateIndex(_, x) =>
        if IndexOnlyIn(n, x, to, from) { IndexOpsComplete(n, newT.indexes, oldT, false, x); }
    }
  }

  /** The phase of an operation within one table: column drops, column adds, index drops, index adds. */
  function Rank(op: Op): nat {
    match op
    case DropColumn(_, _) => 0
    case AddColumn(_, _) => 1
    case DropIndex(_, _) => 2
    case CreateIndex(_, _) => 3
    case _ => 4
  }

  /** Within a shared table the operations come in the four phases, each in vector order. */
  lemma TableDiffPhased(name: string, oldT: Table, newT: Table)
    ensures var seg := TableDiff(name, oldT, newT);
      forall i, j :: 0 <= i < j < |seg| ==> Rank(seg[i]) <= Rank(seg[j])
  {
    var seg := TableDiff(name, oldT, newT);
    forall i, j | 0 <= i < j < |seg| ensures Rank(seg[i]) <= Rank(seg[j]) {
      TableDiffRankAt(name, oldT, newT, i);
      TableDiffRankAt(name, oldT, newT, j);
    }
  }

  /** The phase of the k-th operation of one table step is fixed by the lengths of the four loops' outputs. */
  lemma TableDiffRankAt(name: string, oldT: Table, newT: Table, k: nat)
    requires k < |TableDiff(name, oldT, newT)|
    ensures var n0 := |ColumnOps(name, oldT.columns, newT, true)|;
      var n1 := |ColumnOps(name, newT.columns, oldT, false)|;
      var n2 := |IndexOps(name, oldT.indexes, newT, true)|;
      Rank(TableDiff(name, oldT, newT)[k]) == if k < n0 then 0 else if k < n0 + n1 then 1 else if k < n0 + n1 + n2 then 2 else 3
  {
    var p0 := ColumnOps(name, oldT.columns, newT, true);
    var p1 := ColumnOps(name, newT.columns, oldT, false);
    var p2 := IndexOps(name, oldT.indexes, newT, true);
    var p3 := IndexOps(name, newT.indexes, oldT, false);
    var seg := TableDiff(name, oldT, newT);
    assert seg == p0 + p1 + p2 + p3;
    if k < |p0| {
      assert seg[k] == p0[k];
      ColumnOpsShape(name, oldT.columns, newT, true, seg[k]);
    } else if k < |p0| + |p1| {
      assert seg[k] == p1[k - |p0|];
      ColumnOpsShape(name, newT.columns, oldT, false, seg[k]);
    } else if k < |p0| + |p1| + |p2| {
      assert seg[k] == p2[k - |p0| - |p1|];
      IndexOpsShape(name, oldT.indexes, newT, true, seg[k]);
    } else {
      assert seg[k] == p3[k - |p0| - |p1| - |p2|];
      IndexOpsShape(name, newT.indexes, oldT, false, seg[k]);
    }
  }

  lemma {:induction false} ColumnOpsOfSubset(tname: string, cols: seq<Column>, other: Table, drop: bool)
    requires forall c :: c in cols ==> c in other.columns
    ensures ColumnOps(tname, cols, other, drop) == []
  {
    if |cols| > 0 {
      var p := cols[..|cols| - 1];
      forall c | c in p ensures c in other.columns { var k :| 0 <= k < |p| && p[k] == c; assert cols[k] == c; }
      ColumnOpsOfSubset(tname, p, other, drop);
      assert FindColumn(other, cols[|cols| - 1].name).Some?;
    }
  }

  lemma {:induction false} IndexOpsOfSubset(tname: string, idxs: seq<Index>, other: Table, drop: bool)
    requires forall x :: x in idxs ==> x in other.indexes
    ensures IndexOps(tname, idxs, other, drop) == []
  {
    if |idxs| > 0 {
      var p := idxs[..|idxs| - 1];
      forall x | x in p ensures x in other.indexes { var k :| 0 <= k < |p| && p[k] == x; assert idxs[k] == x; }
      IndexOpsOfSubset(tname, p, other, drop);
      assert FindIndex(other, idxs[|idxs| - 1].name).Some?;
    }
  }

  lemma {:induction false} ChangePhaseSelf(names: seq<string>, s: Schema)
    requires forall k :: 0 <= k < |names| ==> names[k] in TableNames(s)
    ensures ChangePhase(names, s, s) == []
  {
    if |names| > 0 {
      ChangePhaseSelf(names[..|names| - 1], s);
      var t := FindTable(s, names[|names| - 1]).value;
      ColumnOpsOfSubset(t.name, t.columns, t, true);
      ColumnOpsOfSubset(t.name, t.columns, t, false);
      IndexOpsOfSubset(t.name, t.indexes, t, true);
      IndexOpsOfSubset(t.name, t.indexes, t, false);
    }
  }

  /** diff(s, s) is empty, whatever order the hash maps are visited in. */
  lemma SelfDiffEmpty(dropped: seq<string>, visited: seq<string>, s: Schema)
    requires Orders(dropped, visited, s, s)
    ensures Diffed(dropped, visited, s, s) == []
  {
    EnumerationSize(dropped, TableNames(s) - TableNames(s));
    assert TableNames(s) - TableNames(s) == {};
    ChangePhaseSelf(visited, s);
  }

  lemma {:induction false} ChangePhaseFromEmpty(names: seq<string>, to: Schema)
    requires forall k :: 0 <= k < |names| ==> names[k] in TableNames(to)
    ensures var ops := ChangePhase(names, EmptySchema(), to);
      |ops| == |names| && forall k :: 0 <= k < |names| ==> ops[k] == CreateTable(FindTable(to, names[k]).value)
  {
    if |names| > 0 {
      var p := names[..|names| - 1];
      var n := names[|names| - 1];
      ChangePhaseFromEmpty(p, to);
      assert FindTable(EmptySchema(), n).None?;
      assert ChangePhase(names, EmptySchema(), to) == ChangePhase(p, EmptySchema(), to) + [CreateTable(FindTable(to, n).value)];
      assert forall k :: 0 <= k < |p| ==> p[k] == names[k];
    }
  }

  /**
   * From the empty schema the diff is one CreateTable per distinct table name of `to`, in
   * visiting order, each creating the first table of that name, and nothing else.
   */
  lemma DiffFromEmpty(dropped: seq<string>, visited: seq<string>, to: Schema)
    requires Orders(dropped, visited, EmptySchema(), to)
    ensures var ops := Diffed(dropped, visited, EmptySchema(), to);
      && |ops| == |TableNames(to)| && (forall k :: 0 <= k < |ops| ==> ops[k].CreateTable? && ops[k].table in to.tables)
      && |ops| == |visited| && (forall k :: 0 <= k < |ops| ==> ops[k] == CreateTable(FindTable(to, visited[k]).value))
      && (forall k, l :: 0 <= k < l < |ops| ==> ops[k].table.name != ops[l].table.name)
  {
    NothingDroppedFromEmpty(dropped, to);
    assert DropPhase(dropped, EmptySchema()) == [];
    CreatesFromEmpty(visited, to);
    ChangePhaseFromEmpty(visited, to);
    EnumerationSize(visited, TableNames(to));
    assert Diffed(dropped, visited, EmptySchema(), to) == ChangePhase(visited, EmptySchema(), to);
  }

  lemma NothingDroppedFromEmpty(dropped: seq<string>, to: Schema)
    requires IsEnumeration(dropped, TableNames(EmptySchema()) - TableNames(to))
    ensures dropped == []
  {
    assert TableNames(EmptySchema()) == {};
    EnumerationSize(dropped, TableNames(EmptySchema()) - TableNames(to));
  }

  lemma CreatesFromEmpty(visited: seq<string>, to: Schema)
    requires IsEnumeration(visited, TableNames(to))
    ensures var ops := ChangePhase(visited, EmptySchema(), to);
      |ops| == |TableNames(to)| && forall k :: 0 <= k < |ops| ==> ops[k].CreateTable? && ops[k].table in to.tables
  {
    ChangePhaseFromEmpty(visited, to);
    EnumerationSize(visited, TableNames(to));
    var ops := ChangePhase(visited, EmptySchema(), to);
    forall k | 0 <= k < |ops| ensures ops[k].CreateTable? && ops[k].table in to.tables {
      assert ops[k] == CreateTable(FindTable(to, visited[k]).value);
    }
  }

  lemma {:induction false} EnumerationSize(order: seq<string>, s: set<string>)
    requires IsEnumeration(order, s)
    ensures |order| == |s|
  {
    if |order| > 0 {
      var x := order[|order| - 1];
      var p := order[..|order| - 1];
      assert IsEnumeration(p, s - {x}) by {
        forall y | y in s - {x} ensures y in p {
          var k :| 0 <= k < |order| && order[k] == y;
          assert k < |order| - 1;
          assert p[k] == y;
        }
      }
      EnumerationSize(p, s - {x});
    } else {
      assert forall x :: x !in s;
      assert s == {};
    }
  }
}
