/**
 * Schema value objects (include/vix/db/schema/Schema.hpp): a Schema owns ordered Tables, a Table
 * owns ordered Columns and Indexes. Lookups are by name and return the first match.
 */
module Schema {
  import opened Wrappers
  import opened SchemaTypes

  datatype Column = Column(
    name: string,
    typ: Type,
    nullable: bool,
    primaryKey: bool,
    autoIncrement: bool,
    unique: bool,
    def: Option<DefaultValue>)

  datatype Index = Index(name: string, columns: seq<string>, unique: bool)

  datatype Table = Table(name: string, columns: seq<Column>, indexes: seq<Index>)

  datatype Schema = Schema(tables: seq<Table>)

  /** A Column with its default member initialisers. */
  function DefaultColumn(name: string, typ: Type): (c: Column)
    ensures c.name == name && c.typ == typ
    ensures c.nullable && !c.primaryKey && !c.autoIncrement && !c.unique && c.def.None?
  {
    Column(name, typ, true, false, false, false, None)
  }

  /** An Index with its default member initialiser: non-unique. */
  function DefaultIndex(name: string, columns: seq<string>): (i: Index)
    ensures i.name == name && i.columns == columns && !i.unique
  {
    Index(name, columns, false)
  }

  function EmptySchema(): (s: Schema)
    ensures |s.tables| == 0
  {
    Schema([])
  }

  /**
   * The position the non-const Table::findColumn points at: the first column named n, or None.
   */
  function FindColumnAt(cols: seq<Column>, n: string): (r: Option<nat>)
    ensures r.Some? ==> r.value < |cols| && cols[r.value].name == n
    ensures r.Some? ==> forall j :: 0 <= j < r.value ==> cols[j].name != n
    ensures r.None? <==> forall j :: 0 <= j < |cols| ==> cols[j].name != n
  {
    if |cols| == 0 then None
    else if cols[0].name == n then Some(0)
    else match FindColumnAt(cols[1..], n)
      case None => None
      case Some(k) => Some(k + 1)
  }

  /** The const Table::findColumn: its own range-for, returning the first column named n, or None. */
  function FindColumnIn(cols: seq<Column>, n: string): (r: Option<Column>)
    ensures r.None? <==> forall c :: c in cols ==> c.name != n
    ensures r.Some? ==> r.value in cols && r.value.name == n
  {
    if |cols| == 0 then None
    else if cols[0].name == n then Some(cols[0])
    else
      FindColumnIn(cols[1..], n)
  }

  /** FindColumnIn returns the first column named n. */
  lemma {:induction false} FindColumnInFirst(cols: seq<Column>, n: string, k: nat)
    requires k < |cols| && cols[k].name == n
    requires forall j :: 0 <= j < k ==> cols[j].name != n
    ensures FindColumnIn(cols, n) == Some(cols[k])
  {
    if k > 0 {
      FindColumnInFirst(cols[1..], n, k - 1);
    }
  }

  function FindColumn(t: Table, n: string): (r: Option<Column>)
    ensures r.Some? ==> r.value in t.columns && r.value.name == n
    ensures r.None? <==> forall c :: c in t.columns ==> c.name != n
  {
    FindColumnIn(t.columns, n)
  }

  /** Table::findIndex (const only): the first index named n, or None. */
  function FindIndexIn(idx: seq<Index>, n: string): (r: Option<Index>)
    ensures r.None? <==> forall i :: i in idx ==> i.name != n
    ensures r.Some? ==> r.value in idx && r.value.name == n
  {
    if |idx| == 0 then None
    else if idx[0].name == n then Some(idx[0])
    else
      FindIndexIn(idx[1..], n)
  }

  /** FindIndexIn returns the first index named n. */
  lemma {:induction false} FindIndexInFirst(idx: seq<Index>, n: string, k: nat)
    requires k < |idx| && idx[k].name == n
    requires forall j :: 0 <= j < k ==> idx[j].name != n
    ensures FindIndexIn(idx, n) == Some(idx[k])
  {
    if k > 0 {
      FindIndexInFirst(idx[1..], n, k - 1);
    }
  }

  function FindIndex(t: Table, n: string): (r: Option<Index>)
    ensures r.Some? ==> r.value in t.indexes && r.value.name == n
    ensures r.None? <==> forall i :: i in t.indexes ==> i.name != n
  {
    FindIndexIn(t.indexes, n)
  }

  /** The position the non-const Schema::findTable points at. */
  function FindTableAt(ts: seq<Table>, n: string): (r: Option<nat>)
    ensures r.Some? ==> r.value < |ts| && ts[r.value].name == n
    ensures r.Some? ==> forall j :: 0 <= j < r.value ==> ts[j].name != n
    ensures r.None? <==> forall j :: 0 <= j < |ts| ==> ts[j].name != n
  {
    if |ts| == 0 then None
    else if ts[0].name == n then Some(0)
    else match FindTableAt(ts[1..], n)
      case None => None
      case Some(k) => Some(k + 1)
  }

  /** The const Schema::findTable: its own range-for, returning the first table named n, or None. */
  function FindTableIn(ts: seq<Table>, n: string): (r: Option<Table>)
    ensures r.None? <==> forall t :: t in ts ==> t.name != n
    ensures r.Some? ==> r.value in ts && r.value.name == n
  {
    if |ts| == 0 then None
    else if ts[0].name == n then Some(ts[0])
    else
      FindTableIn(ts[1..], n)
  }

  /** FindTableIn returns the first table named n. */
  lemma {:induction false} FindTableInFirst(ts: seq<Table>, n: string, k: nat)
    requires k < |ts| && ts[k].name == n
    requires forall j :: 0 <= j < k ==> ts[j].name != n
    ensures FindTableIn(ts, n) == Some(ts[k])
  {
    if k > 0 {
      FindTableInFirst(ts[1..], n, k - 1);
    }
  }

  function FindTable(s: Schema, n: string): (r: Option<Table>)
    ensures r.Some? ==> r.value in s.tables && r.value.name == n
    ensures r.None? <==> forall t :: t in s.tables ==> t.name != n
  {
    FindTableIn(s.tables, n)
  }

  /** The names of the tables of a schema. */
  function TableNames(s: Schema): (names: set<string>)
    ensures forall n :: n in names <==> FindTable(s, n).Some?
  {
    set t | t in s.tables :: t.name
  }

  /** The const and the mutable findColumn designate the same element. */
  lemma {:induction false} ColumnLookupsAgree(cols: seq<Column>, n: string)
    ensures FindColumnIn(cols, n) == (match FindColumnAt(cols, n) case None => None case Some(k) => Some(cols[k]))
  {
    if |cols| > 0 && cols[0].name != n {
      ColumnLookupsAgree(cols[1..], n);
    }
  }

  /** The const and the mutable findTable designate the same element. */
  lemma {:induction false} TableLookupsAgree(ts: seq<Table>, n: string)
    ensures FindTableIn(ts, n) == (match FindTableAt(ts, n) case None => None case Some(k) => Some(ts[k]))
  {
    if |ts| > 0 && ts[0].name != n {
      TableLookupsAgree(ts[1..], n);
    }
  }
}
