/**
 * Result rows and the forward-only result set (include/vix/db/core/Result.hpp). Column access
 * (isNull, getString, getInt64, getDouble) is driver-defined, so a row is modelled by those four
 * accessors; the getXxxOr helpers are the library's own logic on top of them.
 */
module ResultRows {
  import opened Ints
  import opened Value

  /** One row, seen through the driver's accessors; column indices are zero-based. */
  datatype Row = Row(
    isNull: size_t -> bool,
    getString: size_t -> string,
    getInt64: size_t -> int64,
    getDouble: size_t -> Double)

  /** getStringOr(i, def = {}): NULL selects the default, anything else is converted by the driver. */
  function GetStringOr(row: Row, i: size_t, def: string := ""): (r: string)
    ensures row.isNull(i) ==> r == def
    ensures !row.isNull(i) ==> r == row.getString(i)
  {
    if row.isNull(i) then def else row.getString(i)
  }

  /** getInt64Or(i, def = 0). */
  function GetInt64Or(row: Row, i: size_t, def: int64 := 0): (r: int64)
    ensures row.isNull(i) ==> r == def
    ensures !row.isNull(i) ==> r == row.getInt64(i)
  {
    if row.isNull(i) then def else row.getInt64(i)
  }

  /** getDoubleOr(i, def = 0.0); the double is opaque, so the zero default is the all-zero pattern. */
  function GetDoubleOr(row: Row, i: size_t, def: Double := Double(0)): (r: Double)
    ensures row.isNull(i) ==> r == def
    ensures !row.isNull(i) ==> r == row.getDouble(i)
  {
    if row.isNull(i) then def else row.getDouble(i)
  }

  /** The default only matters on NULL: on a non-NULL column two calls with different defaults agree. */
  lemma DefaultOnlyOnNull(row: Row, i: size_t, d1: int64, d2: int64)
    requires GetInt64Or(row, i, d1) != GetInt64Or(row, i, d2)
    ensures row.isNull(i) && d1 != d2
  {
  }

  /**
   * A reference cursor over the rows a driver produced. `advanced` counts the calls to next();
   * the current row is rows[advanced - 1], and it exists only after a next() that returned true.
   */
  class ResultSet {
    const rows: seq<Row>
    const columns: size_t
    var advanced: nat

    ghost predicate Valid()
      reads this
    {
      advanced <= |rows| + 1
    }

    predicate HasRow()
      reads this
    {
      1 <= advanced <= |rows|
    }

    constructor (rs: seq<Row>, cols: size_t)
      ensures Valid() && rows == rs && columns == cols && advanced == 0 && !HasRow()
    {
      rows, columns, advanced := rs, cols, 0;
    }

    /** next(): true iff a new row became current; once past the end the cursor stays there. */
    method Next() returns (more: bool)
      requires Valid()
      modifies this
      ensures Valid()
      ensures advanced == if old(advanced) <= |rows| then old(advanced) + 1 else old(advanced)
      ensures more <==> HasRow()
    {
      if advanced <= |rows| {
        advanced := advanced + 1;
      }
      more := advanced <= |rows|;
    }

    /** cols(). */
    method Cols() returns (n: size_t)
      ensures n == columns
    {
      n := columns;
    }

    /** row(): only after a successful next(). */
    method CurrentRow() returns (r: Row)
      requires HasRow()
      ensures r == rows[advanced - 1]
    {
      r := rows[advanced - 1];
    }
  }

  /** Reading a fresh result set to its end visits every row exactly once, in order. */
  method ReadAll(rs: ResultSet) returns (seen: seq<Row>)
    requires rs.Valid() && rs.advanced == 0
    modifies rs
    ensures seen == rs.rows
  {
    seen := [];
    var more := rs.Next();
    while more
      invariant rs.Valid()
      invariant more <==> rs.HasRow()
      invariant 1 <= rs.advanced
      invariant seen == rs.rows[..rs.advanced - 1]
      decreases |rs.rows| + 1 - rs.advanced
    {
      var r := rs.CurrentRow();
      seen := seen + [r];
      more := rs.Next();
    }
  }
}
