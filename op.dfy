/**
 * Structural schema operations (include/vix/db/mig/diff/Op.hpp): a closed sum of six
 * alternatives. Table operations carry the whole Table; column and index operations carry the
 * table name and the whole Column or Index, so every operation can be reversed on its own.
 */
module Ops {
  import opened Schema

  datatype Op =
    | CreateTable(table: Table)
    | DropTable(table: Table)
    | AddColumn(tableName: string, column: Column)
    | DropColumn(tableName: string, column: Column)
    | CreateIndex(tableName: string, index: Index)
    | DropIndex(tableName: string, index: Index)

  /** The inverse operation, built from the data the operation itself carries. */
  function Inverse(op: Op): (r: Op)
    ensures op.CreateTable? <==> r.DropTable?
    ensures op.DropTable? <==> r.CreateTable?
    ensures op.AddColumn? <==> r.DropColumn?
    ensures op.DropColumn? <==> r.AddColumn?
    ensures op.CreateIndex? <==> r.DropIndex?
    ensures op.DropIndex? <==> r.CreateIndex?
  {
    match op
    case CreateTable(t) => DropTable(t)
    case DropTable(t) => CreateTable(t)
    case AddColumn(n, c) => DropColumn(n, c)
    case DropColumn(n, c) => AddColumn(n, c)
    case CreateIndex(n, i) => DropIndex(n, i)
    case DropIndex(n, i) => CreateIndex(n, i)
  }

  /** Reversing twice gives the operation back: no drop loses the data its inverse needs. */
  lemma InverseInvolutive(op: Op)
    ensures Inverse(Inverse(op)) == op
  {
  }
}
