/** Column type descriptors (include/vix/db/schema/Types.hpp). */
module SchemaTypes {
  import opened Ints
  import opened Wrappers

  datatype Dialect = MySQL | SQLite

  /** Exactly seven base kinds. */
  datatype BaseType = Int | BigInt | Double | Bool | VarChar | Text | DateTime

  /** A base kind plus the optional size parameter of sized types (VARCHAR(n)). */
  datatype Type = Type(base: BaseType, size: Option<uint32>)

  /** A raw SQL default literal such as "0", "'text'" or "CURRENT_TIMESTAMP". */
  datatype DefaultValue = DefaultValue(sqlLiteral: string)

  /** The seven unsized factories Type::Int() ... Type::DateTime(). */
  function Unsized(b: BaseType): (t: Type)
    ensures t.base == b && t.size.None?
  {
    Type(b, None)
  }

  function IntType(): Type { Unsized(Int) }
  function BigIntType(): Type { Unsized(BigInt) }
  function DoubleType(): Type { Unsized(Double) }
  function BoolType(): Type { Unsized(Bool) }
  function TextType(): Type { Unsized(Text) }
  function DateTimeType(): Type { Unsized(DateTime) }

  /** Type::VarChar(n). */
  function VarCharType(n: uint32): (t: Type)
    ensures t.base == VarChar && t.size == Some(n)
  {
    Type(VarChar, Some(n))
  }

  /** operator==: base and size both equal. */
  predicate TypeEq(a: Type, b: Type) {
    a.base == b.base && a.size == b.size
  }

  /** operator!=: the negation of operator==. */
  predicate TypeNeq(a: Type, b: Type) {
    !TypeEq(a, b)
  }

  /** The source's equality is exactly value equality of the descriptor, and != is its negation. */
  lemma TypeEqIsEquality(a: Type, b: Type)
    ensures TypeEq(a, b) <==> a == b
    ensures TypeNeq(a, b) <==> a != b
  {
  }

  /** The factories are pairwise distinct, and VarChar(n) equals VarChar(m) only when n == m. */
  lemma FactoriesDistinct(n: uint32, m: uint32)
    ensures TypeNeq(IntType(), BigIntType()) && TypeNeq(TextType(), VarCharType(n))
    ensures TypeNeq(DoubleType(), BoolType()) && TypeNeq(DateTimeType(), TextType())
    ensures TypeEq(VarCharType(n), VarCharType(m)) <==> n == m
    ensures forall b :: b != VarChar ==> TypeNeq(Unsized(b), VarCharType(n))
  {
  }
}
