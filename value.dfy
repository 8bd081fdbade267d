/**
 * The tagged database value (include/vix/db/core/Value.hpp): a closed sum with exactly one
 * active alternative, and the helper constructors null/i64/f64/b/str/blob.
 */
module Value {
  import opened Ints

  type byte = x: int | 0 <= x < 256

  /** Floating point is not modelled: a double is kept as its opaque 64-bit pattern. */
  datatype Double = Double(bits: bv64)

  datatype Blob = Blob(bytes: seq<byte>)

  datatype DbValue =
    | Null
    | Bool(b: bool)
    | Int64(i: int64)
    | Float64(d: Double)
    | Text(s: string)
    | BlobValue(blob: Blob)

  /** The alternative a value holds; every consumer dispatches on exactly one of these six. */
  datatype Kind = KNull | KBool | KInt64 | KDouble | KText | KBlob

  function KindOf(v: DbValue): Kind {
    match v
    case Null => KNull
    case Bool(_) => KBool
    case Int64(_) => KInt64
    case Float64(_) => KDouble
    case Text(_) => KText
    case BlobValue(_) => KBlob
  }

  function MakeNull(): (v: DbValue)
    ensures KindOf(v) == KNull
  {
    Null
  }

  function I64(x: int64): (v: DbValue)
    ensures KindOf(v) == KInt64 && v.i == x
  {
    Int64(x)
  }

  function F64(x: Double): (v: DbValue)
    ensures KindOf(v) == KDouble && v.d == x
  {
    Float64(x)
  }

  function B(x: bool): (v: DbValue)
    ensures KindOf(v) == KBool && v.b == x
  {
    Bool(x)
  }

  function Str(x: string): (v: DbValue)
    ensures KindOf(v) == KText && v.s == x
  {
    Text(x)
  }

  function MakeBlob(bytes: seq<byte>): (v: DbValue)
    ensures KindOf(v) == KBlob && v.blob.bytes == bytes
  {
    BlobValue(Blob(bytes))
  }

  /** The helpers are injective, so a driver can always recover the argument from the value. */
  lemma HelpersInjective(x: int64, y: int64, s: string, t: string, p: seq<byte>, q: seq<byte>)
    ensures I64(x) == I64(y) <==> x == y
    ensures Str(s) == Str(t) <==> s == t
    ensures MakeBlob(p) == MakeBlob(q) <==> p == q
    ensures I64(x) != Str(s) && I64(x) != MakeNull() && Str(s) != MakeNull()
  {
  }
}
