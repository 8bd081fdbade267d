/**
 * The statement and connection contract (include/vix/db/core/Drivers.hpp). The driver's own
 * bind(idx, DbValue) is abstract; the convenience overloads are value conversions that forward
 * to it with the index unchanged. A Statement here records the calls its abstract bind receives.
 */
module Drivers {
  import opened Ints
  import opened Wrappers
  import opened Value

  /** bind(idx, int): widened to int64, same numeric value. */
  function IntArg(v: int32): (r: DbValue)
    ensures r.Int64? && r.i as int == v as int
  {
    I64(v as int as int64)
  }

  /** bind(idx, unsigned): widened to int64, same numeric value. */
  function UnsignedArg(v: uint32): (r: DbValue)
    ensures r.Int64? && r.i as int == v as int
  {
    I64(v as int as int64)
  }

  /** bind(idx, int64). */
  function Int64Arg(v: int64): (r: DbValue)
    ensures r.Int64? && r.i == v
  {
    I64(v)
  }

  /** bind(idx, uint64): static_cast<int64>, so values of 2^63 and above arrive negative. */
  function UInt64Arg(v: uint64): (r: DbValue)
    ensures r.Int64?
    ensures (v as int) < TWO_63 ==> r.i as int == v as int
    ensures (v as int) >= TWO_63 ==> r.i < 0 && r.i as int == v as int - TWO_64
  {
    I64(UInt64ToInt64(v))
  }

  /** The wrap loses nothing: distinct uint64 arguments bind distinct values. */
  lemma {:induction false} UInt64ArgInjective(v: uint64, w: uint64)
    requires UInt64Arg(v) == UInt64Arg(w)
    ensures v == w
  {
    WrapRoundTrip(v, 0);
    WrapRoundTrip(w, 0);
  }

  function DoubleArg(v: Double): (r: DbValue)
    ensures r.Float64? && r.d == v
  {
    F64(v)
  }

  function BoolArg(v: bool): (r: DbValue)
    ensures r.Bool? && r.b == v
  {
    B(v)
  }

  function StringArg(v: string): (r: DbValue)
    ensures r.Text? && r.s == v
  {
    Str(v)
  }

  /** bind(idx, const char*): a null pointer binds the empty text, never NULL. */
  function CStringArg(p: Option<string>): (r: DbValue)
    ensures r.Text?
    ensures p.None? ==> r.s == ""
    ensures p.Some? ==> r.s == p.value
  {
    Str(if p.Some? then p.value else "")
  }

  /** A driver connection, known by its identity; the driver behind it is not modelled. */
  datatype Conn = Conn(id: nat)

  /** The default Connection::ping: a driver that does not override it always reports alive. */
  function DefaultPing<C>(c: C): (alive: bool)
    ensures alive
  {
    true
  }

  /** A prepared statement; `bound` is the sequence of calls its abstract bind has received. */
  class Statement {
    var bound: seq<(size_t, DbValue)>

    constructor ()
      ensures bound == []
    {
      bound := [];
    }

    /** The driver-implemented bind(idx, const DbValue&). */
    method Bind(idx: size_t, v: DbValue)
      modifies this
      ensures bound == old(bound) + [(idx, v)]
    {
      bound := bound + [(idx, v)];
    }

    method BindInt64(idx: size_t, v: int64)
      modifies this
      ensures bound == old(bound) + [(idx, Int64Arg(v))]
    {
      Bind(idx, I64(v));
    }

    method BindInt(idx: size_t, v: int32)
      modifies this
      ensures bound == old(bound) + [(idx, IntArg(v))]
    {
      BindInt64(idx, v as int as int64);
    }

    method BindUnsigned(idx: size_t, v: uint32)
      modifies this
      ensures bound == old(bound) + [(idx, UnsignedArg(v))]
    {
      BindInt64(idx, v as int as int64);
    }

    method BindUInt64(idx: size_t, v: uint64)
      modifies this
      ensures bound == old(bound) + [(idx, UInt64Arg(v))]
    {
      BindInt64(idx, UInt64ToInt64(v));
    }

    method BindDouble(idx: size_t, v: Double)
      modifies this
      ensures bound == old(bound) + [(idx, DoubleArg(v))]
    {
      Bind(idx, F64(v));
    }

    method BindBool(idx: size_t, v: bool)
      modifies this
      ensures bound == old(bound) + [(idx, BoolArg(v))]
    {
      Bind(idx, B(v));
    }

    method BindString(idx: size_t, v: string)
      modifies this
      ensures bound == old(bound) + [(idx, StringArg(v))]
    {
      Bind(idx, Str(v));
    }

    method BindCString(idx: size_t, p: Option<string>)
      modifies this
      ensures bound == old(bound) + [(idx, CStringArg(p))]
    {
      Bind(idx, Str(if p.Some? then p.value else ""));
    }

    method BindNull(idx: size_t)
      modifies this
      ensures bound == old(bound) + [(idx, Null)]
    {
      Bind(idx, MakeNull());
    }
  }
}
