/** Fixed-width C++ integer types, with the conversions the core performs between them written out. */
module Ints {

  const TWO_32: int := 0x1_0000_0000
  const TWO_63: int := 0x8000_0000_0000_0000
  const TWO_64: int := 0x1_0000_0000_0000_0000

  newtype uint32 = x: int | 0 <= x < 0x1_0000_0000
  newtype int32 = x: int | -0x8000_0000 <= x < 0x8000_0000
  newtype int64 = x: int | -0x8000_0000_0000_0000 <= x < 0x8000_0000_0000_0000
  newtype uint64 = x: int | 0 <= x < 0x1_0000_0000_0000_0000

  /** std::size_t on the 64-bit targets the library is built for. */
  type size_t = uint64

  /** static_cast<std::int64_t>(std::uint64_t): two's-complement reinterpretation. */
  function UInt64ToInt64(u: uint64): (r: int64)
    ensures u < TWO_63 as uint64 ==> r as int == u as int
    ensures u >= TWO_63 as uint64 ==> r as int == u as int - TWO_64 && r < 0
  {
    if (u as int) < TWO_63 then u as int as int64 else (u as int - TWO_64) as int64
  }

  /** static_cast<std::uint64_t>(std::int64_t), the inverse reinterpretation. */
  function Int64ToUInt64(i: int64): (r: uint64)
    ensures i >= 0 ==> r as int == i as int
    ensures i < 0 ==> r as int == i as int + TWO_64
  {
    if i >= 0 then i as int as uint64 else (i as int + TWO_64) as uint64
  }

  /** The uint64 -> int64 cast loses no information: it is a bijection. */
  lemma WrapRoundTrip(u: uint64, i: int64)
    ensures Int64ToUInt64(UInt64ToInt64(u)) == u
    ensures UInt64ToInt64(Int64ToUInt64(i)) == i
  {
  }

  /** static_cast<std::size_t>(int) for an int read from configuration: negative values wrap. */
  function IntToSize(v: int32): (r: size_t)
    ensures v >= 0 ==> r as int == v as int
    ensures v < 0 ==> r as int == v as int + TWO_64 && r as int >= TWO_64 - 0x8000_0000
  {
    if v >= 0 then v as int as size_t else (v as int + TWO_64) as size_t
  }
}
