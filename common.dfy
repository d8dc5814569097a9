/** Fixed-width C integers as bounded mathematical integers, with the
    conversions the firmware relies on written out. */
module Common {

  const U32Limit: int := 0x1_0000_0000
  const U64Limit: int := 0x1_0000_0000_0000_0000
  const I64Limit: int := 0x8000_0000_0000_0000

  /** `uint32_t` */
  type U32 = x: int | 0 <= x < 0x1_0000_0000
  /** `uint64_t`; the Pico's `absolute_time_t` counts microseconds since boot in one. */
  type U64 = x: int | 0 <= x < 0x1_0000_0000_0000_0000

  datatype Option<+T> = None | Some(value: T)

  /** Conversion of any integer to `uint32_t`: reduction modulo 2^32. */
  function ToU32(x: int): (r: U32)
    ensures (x - r) % U32Limit == 0
    ensures 0 <= x < U32Limit ==> r == x
  {
    x % U32Limit
  }

  /** `a - b` on `uint32_t`: wraps around below zero. */
  function SubU32(a: U32, b: U32): (r: U32)
    ensures (b + r) % U32Limit == a
    ensures b <= a ==> r == a - b
  {
    if b <= a then a - b else a - b + U32Limit
  }

  /** Reinterpretation of a `uint64_t` bit pattern as `int64_t` (two's complement). */
  function ToI64(x: U64): (r: int)
    ensures -I64Limit <= r < I64Limit
    ensures r == x || r == x - U64Limit
    ensures x < I64Limit ==> r == x
  {
    if x < I64Limit then x else x - U64Limit
  }
}
