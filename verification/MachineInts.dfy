/** Go's 64-bit integers: the ranges, and the wrap-around of their conversions. */
module MachineInts {

  const TWO_63: int := 0x8000_0000_0000_0000
  const TWO_64: int := 0x1_0000_0000_0000_0000
  const MAX_INT64: int := TWO_63 - 1
  const MIN_INT64: int := -TWO_63

  type uint64 = x: int | 0 <= x < TWO_64
  type int64 = x: int | MIN_INT64 <= x <= MAX_INT64

  /** The value of unsigned arithmetic whose exact result is x. */
  function WrapUint64(x: int): uint64 { x % TWO_64 }

  /** The conversion int64(u) of an unsigned value. */
  function ToInt64(u: uint64): int64 { if u < TWO_63 then u else u - TWO_64 }

  /** The value of signed arithmetic whose exact result is x. */
  function WrapInt64(x: int): int64 { ToInt64(WrapUint64(x)) }

  /** Go's division by a positive constant: it truncates toward zero. */
  function TruncDiv(x: int, d: int): int
    requires d > 0
  {
    if x >= 0 then x / d else -((-x) / d)
  }

  /** Go's remainder for a positive divisor: it has the sign of the dividend. */
  function TruncMod(x: int, d: int): int
    requires d > 0
  {
    if x >= 0 then x % d else -((-x) % d)
  }

  /** Each conversion keeps the value modulo 2^64; with the ranges of the types that fixes it. */
  lemma ConversionsKeepResidue(x: int, u: uint64)
    ensures WrapUint64(x) == x % 0x1_0000_0000_0000_0000
    ensures ToInt64(u) % 0x1_0000_0000_0000_0000 == u
    ensures WrapInt64(x) % 0x1_0000_0000_0000_0000 == x % 0x1_0000_0000_0000_0000
    ensures MAX_INT64 == 0x7FFF_FFFF_FFFF_FFFF && MIN_INT64 == -0x8000_0000_0000_0000
  {
  }

  lemma WrapIsIdentityInRange(x: int)
    ensures MIN_INT64 <= x <= MAX_INT64 ==> WrapInt64(x) == x
    ensures 0 <= x < TWO_64 ==> WrapUint64(x) == x
  {
  }
}
