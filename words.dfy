/** Machine integer widths used by the Go and C++ sources. */
module Words {

  const TWO31: int := 0x8000_0000
  const TWO32: int := 0x1_0000_0000
  const TWO64: int := 0x1_0000_0000_0000_0000

  /** Go's int32 (and the lock words, which are 32-bit). */
  type int32 = x: int | -TWO31 <= x < TWO31

  /** Go's uint64. */
  type uint64 = x: int | 0 <= x < TWO64

  /** Two's-complement wrap-around of an int32 addition result. */
  function Wrap32(x: int): (r: int32)
    ensures r == x <==> -TWO31 <= x < TWO31
    ensures (r - x) % TWO32 == 0
  {
    (x + TWO31) % TWO32 - TWO31
  }

  /** Go's conversion uint64(x) of a signed integer: reinterpretation modulo 2^64. */
  function ToUint64(x: int32): (r: uint64)
    ensures 0 <= x ==> r == x
    ensures x < 0 ==> r == x + TWO64
  {
    x % TWO64
  }
}
