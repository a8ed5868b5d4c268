/** Fixed-width C integer types and the conversions the firmware relies on.
    Values are mathematical integers restricted to the range of the C type;
    every wrap-around is written out explicitly. */
module Fixed {

  const U8: int := 0x100
  const U32: int := 0x1_0000_0000

  /** `uint8_t` */
  type uint8 = x: int | 0 <= x < 0x100

  /** `int8_t` */
  type int8 = x: int | -0x80 <= x < 0x80

  /** `uint32_t`, and `unsigned long` on the Arduino targets */
  type uint32 = x: int | 0 <= x < 0x1_0000_0000

  /** Conversion of an `int` value to `uint8_t`: the unique value congruent modulo 2^8. */
  function ToU8(x: int): (r: uint8)
    ensures (r - x) % U8 == 0
    ensures 0 <= x < U8 ==> r == x
  {
    x % U8
  }

  /** Conversion of an `int` value to `int8_t` (two's complement, as the usual
      compilers define this implementation-defined conversion). */
  function ToS8(x: int): (r: int8)
    ensures (r - x) % U8 == 0
    ensures -0x80 <= x < 0x80 ==> r == x
  {
    var m := x % U8;
    if m < 0x80 then m else m - U8
  }

  /** Unsigned 32-bit subtraction `a - b`, which wraps modulo 2^32. */
  function Sub32(a: uint32, b: uint32): (r: uint32)
    ensures b <= a ==> r == a - b
    ensures a < b ==> r == a - b + U32
  {
    (a - b) % U32
  }

  /** Unsigned 32-bit addition `a + b`, which wraps modulo 2^32. */
  function Add32(a: uint32, b: uint32): (r: uint32)
    ensures a + b < U32 ==> r == a + b
    ensures U32 <= a + b ==> r == a + b - U32
  {
    (a + b) % U32
  }

  /** Elapsed time survives the wrap of the counter: `(b + d) - b == d`. */
  lemma ElapsedAfterWrap(b: uint32, d: uint32)
    ensures Sub32(Add32(b, d), b) == d
  {
  }
}
