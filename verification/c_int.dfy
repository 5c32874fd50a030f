/** The C++ `int` that the checkers' settings and the filter's
    `d_maxseconds` are stored in. */
module CInts {

  newtype Int32 = x: int | -0x8000_0000 <= x < 0x8000_0000

  /** Narrowing of a wider integer to a 32-bit two's-complement `int`: the
      value is taken modulo 2^32 and re-centred on zero. */
  function ToCInt(n: int): (r: Int32)
    ensures (r as int - n) % 0x1_0000_0000 == 0
    ensures -0x8000_0000 <= n < 0x8000_0000 ==> r as int == n
  {
    ((n + 0x8000_0000) % 0x1_0000_0000 - 0x8000_0000) as Int32
  }
}
