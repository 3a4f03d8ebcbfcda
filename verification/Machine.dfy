/** Fixed-width arithmetic of the C types the repository computes with. */
module Machine {
  type uint8 = x: int | 0 <= x < 0x100
  type uint16 = x: int | 0 <= x < 0x1_0000
  type uint32 = x: int | 0 <= x < 0x1_0000_0000
  type uint64 = x: int | 0 <= x < 0x1_0000_0000_0000_0000
  type int32 = x: int | -0x8000_0000 <= x < 0x8000_0000

  // Each conversion keeps a value that fits and wraps any other. The moduli are written
  // out: through a named constant the solver would treat them as unknown divisors.

  function U16(x: int): uint16 { if 0 <= x < 0x1_0000 then x else x % 0x1_0000 }

  function U32(x: int): uint32 { if 0 <= x < 0x1_0000_0000 then x else x % 0x1_0000_0000 }

  function U64(x: int): uint64 { if 0 <= x < 0x1_0000_0000_0000_0000 then x else x % 0x1_0000_0000_0000_0000 }

  /** Two's complement reading of the low 32 bits. */
  function S32(x: int): int32 {
    if -0x8000_0000 <= x < 0x8000_0000 then x
    else (x + 0x8000_0000) % 0x1_0000_0000 - 0x8000_0000
  }
}
