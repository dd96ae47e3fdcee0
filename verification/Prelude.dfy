/** Small vocabulary shared by every module. */
module Prelude {

  datatype Option<+T> = None | Some(value: T)

  datatype Result<+T, +E> = Success(value: T) | Failure(error: E)

  function Min(a: int, b: int): int { if a <= b then a else b }

  function AbsReal(x: real): real { if x < 0.0 then -x else x }

  function MaxReal(a: real, b: real): real { if a >= b then a else b }

  function MinReal(a: real, b: real): real { if a <= b then a else b }
}

/** The fixed-width unsigned arithmetic of the ESP32 (`unsigned long` and
    `size_t` are 32 bits wide, `uint8_t` is 8). */
module Words {

  const WORD := 0x1_0000_0000
  const LONG_WORD := 0x1_0000_0000_0000_0000

  type u32 = x: int | 0 <= x < 0x1_0000_0000

  type u8 = x: int | 0 <= x < 256

  /** Addition that wraps at 2^32. */
  function Add32(a: u32, b: u32): u32
  {
    if a + b < WORD then a + b else a + b - WORD
  }

  /** Subtraction that wraps at 2^32: the elapsed ticks of a wrapping clock. */
  function Sub32(a: u32, b: u32): u32
  {
    if b <= a then a - b else a - b + WORD
  }

  /** `static_cast<size_t>` of a signed integer. */
  function Cast32(x: int): u32 { x % WORD }

  /** `static_cast<uint8_t>` of a signed integer. */
  function Cast8(x: int): u8 { x % 256 }

  /** What `%d` reads of a number: `strtol` saturates at the ends of a 32-bit `int`. */
  function ReadInt(n: int): int
  {
    if n < -0x8000_0000 then -0x8000_0000 else if n > 0x7FFF_FFFF then 0x7FFF_FFFF else n
  }

  /** What `%lu` reads of a number: `strtoul` saturates at 32 bits and negates a signed number on them. */
  function ReadUnsigned(n: int): u32
  {
    if -WORD < n < 0 then n + WORD else if 0 <= n < WORD then n else WORD - 1
  }

  /** The elapsed ticks, added to the earlier reading, give the later one. */
  lemma Sub32Undone(a: u32, b: u32)
    ensures Add32(b, Sub32(a, b)) == a && Sub32(a, b) == (a - b) % WORD
  {
  }

  /** Wrapping addition follows the exact sum modulo 2^32. */
  lemma Add32Mod(a: nat, b: nat)
    ensures Add32(a % WORD, b % WORD) == (a + b) % WORD
  {
  }
}
