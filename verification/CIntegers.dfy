/** The integer types of the program: int is 32 bits wide, long, size_t and uint64_t are 64 bits wide. */
module CIntegers {
  const TWO_32: int := 0x1_0000_0000
  const TWO_63: int := 0x8000_0000_0000_0000
  const TWO_64: int := 0x1_0000_0000_0000_0000

  type CInt = x: int | -0x8000_0000 <= x < 0x8000_0000
  type CLong = x: int | -TWO_63 <= x < TWO_63
  type CULong = x: int | 0 <= x < TWO_64

  // Conversions to unsigned types wrap around.
  function U64(x: int): CULong { x % TWO_64 }
  function U32(x: int): int { x % TWO_32 }

  /** Conversion to int. */
  function Int32(x: int): (r: CInt)
    ensures -0x8000_0000 <= x < 0x8000_0000 ==> r == x
  {
    if U32(x) < 0x8000_0000 then U32(x) else U32(x) - TWO_32
  }

  /** Conversions keep the number up to whole turns of the type. */
  lemma ConversionsWrap(x: int) returns (turns64: int, turns32: int, turnsInt: int)
    ensures x == U64(x) + turns64 * TWO_64 && 0 <= U64(x) < TWO_64
    ensures x == U32(x) + turns32 * TWO_32 && 0 <= U32(x) < TWO_32
    ensures x == Int32(x) + turnsInt * TWO_32
  {
    turns64, turns32 := x / TWO_64, x / TWO_32;
    turnsInt := if U32(x) < 0x8000_0000 then turns32 else turns32 + 1;
  }
}
