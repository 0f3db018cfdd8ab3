/**
 * Numeric conversion utilities: two's-complement reinterpretation of unsigned
 * reads (`u32_to_s32`, `u32_to_s16`) and the "not populated" sentinels
 * (`is_default_u32`, `is_default_s32`, `is_default_u16`, `is_default_s16`).
 */
module Numeric {
  import opened Base
  import opened ByteReader

  const TwoTo15: int := 0x8000
  const TwoTo16: int := 0x1_0000
  const TwoTo31: int := 0x8000_0000
  const TwoTo32: int := 0x1_0000_0000

  /**
   * `u32_to_s32`: subtracts 2^32 only from values strictly above 2^31, so
   * 2^31 itself stays positive. On a 32-bit word the result is congruent to
   * it modulo 2^32 and lies in -2^31 + 1 .. 2^31.
   */
  function U32ToS32(n: int): (r: int)
    ensures r == n || r == n - TwoTo32
    ensures 0 <= n < TwoTo32 ==> -TwoTo31 < r <= TwoTo31
    ensures 0 <= n ==> ((r < 0) <==> (TwoTo31 < n < TwoTo32))
  {
    if n > TwoTo31 then n - TwoTo32 else n
  }

  /**
   * `u32_to_s16`: subtracts 2^16 only from values strictly above 2^15, so
   * 2^15 itself stays positive. On a 16-bit word the result is congruent to
   * it modulo 2^16 and lies in -2^15 + 1 .. 2^15.
   */
  function U32ToS16(n: int): (r: int)
    ensures r == n || r == n - TwoTo16
    ensures 0 <= n < TwoTo16 ==> -TwoTo15 < r <= TwoTo15
    ensures 0 <= n ==> ((r < 0) <==> (TwoTo15 < n < TwoTo16))
  {
    if n > TwoTo15 then n - TwoTo16 else n
  }

  /** Reference: the two's-complement value of a 32-bit word. */
  function TwosComplement32(n: nat): int
    requires n < TwoTo32
  {
    if n >= TwoTo31 then n - TwoTo32 else n
  }

  /** Reference: the two's-complement value of a 16-bit word. */
  function TwosComplement16(n: nat): int
    requires n < TwoTo16
  {
    if n >= TwoTo15 then n - TwoTo16 else n
  }

  /**
   * `u32_to_s32` is two's complement on every 32-bit word except 2^31, which
   * it keeps as +2^31 where two's complement gives -2^31.
   */
  lemma U32ToS32VersusTwosComplement(n: nat)
    requires n < TwoTo32
    ensures n != TwoTo31 ==> U32ToS32(n) == TwosComplement32(n)
    ensures n == TwoTo31 ==> U32ToS32(n) == TwoTo31 && TwosComplement32(n) == -TwoTo31
  {
  }

  /**
   * `u32_to_s16` is two's complement on every 16-bit word except 2^15, which
   * it keeps as +32768 where two's complement gives -32768.
   */
  lemma U32ToS16VersusTwosComplement(n: nat)
    requires n < TwoTo16
    ensures n != TwoTo15 ==> U32ToS16(n) == TwosComplement16(n)
    ensures n == TwoTo15 ==> U32ToS16(n) == TwoTo15 && TwosComplement16(n) == -TwoTo15
  {
  }

  /** `is_default_u32`: the largest unsigned 32-bit value. */
  predicate IsDefaultU32(v: int) { v == TwoTo32 - 1 }

  /** `is_default_s32`: the largest signed 32-bit value. */
  predicate IsDefaultS32(v: int) { v == TwoTo31 - 1 }

  /** `is_default_u16`: the largest unsigned 16-bit value. */
  predicate IsDefaultU16(v: int) { v == TwoTo16 - 1 }

  /** `is_default_s16`: the largest signed 16-bit value. */
  predicate IsDefaultS16(v: int) { v == TwoTo15 - 1 }

  /**
   * On the raw bytes of a field, each sentinel is one fixed byte pattern:
   * FF FF FF FF (u32), 7F FF FF FF (s32), FF FF (u16), 7F FF (s16).
   */
  lemma SentinelBytes(b: seq<Byte>, i: nat)
    ensures i + 4 <= |b| ==>
      (IsDefaultU32(ReadBytes(b, i, 4)) <==> b[i..i + 4] == [0xFF, 0xFF, 0xFF, 0xFF])
    ensures i + 4 <= |b| ==>
      (IsDefaultS32(ReadBytes(b, i, 4)) <==> b[i..i + 4] == [0x7F, 0xFF, 0xFF, 0xFF])
    ensures i + 2 <= |b| ==>
      (IsDefaultU16(ReadBytes(b, i, 2)) <==> b[i..i + 2] == [0xFF, 0xFF])
    ensures i + 2 <= |b| ==>
      (IsDefaultS16(ReadBytes(b, i, 2)) <==> b[i..i + 2] == [0x7F, 0xFF])
  {
    if i + 2 <= |b| {
      ReadBytesIsBigEndian(b, i, 2);
      assert BigEndian(b, i, 2) == (b[i] as int) * 256 + b[i + 1];
      assert b[i..i + 2] == [b[i], b[i + 1]];
    }
    if i + 4 <= |b| {
      ReadBytesIsBigEndian(b, i, 4);
      assert BigEndian(b, i, 4) == (b[i] as int) * 0x100_0000 + (b[i + 1] as int) * 0x1_0000 + (b[i + 2] as int) * 0x100 + b[i + 3];
      assert b[i..i + 4] == [b[i], b[i + 1], b[i + 2], b[i + 3]];
    }
  }
}
