/** The SSE4.2 `crc32` instruction in its three operand widths, as the accumulator calls it
    through `Sse42.Crc32` and `Sse42.X64.Crc32`. The instruction computes the CRC-32C
    register update for its source operand; each form is specified here as the table step
    folded over the operand's bytes in little-endian order, stated against a ghost copy of
    the CRC-32C table. */
module Sse42 {
  import opened Crc32cMath
  import opened LittleEndian

  /** `crc32 r32, r/m8`: one byte fed to the register. */
  method Crc32U8(ghost table: seq<bv32>, crc: bv32, b: bv8) returns (r: bv32)
    requires IsCrcTable(table)
    ensures r == TableStep(table, crc, b)
  {
    CrcTableIsTable(table);
    r := ByteStep(crc, b);
  }

  /** `crc32 r32, r/m32`: the four bytes of a 32-bit word fed to the register, least
      significant byte first. */
  method Crc32U32(ghost table: seq<bv32>, crc: bv32, v: bv32) returns (r: bv32)
    requires IsCrcTable(table)
    ensures r == Fold(table, crc, Bytes32(v))
  {
    FoldCrcTable(table, crc, Bytes32(v));
    r := Update(crc, Bytes32(v));
  }

  /** `crc32 r64, r/m64`: the eight bytes of a 64-bit word fed to the low half of the
      register; the upper half of the source register is ignored and the result is
      zero-extended. */
  method Crc32U64(ghost table: seq<bv32>, crc: bv64, v: bv64) returns (r: bv64)
    requires IsCrcTable(table)
    ensures r == Fold(table, Low32(crc), Bytes64(v)) as bv64
    ensures r >> 32 == 0
  {
    FoldCrcTable(table, Low32(crc), Bytes64(v));
    r := Update(Low32(crc), Bytes64(v)) as bv64;
  }
}
