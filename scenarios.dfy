/** The ways the accumulator is driven in practice: the test vector through each computation
    path, and a buffer fed in pieces or byte by byte while the path is switched between
    calls. Each ends with the register of the byte-wise fold over everything fed, whatever
    paths were used. */
module Scenarios {
  import opened Crc32cMath
  import opened Checksums
  import KnownValue

  /** The register a copy of the CRC-32C table folds is the CRC-32C register, so its
      complement is the CRC-32C of the input. */
  lemma RegisterChecksum(t: seq<bv32>, data: seq<bv8>)
    requires IsCrcTable(t)
    ensures !Fold(t, Seed, data) == Checksum(data)
  {
    FoldCrcTable(t, Seed, data);
  }

  /** A fresh accumulator reports the checksum of the empty input, zero. */
  method FreshChecksum(statics: Statics, sse42X64Supported: bool, sse42Supported: bool) returns (r: bv32)
    requires statics.Valid()
    modifies statics
    ensures r == 0
  {
    var acc := new CRC32C(statics, sse42X64Supported, sse42Supported);
    r := acc.CRC();
    EmptyChecksum();
  }

  /** The test sentence fed in one call through the path `mode` checksums to 0xC22C2C84;
      the table is built first when the table path is asked for. */
  method KnownValueIn(statics: Statics, mode: HardwareAcceleration, source: array<bv8>,
                      sse42X64Supported: bool, sse42Supported: bool) returns (r: bv32)
    requires statics.Valid() && mode != Undefined
    requires source[..] == KnownValue.Message()
    modifies statics
    ensures r == 0xC22C_2C84
  {
    var acc := new CRC32C(statics, sse42X64Supported, sse42Supported);
    if mode == Software {
      statics.InitializeSoftwareTable();
    }
    statics.SetAcceleration(mode);
    acc.CalculateSlice(source, 0, source.Length);
    assert source[..][0..source.Length] == source[..];
    KnownValue.MessageRegister(statics.reference);
    r := acc.CRC();
  }

  /** One piece of a buffer fed after switching the path to `mode`, through the array
      overload or the pointer overload. */
  method FeedPiece(acc: CRC32C, data: array<bv8>, position: int, length: int,
                   mode: HardwareAcceleration, viaPointer: bool)
    requires acc.statics.Valid() && acc.statics.table != null && mode != Undefined
    requires 0 <= position && 0 < length && position + length <= data.Length
    modifies acc.statics, acc
    ensures acc.statics.Valid() && acc.statics.table != null && acc.statics.acceleration == mode
    ensures acc.crc == Fold(acc.statics.reference, old(acc.crc), data[position..position + length])
  {
    acc.statics.SetAcceleration(mode);
    if viaPointer {
      acc.CalculateRaw(data[..], position, length);
    } else {
      acc.CalculateSlice(data, position, length);
    }
  }

  /** The buffer fed `stepSize` bytes at a time to an accumulator, the last piece possibly
      shorter, with the path switched to `pick(k)` before piece `k`; each piece goes
      through the array overload, or through the pointer overload when `viaPointer` holds.
      The register ends where the byte-wise fold over the whole buffer leaves it. */
  method FeedInSteps(acc: CRC32C, data: array<bv8>, stepSize: int, pick: nat -> HardwareAcceleration,
                     viaPointer: bool)
    requires acc.statics.Valid() && acc.statics.table != null && 0 < stepSize
    requires forall k :: pick(k) != Undefined
    modifies acc.statics, acc
    ensures acc.statics.Valid()
    ensures acc.crc == Fold(acc.statics.reference, old(acc.crc), data[..])
  {
    ghost var T := acc.statics.reference;
    ghost var c0 := acc.crc;
    var position := 0;
    var piece := 0;
    while position < data.Length - stepSize
      invariant 0 <= position <= data.Length
      invariant acc.statics.Valid() && acc.statics.table != null
      invariant acc.crc == Fold(T, c0, data[..position])
    {
      FeedPiece(acc, data, position, stepSize, pick(piece), viaPointer);
      FoldPrefixExtend(T, c0, data[..], position, stepSize);
      position := position + stepSize;
      piece := piece + 1;
    }
    if position < data.Length {
      FeedPiece(acc, data, position, data.Length - position, pick(piece), viaPointer);
      FoldPrefixExtend(T, c0, data[..], position, data.Length - position);
    }
    assert data[..][..data.Length] == data[..];
  }

  /** The run-up the tests perform, whatever processor flags the constructor is given and
      with the SSE4.2 instruction assumed available: a fresh accumulator, then the table
      built, and the buffer fed in steps with the path switched between pieces. The
      accumulator reports the CRC-32C of the buffer. */
  method RunUp(statics: Statics, data: array<bv8>, stepSize: int, pick: nat -> HardwareAcceleration,
               viaPointer: bool, sse42X64Supported: bool, sse42Supported: bool) returns (acc: CRC32C)
    requires statics.Valid() && 0 < stepSize
    requires forall k :: pick(k) != Undefined
    modifies statics
    ensures acc.statics == statics && statics.Valid()
    ensures acc.crc == Fold(statics.reference, Seed, data[..])
    ensures acc.CRC() == Checksum(data[..])
  {
    acc := new CRC32C(statics, sse42X64Supported, sse42Supported);
    statics.InitializeSoftwareTable();
    FeedInSteps(acc, data, stepSize, pick, viaPointer);
    RegisterChecksum(statics.reference, data[..]);
  }

  /** The buffer fed to an accumulator one byte per call, with the path switched to
      `pick(k)` before byte `k`. The register ends where one bulk call over the whole
      buffer would leave it. */
  method FeedBytes(acc: CRC32C, data: array<bv8>, pick: nat -> HardwareAcceleration)
    requires acc.statics.Valid() && acc.statics.table != null
    requires forall k :: pick(k) != Undefined
    modifies acc.statics, acc
    ensures acc.statics.Valid()
    ensures acc.crc == Fold(acc.statics.reference, old(acc.crc), data[..])
  {
    ghost var T := acc.statics.reference;
    ghost var c0 := acc.crc;
    var position := 0;
    while position < data.Length
      invariant 0 <= position <= data.Length
      invariant acc.statics.Valid() && acc.statics.table != null
      invariant acc.crc == Fold(T, c0, data[..position])
    {
      acc.statics.SetAcceleration(pick(position));
      acc.CalculateByte(data[position]);
      FoldPrefixByte(T, c0, data[..], position);
      position := position + 1;
    }
    assert data[..][..data.Length] == data[..];
  }

  /** The byte-by-byte run-up the tests perform, whatever processor flags the constructor is
      given and with the SSE4.2 instruction assumed available: a fresh accumulator, then the
      table built, and the buffer fed one byte per call with the path switched between
      bytes. The accumulator reports the CRC-32C of the buffer. */
  method RunUpBytes(statics: Statics, data: array<bv8>, pick: nat -> HardwareAcceleration,
                    sse42X64Supported: bool, sse42Supported: bool) returns (acc: CRC32C)
    requires statics.Valid()
    requires forall k :: pick(k) != Undefined
    modifies statics
    ensures acc.statics == statics && statics.Valid()
    ensures acc.crc == Fold(statics.reference, Seed, data[..])
    ensures acc.CRC() == Checksum(data[..])
  {
    acc := new CRC32C(statics, sse42X64Supported, sse42Supported);
    statics.InitializeSoftwareTable();
    FeedBytes(acc, data, pick);
    RegisterChecksum(statics.reference, data[..]);
  }
}
