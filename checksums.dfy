/** The CRC-32C accumulator: a register fed through one of three computation paths (a
    lookup table, or the SSE4.2 instruction on 32-bit or 64-bit words), chosen once per
    process and shared by every accumulator. */
module Checksums {
  import opened Crc32cMath
  import opened LittleEndian
  import Sse42

  /** The computation path in use; `Undefined` until the first accumulator is built. */
  datatype HardwareAcceleration = Undefined | Software | Hardware32Bit | Hardware64Bit

  /** The path the first accumulator picks: the widest form of the instruction the processor
      offers, or the table when it offers none. */
  function ChooseAcceleration(sse42X64Supported: bool, sse42Supported: bool): (a: HardwareAcceleration)
    ensures a != Undefined
    ensures a == Hardware64Bit <==> sse42X64Supported
    ensures a == Hardware32Bit <==> !sse42X64Supported && sse42Supported
    ensures a == Software <==> !sse42X64Supported && !sse42Supported
  {
    if sse42X64Supported then Hardware64Bit
    else if sse42Supported then Hardware32Bit
    else Software
  }

  /** The `count` bytes of `s` starting at `offset`; none when `count` is not positive. */
  ghost function Span(s: seq<bv8>, offset: int, count: int): (r: seq<bv8>)
    requires count <= 0 || (0 <= offset && offset + count <= |s|)
    ensures |r| == if count <= 0 then 0 else count
  {
    if count <= 0 then [] else s[offset..offset + count]
  }

  /** Two calls over adjacent stretches of a buffer leave the register where one call
      over both leaves it. */
  lemma SpanChunks(table: seq<bv32>, crc: bv32, s: seq<bv8>, offset: int, n: int, m: int)
    requires |table| == 256
    requires 0 <= offset && 0 <= n && 0 <= m && offset + n + m <= |s|
    ensures Fold(table, Fold(table, crc, Span(s, offset, n)), Span(s, offset + n, m))
         == Fold(table, crc, Span(s, offset, n + m))
  {
    var a, b := Span(s, offset, n), Span(s, offset + n, m);
    assert a + b == Span(s, offset, n + m) by {
      if n + m > 0 {
        assert a + b == s[offset..offset + n + m];
      }
    }
    FoldConcat(table, crc, a, b);
  }

  /** A stretch of a span is the same stretch of the memory it is read from. */
  lemma SpanSlice(s: seq<bv8>, offset: int, count: int, k: int, w: int)
    requires 0 <= offset && offset + count <= |s|
    requires 0 <= k && 0 <= w && k + w <= count
    ensures Span(s, offset, count)[k..k + w] == s[offset + k..offset + k + w]
  {
  }

  /** One table step read from the lookup array: the selected entry folded into the
      register shifted right by eight. */
  method LookupStep(t: array<bv32>, crc: bv32, b: bv8) returns (r: bv32)
    requires t.Length == 256
    ensures r == TableStep(t[..], crc, b)
  {
    r := (crc >> 8) ^ t[Index(crc, b) as int];
  }

  /** One 32-bit instruction over the four bytes at address `p`, loaded as a
      little-endian word: the same as feeding those bytes one by one. */
  method WordStep32(ghost table: seq<bv32>, crc: bv32, memory: seq<bv8>, p: int) returns (r: bv32)
    requires IsCrcTable(table)
    requires 0 <= p && p + 4 <= |memory|
    ensures r == Fold(table, crc, memory[p..p + 4])
  {
    Bytes32OfWord32(memory[p..p + 4]);
    r := Sse42.Crc32U32(table, crc, Word32(memory[p..p + 4]));
  }

  /** One 64-bit instruction over the eight bytes at address `p`, loaded as a
      little-endian word, with the register widened on the way in and cast back to 32
      bits on the way out: the same as feeding those bytes one by one. */
  method WordStep64(ghost table: seq<bv32>, crc: bv32, memory: seq<bv8>, p: int) returns (r: bv32)
    requires IsCrcTable(table)
    requires 0 <= p && p + 8 <= |memory|
    ensures r == Fold(table, crc, memory[p..p + 8])
  {
    Bytes64OfWord64(memory[p..p + 8]);
    Low32OfWidened(crc);
    Low32OfWidened(Fold(table, crc, memory[p..p + 8]));
    var wide := Sse42.Crc32U64(table, crc as bv64, Word64(memory[p..p + 8]));
    r := Low32(wide);
  }

  /** Two sequences that agree up to `i` and at `i` agree up to `i + 1`. */
  lemma PrefixExtend(a: seq<bv32>, b: seq<bv32>, i: int)
    requires 0 <= i < |a| && i < |b|
    requires a[..i] == b[..i] && a[i] == b[i]
    ensures a[..i + 1] == b[..i + 1]
  {
    assert a[..i + 1] == a[..i] + [a[i]];
    assert b[..i + 1] == b[..i] + [b[i]];
  }

  /** The static state of the accumulator class: the lookup table, the chosen computation
      path, and (as a ghost) the reference CRC-32C table every path is specified against. */
  class Statics {
    var table: array?<bv32>
    var acceleration: HardwareAcceleration
    ghost const reference: seq<bv32>

    /** The reference is the CRC-32C table, a built table holds it, and the table path is
        only ever chosen with a table in place. */
    ghost predicate Valid()
      reads this, table
    {
      IsCrcTable(reference)
      && (table != null ==> table[..] == reference)
      && (acceleration == Software ==> table != null)
    }

    /** The state at program start: no table, no path chosen. */
    constructor()
      ensures Valid()
      ensures table == null && acceleration == Undefined
    {
      table := null;
      acceleration := Undefined;
      reference := Table();
      TableIsCrcTable();
    }

    /** Assigning the public static `Acceleration`. Choosing the table path requires the
        table to be built. */
    method SetAcceleration(a: HardwareAcceleration)
      requires Valid()
      requires a == Software ==> table != null
      modifies this
      ensures Valid()
      ensures acceleration == a && table == old(table)
    {
      acceleration := a;
    }

    /** Builds the 256-entry table and installs it; the chosen path is left as it is. */
    method InitializeSoftwareTable()
      requires Valid()
      modifies this
      ensures Valid()
      ensures table != null && fresh(table)
      ensures table[..] == reference
      ensures acceleration == old(acceleration)
    {
      var t := new bv32[256];
      var i := 0;
      while i < t.Length
        modifies t
        invariant 0 <= i <= t.Length
        invariant t[..i] == Table()[..i]
      {
        var temp := RegisterSteps(i as bv32);
        t[i] := temp;
        PrefixExtend(t[..], Table(), i);
        i := i + 1;
      }
      CrcTableIsTable(reference);
      assert t[..] == t[..256];
      assert Table() == Table()[..256];
      table := t;
    }
  }

  /** The table entry for `i`: eight steps of the shift register starting from `i`, each
      shifting right and folding the polynomial in when the bit shifted out was set. */
  method RegisterSteps(i: bv32) returns (temp: bv32)
    ensures temp == TableEntry(i)
  {
    temp := i;
    var j := 8;
    while j > 0
      invariant 0 <= j <= 8
      invariant Shifts(temp, j) == TableEntry(i)
    {
      if temp & 1 == 1 {
        temp := (temp >> 1) ^ 0x82F6_3B78;
      } else {
        temp := temp >> 1;
      }
      j := j - 1;
    }
  }

  /** One accumulator: a 32-bit register over the shared static state. */
  class CRC32C {
    const statics: Statics
    var crc: bv32

    /** A fresh accumulator holds the all-ones register. The first one built picks the
        computation path from what the processor supports, building the table when it has
        to fall back on it; later ones leave the chosen path alone. */
    constructor(statics: Statics, sse42X64Supported: bool, sse42Supported: bool)
      requires statics.Valid()
      modifies statics
      ensures this.statics == statics && crc == Seed
      ensures statics.Valid()
      ensures old(statics.acceleration) == Undefined ==>
                statics.acceleration == ChooseAcceleration(sse42X64Supported, sse42Supported)
      ensures statics.acceleration != Software ==> statics.table == old(statics.table)
      ensures old(statics.acceleration) != Undefined ==>
                statics.acceleration == old(statics.acceleration) && statics.table == old(statics.table)
    {
      this.statics := statics;
      crc := 0xFFFF_FFFF;
      new;
      if statics.acceleration == Undefined {
        if sse42X64Supported {
          statics.acceleration := Hardware64Bit;
        } else if sse42Supported {
          statics.acceleration := Hardware32Bit;
        } else {
          statics.InitializeSoftwareTable();
          statics.acceleration := Software;
        }
      }
    }

    /** The checksum: the complement of the register. */
    function CRC(): (r: bv32)
      reads this
      ensures r ^ crc == 0xFFFF_FFFF
    {
      !crc
    }

    /** Feeds `count` bytes of the array `data` starting at `offset` (the `byte[]`
        overload). Every path leaves the register where the table step folded over those
        bytes leaves it; with no path chosen the register is left alone. */
    method CalculateSlice(data: array<bv8>, offset: int, count: int)
      requires statics.Valid()
      requires count <= 0 || (0 <= offset && offset + count <= data.Length)
      modifies this
      ensures statics.acceleration == Undefined ==> crc == old(crc)
      ensures statics.acceleration != Undefined ==>
                crc == Fold(statics.reference, old(crc), Span(data[..], offset, count))
    {
      match statics.acceleration {
        case Software =>
          SoftwareBytes(data[..], offset, count);
        case Hardware32Bit =>
          Hardware32Bytes(data[..], offset, count);
        case Hardware64Bit =>
          Hardware64Bytes(data[..], offset, count);
        case Undefined =>
      }
    }

    /** Feeds one byte: one table step on every path; with no path chosen the register is
        left alone. */
    method CalculateByte(data: bv8)
      requires statics.Valid()
      modifies this
      ensures statics.acceleration == Undefined ==> crc == old(crc)
      ensures statics.acceleration != Undefined ==> crc == TableStep(statics.reference, old(crc), data)
    {
      match statics.acceleration {
        case Software =>
          var t := statics.table;
          crc := LookupStep(t, crc, data);
        case Hardware32Bit | Hardware64Bit =>
          crc := Sse42.Crc32U8(statics.reference, crc, data);
        case Undefined =>
      }
    }

    /** Feeds `count` bytes of memory starting at address `pBuffer` (the `byte*`
        overload), with the same outcome on every path as the array overload. */
    method CalculateRaw(memory: seq<bv8>, pBuffer: int, count: int)
      requires statics.Valid()
      requires count <= 0 || (0 <= pBuffer && pBuffer + count <= |memory|)
      modifies this
      ensures statics.acceleration == Undefined ==> crc == old(crc)
      ensures statics.acceleration != Undefined ==>
                crc == Fold(statics.reference, old(crc), Span(memory, pBuffer, count))
    {
      match statics.acceleration {
        case Software =>
          SoftwareBytes(memory, pBuffer, count);
        case Hardware32Bit =>
          Hardware32Bytes(memory, pBuffer, count);
        case Hardware64Bit =>
          Hardware64Bytes(memory, pBuffer, count);
        case Undefined =>
      }
    }

    /** The table path: one table step per byte, in order. */
    method SoftwareBytes(memory: seq<bv8>, start: int, count: int)
      requires statics.table != null && statics.table[..] == statics.reference
      requires |statics.reference| == 256
      requires count <= 0 || (0 <= start && start + count <= |memory|)
      modifies this
      ensures crc == Fold(statics.reference, old(crc), Span(memory, start, count))
    {
      var t := statics.table;
      ghost var T := statics.reference;
      ghost var span := Span(memory, start, count);
      ghost var c0 := crc;
      var i := 0;
      while i < count
        invariant 0 <= i <= |span|
        invariant crc == Fold(T, c0, span[..i])
      {
        SpanSlice(memory, start, count, i, 1);
        FoldPrefixByte(T, c0, span, i);
        crc := LookupStep(t, crc, memory[start + i]);
        i := i + 1;
      }
      assert span[..i] == span;
    }

    /** The 32-bit instruction path: whole 4-byte words, then the bytes left over. */
    method Hardware32Bytes(memory: seq<bv8>, start: int, count: int)
      requires IsCrcTable(statics.reference)
      requires count <= 0 || (0 <= start && start + count <= |memory|)
      modifies this
      ensures crc == Fold(statics.reference, old(crc), Span(memory, start, count))
    {
      ghost var c0 := crc;
      var p := Words32(memory, start, count);
      TailBytes(memory, start, count, p, c0);
    }

    /** The 64-bit instruction path: whole 8-byte words, then the bytes left over. */
    method Hardware64Bytes(memory: seq<bv8>, start: int, count: int)
      requires IsCrcTable(statics.reference)
      requires count <= 0 || (0 <= start && start + count <= |memory|)
      modifies this
      ensures crc == Fold(statics.reference, old(crc), Span(memory, start, count))
    {
      ghost var c0 := crc;
      var p := Words64(memory, start, count);
      TailBytes(memory, start, count, p, c0);
    }

    /** The word loop of the 32-bit path: one instruction per 4-byte word while at least
        four bytes remain (the bound sits three bytes short of the end). It stops at the
        first byte past the last whole word, so `count % 4` bytes are left over. */
    method Words32(memory: seq<bv8>, start: int, count: int) returns (p: int)
      requires IsCrcTable(statics.reference)
      requires count <= 0 || (0 <= start && start + count <= |memory|)
      modifies this
      ensures p - start == if count <= 0 then 0 else count / 4 * 4
      ensures crc == Fold(statics.reference, old(crc), Span(memory, start, count)[..p - start])
    {
      ghost var T := statics.reference;
      ghost var span := Span(memory, start, count);
      ghost var c0 := crc;
      p := start;
      var pEnd := start + count - 3;
      ghost var words := 0;
      while p < pEnd
        invariant p == start + 4 * words
        invariant 0 <= 4 * words <= |span|
        invariant crc == Fold(T, c0, span[..4 * words])
      {
        SpanSlice(memory, start, count, 4 * words, 4);
        FoldPrefixExtend(T, c0, span, 4 * words, 4);
        crc := WordStep32(T, crc, memory, p);
        p := p + 4;
        words := words + 1;
      }
      assert words == |span| / 4;
    }

    /** The word loop of the 64-bit path: one instruction per 8-byte word while at least
        eight bytes remain, each result cast back to 32 bits. It stops at the first byte
        past the last whole word, so `count % 8` bytes are left over. */
    method Words64(memory: seq<bv8>, start: int, count: int) returns (p: int)
      requires IsCrcTable(statics.reference)
      requires count <= 0 || (0 <= start && start + count <= |memory|)
      modifies this
      ensures p - start == if count <= 0 then 0 else count / 8 * 8
      ensures crc == Fold(statics.reference, old(crc), Span(memory, start, count)[..p - start])
    {
      ghost var T := statics.reference;
      ghost var span := Span(memory, start, count);
      ghost var c0 := crc;
      p := start;
      var pEnd := start + count - 7;
      ghost var words := 0;
      while p < pEnd
        invariant p == start + 8 * words
        invariant 0 <= 8 * words <= |span|
        invariant crc == Fold(T, c0, span[..8 * words])
      {
        SpanSlice(memory, start, count, 8 * words, 8);
        FoldPrefixExtend(T, c0, span, 8 * words, 8);
        crc := WordStep64(T, crc, memory, p);
        p := p + 8;
        words := words + 1;
      }
      assert words == |span| / 8;
    }

    /** The byte loop both instruction paths end with: the bytes from address `p` to the
        end of the span, one instruction each. A register that has taken the span up to
        `p` from `c0` has then taken the whole span from `c0`. */
    method TailBytes(memory: seq<bv8>, start: int, count: int, p: int, ghost c0: bv32)
      requires IsCrcTable(statics.reference)
      requires count <= 0 || (0 <= start && start + count <= |memory|)
      requires 0 <= p - start <= |Span(memory, start, count)|
      requires crc == Fold(statics.reference, c0, Span(memory, start, count)[..p - start])
      modifies this
      ensures crc == Fold(statics.reference, c0, Span(memory, start, count))
    {
      ghost var T := statics.reference;
      ghost var span := Span(memory, start, count);
      var q := p;
      var pEnd := start + count;
      while q < pEnd
        invariant 0 <= q - start <= |span|
        invariant crc == Fold(T, c0, span[..q - start])
      {
        ghost var k := q - start;
        SpanSlice(memory, start, count, k, 1);
        FoldPrefixByte(T, c0, span, k);
        crc := Sse42.Crc32U8(T, crc, memory[q]);
        q := q + 1;
        assert q - start == k + 1;
      }
      assert span[..q - start] == span;
    }
  }
}
