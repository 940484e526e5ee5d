/** Reflected CRC-32C arithmetic (the Castagnoli polynomial used by iSCSI, section 12.1 of
    RFC 3720): the bit-serial shift register, the 256-entry lookup table built from it, the
    table-driven byte step, and the byte-wise fold that every computation path has to agree
    with. */
module Crc32cMath {

  /** The Castagnoli polynomial 0x1EDC6F41 with its bits reflected. */
  const Poly: bv32 := 0x82F6_3B78

  /** The value a fresh register holds, and the mask the final complement applies. */
  const Seed: bv32 := 0xFFFF_FFFF

  /** One step of the reflected shift register: shift right, folding the polynomial in
      when the bit shifted out was set. */
  function ShiftStep(x: bv32): bv32 {
    if x & 1 == 1 then (x >> 1) ^ Poly else x >> 1
  }

  /** `n` steps of the shift register. */
  function Shifts(x: bv32, n: nat): bv32
    decreases n
  {
    if n == 0 then x else Shifts(ShiftStep(x), n - 1)
  }

  /** The table entry for byte value `i`: eight register steps from `i`. */
  function TableEntry(i: bv32): bv32 {
    Shifts(i, 8)
  }

  /** The whole lookup table, entry `i` at index `i`. */
  function Table(): (t: seq<bv32>)
    ensures |t| == 256
  {
    seq(256, i requires 0 <= i < 256 => TableEntry(i as bv32))
  }

  /** The table index a byte selects: the register's low byte xored with the input byte,
      computed in 32 bits as the unsigned arithmetic of the implementation does. */
  function Index(crc: bv32, b: bv8): (r: bv32)
    ensures r < 256
  {
    (crc & 0xFF) ^ (b as bv32)
  }

  /** One table-driven byte step over a given table: the selected entry is folded into the
      register shifted right by eight. */
  function TableStep(table: seq<bv32>, crc: bv32, b: bv8): bv32
    requires |table| == 256
  {
    (crc >> 8) ^ table[Index(crc, b) as int]
  }

  /** `t` holds the CRC-32C table, entry by entry. */
  ghost predicate IsCrcTable(t: seq<bv32>) {
    |t| == 256 && forall i {:trigger Table()[i]} :: 0 <= i < 256 ==> t[i] == Table()[i]
  }

  /** The register after `data` has been fed, first byte first, to a register holding `crc`,
      one table step per byte. */
  function Fold(table: seq<bv32>, crc: bv32, data: seq<bv8>): bv32
    requires |table| == 256
    decreases |data|
  {
    if |data| == 0 then crc else TableStep(table, Fold(table, crc, data[..|data| - 1]), data[|data| - 1])
  }

  /** The CRC-32C byte step: the table step over the CRC-32C table. */
  function ByteStep(crc: bv32, b: bv8): bv32 {
    TableStep(Table(), crc, b)
  }

  /** The CRC-32C register after `data` has been fed to a register holding `crc`. */
  function Update(crc: bv32, data: seq<bv8>): bv32 {
    Fold(Table(), crc, data)
  }

  /** The CRC-32C of a whole message: seed with all ones, fold, complement. */
  function Checksum(data: seq<bv8>): bv32 {
    !Update(Seed, data)
  }

  // ---------------------------------------------------------------------------------------
  // The table.

  /** Entry `i` of the table is the entry for byte value `i`. */
  lemma TableAt(i: bv32)
    requires i < 256
    ensures Table()[i as int] == TableEntry(i)
  {
    assert (i as int) as bv32 == i;
  }

  /** A table that agrees with the CRC-32C table entry by entry is that table. */
  lemma CrcTableIsTable(t: seq<bv32>)
    requires IsCrcTable(t)
    ensures t == Table()
  {
    assert forall i | 0 <= i < 256 :: t[i] == Table()[i];
  }

  /** The CRC-32C table is, entry by entry, itself. */
  lemma TableIsCrcTable()
    ensures IsCrcTable(Table())
  {
  }

  /** Any copy of the CRC-32C table has 256 entries, maps byte value zero to zero, the top
      bit to the polynomial, and byte value one to 0xF26B8303. */
  lemma CrcTableCorners(t: seq<bv32>)
    requires IsCrcTable(t)
    ensures |t| == 256
    ensures t[0] == 0 && t[0x80] == Poly && t[1] == 0xF26B_8303
  {
    CrcTableIsTable(t);
    TableAt(0);
    TableEntryZero();
    TableAt(0x80);
    TableEntryTop();
    TableAt(1);
    TableEntryOne();
  }

  /** Register steps compose: `a` steps and then `b` more are `a + b` steps. */
  lemma {:induction false} ShiftsCompose(x: bv32, a: nat, b: nat)
    ensures Shifts(x, a + b) == Shifts(Shifts(x, a), b)
    decreases a
  {
    if a > 0 {
      ShiftsCompose(ShiftStep(x), a - 1, b);
    }
  }

  /** A register with its low bit clear takes one register step as a plain shift. */
  lemma ShiftStepOfEven(x: bv32)
    requires x & 1 == 0
    ensures ShiftStep(x) == x >> 1
  {
  }

  /** The zero register is a fixed point of the shift register. */
  lemma {:induction false} ShiftsOfZero(n: nat)
    ensures Shifts(0, n) == 0
    decreases n
  {
    if n > 0 {
      ShiftStepOfEven(0);
      ShiftsOfZero(n - 1);
    }
  }

  /** Byte value zero selects the zero entry, so a zero low byte only shifts the register. */
  lemma TableEntryZero()
    ensures TableEntry(0) == 0
  {
    ShiftsOfZero(8);
  }

  /** The top byte value runs through seven plain shifts and then folds the polynomial in
      exactly once, so its entry is the polynomial itself. */
  lemma TableEntryTop()
    ensures TableEntry(0x80) == Poly
  {
    ShiftsCompose(0x80, 7, 1);
    assert Shifts(0x80, 7) == 1;
  }

  /** The entry for byte value one, the first non-trivial entry of the published table. */
  lemma TableEntryOne()
    ensures TableEntry(1) == 0xF26B_8303
  {
  }

  // ---------------------------------------------------------------------------------------
  // The fold.

  /** Feeding two pieces one after the other is feeding their concatenation. */
  lemma {:induction false} FoldConcat(table: seq<bv32>, crc: bv32, a: seq<bv8>, b: seq<bv8>)
    requires |table| == 256
    ensures Fold(table, crc, a + b) == Fold(table, Fold(table, crc, a), b)
    decreases |b|
  {
    if b == [] {
      assert a + b == a;
    } else {
      var init := b[..|b| - 1];
      assert (a + b)[..|a + b| - 1] == a + init;
      FoldConcat(table, crc, a, init);
    }
  }

  /** Consecutive slices of one buffer: feeding `s[o..m]` and then `s[m..e]` is feeding
      `s[o..e]`. */
  lemma FoldSlices(table: seq<bv32>, crc: bv32, s: seq<bv8>, o: nat, m: nat, e: nat)
    requires |table| == 256
    requires o <= m <= e <= |s|
    ensures Fold(table, Fold(table, crc, s[o..m]), s[m..e]) == Fold(table, crc, s[o..e])
  {
    assert s[o..m] + s[m..e] == s[o..e];
    FoldConcat(table, crc, s[o..m], s[m..e]);
  }

  /** Feeding the `w` bytes after a prefix extends the prefix by `w`. */
  lemma FoldPrefixExtend(table: seq<bv32>, crc: bv32, s: seq<bv8>, k: int, w: int)
    requires |table| == 256
    requires 0 <= k && 0 <= w && k + w <= |s|
    ensures Fold(table, Fold(table, crc, s[..k]), s[k..k + w]) == Fold(table, crc, s[..k + w])
  {
    FoldSlices(table, crc, s, 0, k, k + w);
    assert s[0..k] == s[..k];
    assert s[0..k + w] == s[..k + w];
  }

  /** Feeding the byte after a prefix is one table step. */
  lemma FoldPrefixByte(table: seq<bv32>, crc: bv32, s: seq<bv8>, k: int)
    requires |table| == 256
    requires 0 <= k < |s|
    ensures Fold(table, crc, s[..k + 1]) == TableStep(table, Fold(table, crc, s[..k]), s[k])
  {
    assert s[..k + 1][..k] == s[..k];
  }

  /** Folding over any table that holds the CRC-32C table computes the CRC-32C register. */
  lemma FoldCrcTable(t: seq<bv32>, crc: bv32, data: seq<bv8>)
    requires IsCrcTable(t)
    ensures Fold(t, crc, data) == Update(crc, data)
  {
    CrcTableIsTable(t);
  }

  /** The CRC-32C register is fed piece by piece: chunking the input changes nothing. */
  lemma UpdateConcat(crc: bv32, a: seq<bv8>, b: seq<bv8>)
    ensures Update(crc, a + b) == Update(Update(crc, a), b)
  {
    FoldConcat(Table(), crc, a, b);
  }

  /** Feeding a single byte is one table step. */
  lemma FoldOne(table: seq<bv32>, crc: bv32, b: bv8)
    requires |table| == 256
    ensures Fold(table, crc, [b]) == TableStep(table, crc, b)
  {
    assert [b][..0] == [];
    assert Fold(table, crc, []) == crc;
  }

  /** Feeding a single byte is one CRC-32C byte step. */
  lemma UpdateOne(crc: bv32, b: bv8)
    ensures Update(crc, [b]) == ByteStep(crc, b)
  {
    FoldOne(Table(), crc, b);
  }

  /** The empty message has checksum zero: complementing the seed. */
  lemma EmptyChecksum()
    ensures Checksum([]) == 0
  {
  }
}
