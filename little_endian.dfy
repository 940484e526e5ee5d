/** Little-endian reading of machine words from memory: the hardware paths load four or
    eight bytes at once through `*(uint*)` and `*(ulong*)`, which on a little-endian host put
    the byte at the lowest address into the least significant position. */
module LittleEndian {

  /** The 32-bit word stored in four consecutive bytes, lowest address first. */
  function Word32(b: seq<bv8>): bv32
    requires |b| == 4
  {
    (b[0] as bv32) | ((b[1] as bv32) << 8) | ((b[2] as bv32) << 16) | ((b[3] as bv32) << 24)
  }

  /** The four bytes that store a 32-bit word, lowest address first. */
  function Bytes32(v: bv32): (r: seq<bv8>)
    ensures |r| == 4
  {
    [(v & 0xFF) as bv8, ((v >> 8) & 0xFF) as bv8, ((v >> 16) & 0xFF) as bv8, ((v >> 24) & 0xFF) as bv8]
  }

  /** The 64-bit word stored in eight consecutive bytes, lowest address first. */
  function Word64(b: seq<bv8>): bv64
    requires |b| == 8
  {
    (b[0] as bv64) | ((b[1] as bv64) << 8) | ((b[2] as bv64) << 16) | ((b[3] as bv64) << 24)
      | ((b[4] as bv64) << 32) | ((b[5] as bv64) << 40) | ((b[6] as bv64) << 48) | ((b[7] as bv64) << 56)
  }

  /** The eight bytes that store a 64-bit word, lowest address first. */
  function Bytes64(v: bv64): (r: seq<bv8>)
    ensures |r| == 8
  {
    [(v & 0xFF) as bv8, ((v >> 8) & 0xFF) as bv8, ((v >> 16) & 0xFF) as bv8, ((v >> 24) & 0xFF) as bv8,
     ((v >> 32) & 0xFF) as bv8, ((v >> 40) & 0xFF) as bv8, ((v >> 48) & 0xFF) as bv8, ((v >> 56) & 0xFF) as bv8]
  }

  /** The low half of a 64-bit value: the `(uint)` cast, which drops the upper 32 bits. */
  function Low32(v: bv64): bv32 {
    (v & 0xFFFF_FFFF) as bv32
  }

  /** Loading a word and storing it back gives the same bytes. */
  lemma Bytes32OfWord32(b: seq<bv8>)
    requires |b| == 4
    ensures Bytes32(Word32(b)) == b
  {
  }

  /** Storing a word and loading it back gives the same word. */
  lemma Word32OfBytes32(v: bv32)
    ensures Word32(Bytes32(v)) == v
  {
  }

  /** Loading a 64-bit word and storing it back gives the same bytes. */
  lemma Bytes64OfWord64(b: seq<bv8>)
    requires |b| == 8
    ensures Bytes64(Word64(b)) == b
  {
  }

  /** Storing a 64-bit word and loading it back gives the same word. */
  lemma Word64OfBytes64(v: bv64)
    ensures Word64(Bytes64(v)) == v
  {
  }

  /** Widening a 32-bit value and casting it back loses nothing. */
  lemma Low32OfWidened(x: bv32)
    ensures Low32(x as bv64) == x
  {
  }
}
