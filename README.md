# CRC-32C accumulator (SharpFast.Checksums.CRC32C)

A Dafny model of `SharpFast.Checksums.CRC32C`, a streaming CRC-32C (Castagnoli) checksum
accumulator: reflected polynomial `0x82F63B78`, register seeded with `0xFFFFFFFF`, result
complemented. This is the digest of section 12.1 of RFC 3720 (iSCSI). The class keeps two
pieces of static state, shared by every accumulator:
- a lazily built 256-entry lookup table;
- the computation path in use (`HardwareAcceleration`: `Undefined`, `Software`,
  `Hardware32Bit` or `Hardware64Bit`).

Each accumulator holds one 32-bit register. Bytes are fed through three `Calculate`
overloads, and `CRC` reads the complement of the register.

The model is laid out as follows:

- `crc32c_math.dfy` (`Crc32cMath`) is the ground truth. It defines:
  - the bit-serial shift register and the table built from it (entry `i` is eight register
    steps from `i`);
  - the table-driven byte step;
  - the byte-wise left fold `Fold(table, crc, data)`;
  - `Update` (the fold over the CRC-32C table) and `Checksum` (seed, fold, complement).
- `little_endian.dfy` (`LittleEndian`) models what the hardware paths assume of the host:
  the `*(uint*)` and `*(ulong*)` loads as little-endian words, and the `(uint)` cast.
- `sse42.dfy` (`Sse42`) gives the three forms of the SSE4.2 `crc32` instruction, each as the
  byte step folded over its operand's little-endian bytes.
- `checksums.dfy` (`Checksums`) holds the accumulator itself:
  - The static fields are the class `Statics`, one object shared by every accumulator.
    It keeps a ghost copy `reference` of the CRC-32C table. Its invariant `Valid()` says:
    - an installed table holds exactly that copy;
    - the table path is only chosen once the table exists.
  - `InitializeSoftwareTable` fills a fresh array with the source's nested loops.
  - `CRC32C` is the accumulator class with its `crc` register. Its constructor chooses the
    path.
  - The `Calculate` overloads are `CalculateSlice` (`byte[]`, offset, count),
    `CalculateByte` (one byte) and `CalculateRaw` (`byte*`, count). The raw pointer is an
    index into a `seq` of memory.
  - Each overload dispatches on the path, like the source's `switch`. The per-path loops are
    separate methods: `SoftwareBytes`, `Words32`/`Words64` with `TailBytes`, `LookupStep`,
    `WordStep32` and `WordStep64`.
  - Every overload promises the same register: the byte-wise fold, over the installed table,
    of the bytes it was given. With no path chosen, the register is unchanged.
- `known_value.dfy` (`KnownValue`) covers the 76-byte test sentence. Its CRC-32C is proved
  to be `0xC22C2C84`.
- `scenarios.dfy` (`Scenarios`) drives the accumulator the way its tests do:
  - the known value through each path;
  - a buffer fed in pieces of any step size, with the path switched arbitrarily before
    each piece, through the array or the pointer overload;
  - a buffer fed byte by byte with arbitrary path switches.

  Each ends with `CRC() == Checksum(buffer)`.

Method contracts are stated over the ghost table `Statics.reference`. The lemma
`FoldCrcTable` turns any fold over it into the CRC-32C register `Update`.

The code never checks `offset` or `count`:
- the table path throws from the array indexer after the earlier bytes have been folded in;
- the hardware paths read through a raw pointer.

The model makes `0 <= offset` and `offset + count <= |data|` a precondition whenever `count`
is positive. A non-positive `count` leaves the register unchanged on the table path, and on
the hardware paths whenever the buffer is not empty (see "## Left out" for the empty array).

## Model

| member | source | states |
|---|---|---|
| Crc32cMath.Index | CRC32C/CRC32C.cs:58 | the table index, the register's low byte xor the input byte, is always below 256, so the lookup never leaves the 256-entry table |
| Crc32cMath.TableAt | CRC32C/CRC32C.cs:36-46 | entry `i` of the table is eight shift-register steps from `i` |
| Crc32cMath.CrcTableCorners | CRC32C/CRC32C.cs:32-49 | any copy of the table has 256 entries, with entry 0 zero, entry 0x80 the polynomial and entry 1 0xF26B8303 |
| Crc32cMath.TableEntryZero | CRC32C/CRC32C.cs:38-46 | byte value zero maps to entry zero |
| Crc32cMath.TableEntryTop | CRC32C/CRC32C.cs:38-46 | byte value 0x80 maps to the polynomial 0x82F63B78 |
| Crc32cMath.TableEntryOne | CRC32C/CRC32C.cs:38-46 | byte value 1 maps to 0xF26B8303 |
| Crc32cMath.ShiftsCompose | CRC32C/CRC32C.cs:40-44 | `a` register steps followed by `b` more are `a + b` steps |
| Crc32cMath.FoldConcat | CRC32C/CRC32C.cs:57-58 | feeding two pieces one after the other is feeding their concatenation |
| Crc32cMath.FoldCrcTable | CRC32C/CRC32C.cs:58 | folding over any copy of the CRC-32C table computes the CRC-32C register |
| Crc32cMath.UpdateConcat | CRC32C/CRC32C.cs:52-59 | chunking the input never changes the CRC-32C register |
| Crc32cMath.UpdateOne | CRC32C/CRC32C.cs:97-98 | feeding a single byte is one byte step |
| Crc32cMath.EmptyChecksum | CRC32C/CRC32C.cs:15 | the empty input has checksum zero (the complement of the seed) |
| LittleEndian.Bytes32OfWord32 | CRC32C/CRC32C.cs:67 | loading a 32-bit word from four bytes and storing it back gives the same bytes |
| LittleEndian.Word32OfBytes32 | CRC32C/CRC32C.cs:67 | storing a 32-bit word and loading it back gives the same word; with `Bytes32OfWord32` this documents that the little-endian encoding is a bijection, and no proof depends on it |
| LittleEndian.Bytes64OfWord64 | CRC32C/CRC32C.cs:82 | loading a 64-bit word from eight bytes and storing it back gives the same bytes |
| LittleEndian.Word64OfBytes64 | CRC32C/CRC32C.cs:82 | storing a 64-bit word and loading it back gives the same word; with `Bytes64OfWord64` this documents that the little-endian encoding is a bijection, and no proof depends on it |
| LittleEndian.Low32OfWidened | CRC32C/CRC32C.cs:82 | the `(uint)` cast of a widened 32-bit register gives the register back |
| Sse42.Crc32U8 | CRC32C/CRC32C.cs:102 | the byte form of the instruction is one table step |
| Sse42.Crc32U32 | CRC32C/CRC32C.cs:67 | the 32-bit form is the byte step folded over the word's four little-endian bytes |
| Sse42.Crc32U64 | CRC32C/CRC32C.cs:82 | the 64-bit form is the byte step folded over the word's eight little-endian bytes from the low half of the register, zero-extended |
| Checksums.ChooseAcceleration | CRC32C/CRC32C.cs:18-27 | the chosen path is never Undefined: 64-bit exactly when the 64-bit instruction exists, 32-bit exactly when only the 32-bit one does, and the table otherwise |
| Checksums.SpanChunks | CRC32C/CRC32C.cs:52-91 | two calls over adjacent stretches of a buffer leave the register where one call over both leaves it |
| Checksums.LookupStep | CRC32C/CRC32C.cs:58 | the table step read from the lookup array is the table step over the array's contents |
| Checksums.WordStep32 | CRC32C/CRC32C.cs:67 | one 32-bit instruction over four bytes in memory equals feeding those bytes one by one |
| Checksums.WordStep64 | CRC32C/CRC32C.cs:82 | one 64-bit instruction over eight bytes in memory, cast back to 32 bits, equals feeding those bytes one by one |
| Checksums.RegisterSteps | CRC32C/CRC32C.cs:38-44 | the inner loop computes eight register steps from `i`, the table entry for `i` |
| Checksums.Statics.constructor | CRC32C/CRC32C.cs:8-9 | the static state starts with no table and no path chosen |
| Checksums.Statics.SetAcceleration | CRC32C/CRC32C.cs:9 | assigning `Acceleration` sets the path and keeps the table |
| Checksums.Statics.InitializeSoftwareTable | CRC32C/CRC32C.cs:30-50 | installs a fresh 256-entry array holding the CRC-32C table, so every rebuild has identical contents, and leaves the path alone |
| Checksums.CRC32C.constructor | CRC32C/CRC32C.cs:13-28 | a fresh register is 0xFFFFFFFF; from Undefined the path becomes `ChooseAcceleration` of the processor's support, with the table built for the table path and left as it was for a hardware path; a path already chosen is kept with its table |
| Checksums.CRC32C.CRC | CRC32C/CRC32C.cs:144 | the checksum is the bitwise complement of the register and leaves the register alone |
| Checksums.CRC32C.CalculateSlice | CRC32C/CRC32C.cs:52-91 | on every path the register becomes the byte-wise fold of the `count` bytes from `offset`; none for non-positive `count`; unchanged when no path is chosen |
| Checksums.CRC32C.CalculateByte | CRC32C/CRC32C.cs:93-105 | on every path the register takes one table step; unchanged when no path is chosen |
| Checksums.CRC32C.CalculateRaw | CRC32C/CRC32C.cs:107-142 | on every path the register becomes the byte-wise fold of the `count` bytes at the pointer; unchanged when no path is chosen |
| Checksums.CRC32C.SoftwareBytes | CRC32C/CRC32C.cs:57-58 | the table loop leaves the register at the fold of the span, in input order |
| Checksums.CRC32C.Hardware32Bytes | CRC32C/CRC32C.cs:60-74 | the 32-bit path, word loop then byte loop, leaves the register at the fold of the span |
| Checksums.CRC32C.Hardware64Bytes | CRC32C/CRC32C.cs:75-89 | the 64-bit path, word loop then byte loop, leaves the register at the fold of the span |
| Checksums.CRC32C.Words32 | CRC32C/CRC32C.cs:63-67 | the word loop consumes exactly `count / 4` whole words (none when `count < 4`) and leaves the register at the fold of those bytes |
| Checksums.CRC32C.Words64 | CRC32C/CRC32C.cs:78-82 | the word loop consumes exactly `count / 8` whole words (none when `count < 8`) and leaves the register at the fold of those bytes |
| Checksums.CRC32C.TailBytes | CRC32C/CRC32C.cs:69-72 | after `pEnd += 3` (or `+= 7`) the byte loop consumes the remaining bytes up to exactly `offset + count`, completing the fold of the span |
| KnownValue.MessageFold | Tests/CRCTests.cs:13-21 | over any table holding the entries the test sentence selects, the seeded register ends at 0x3DD3D37B |
| KnownValue.MessageRegister | Tests/CRCTests.cs:13-23 | over any copy of the CRC-32C table the test sentence leaves the register at 0x3DD3D37B, whose complement is 0xC22C2C84 |
| KnownValue.MessageChecksum | Tests/CRCTests.cs:13-23 | the CRC-32C of the test sentence is 0xC22C2C84 |
| Scenarios.RegisterChecksum | CRC32C/CRC32C.cs:144 | the complement of the seeded register after a fold is the CRC-32C of the input |
| Scenarios.FreshChecksum | CRC32C/CRC32C.cs:13-15 | a fresh accumulator reports zero |
| Scenarios.KnownValueIn | Tests/CRCTests.cs:11-51 | the test sentence checksums to 0xC22C2C84 through every path |
| Scenarios.FeedPiece | Tests/CRCTests.cs:87-97 | one piece fed after switching the path to any mode, through either overload, folds exactly those bytes |
| Scenarios.FeedInSteps | Tests/CRCTests.cs:80-113 | a buffer fed in steps of any size, the path switched arbitrarily between pieces, leaves the register at the fold of the whole buffer |
| Scenarios.RunUp | Tests/CRCTests.cs:54-125 | whatever processor flags the constructor is given, with the SSE4.2 instruction assumed available: an accumulator constructed first, the table built after it, and the buffer fed in steps with mixed paths reports the CRC-32C of the whole buffer |
| Scenarios.FeedBytes | Tests/CRCTests.cs:223-242 | repeated single-byte calls, the path switched arbitrarily between them, equal one bulk call over the same bytes |
| Scenarios.RunUpBytes | Tests/CRCTests.cs:203-252 | whatever processor flags the constructor is given, with the SSE4.2 instruction assumed available: an accumulator constructed first, the table built after it, and the buffer fed byte by byte with mixed paths reports the CRC-32C of the whole buffer |

## Left out

- Processor feature detection (`Sse42.X64.IsSupported`, `Sse42.IsSupported`) is not modelled. Both are inputs to the `CRC32C` constructor.
- The SSE4.2 `crc32` instruction is not modelled at the bit level. `Sse42.Crc32U8`, `Sse42.Crc32U32` and `Sse42.Crc32U64` are specified as byte-step folds over the operand's bytes, on an assumed little-endian host, and the code does not check that assumption. Their contracts carry a ghost copy of the table, which the hardware does not have.
- Crc32cMath.ByteStep is defined as the table step over the table of eight register steps per entry. It is not proved equal to eight register steps applied to `crc ^ b` (the bit-serial definition of CRC-32C).
- Sse42.Crc32U8, Sse42.Crc32U32, Sse42.Crc32U64: the instruction is assumed available whatever flags the constructor is given. The processor check guards only the constructor's automatic choice (CRC32C/CRC32C.cs:18-21). Assigning a hardware path through `Acceleration` on a processor without SSE4.2, or the 64-bit path in a 32-bit process, makes the first instruction call throw `PlatformNotSupportedException`; that failure is not modelled.
- Bounds failures are not modelled. The code never checks `offset` or `count`: the table path throws `IndexOutOfRangeException` partway through, and the hardware paths read unchecked memory. The model requires `offset + count` to fit the buffer instead.
- The `NullReferenceException` from the table path before any table is built is not modelled. `Statics.Valid()` makes an installed table a precondition of choosing that path.
- `fixed` pinning, raw addresses and address wrap-around are out of scope. A pointer is an index into a `seq<bv8>` of memory.
- Integer overflow of `offset + count` and of the pointer arithmetic is not modelled (the model's integers are unbounded).
- Checksums.CRC32C.CalculateSlice: does not model the failure on an empty array in the two hardware modes. `fixed` pins a zero-length array to a null pointer (CRC32C/CRC32C.cs:61, 76), so `pEnd = bpBuffer + offset + count - 3` (or `- 7`) wraps below address zero, the unsigned comparison `pBuffer < pEnd` holds and the word loop reads address zero, which throws. The model leaves the register unchanged for every non-positive `count`, this case included, because it has no addresses.
- Checksums.CRC32C.CalculateSlice: reads the array as one snapshot. Nothing else writes it during a call.
- Checksums.Statics.InitializeSoftwareTable: models the `uint` outer loop index as an unbounded integer. It only runs to 256.
- Concurrent use of the static `table` and `Acceleration` fields is not modelled.
- The tests' random buffer contents and random path choices are not modelled as such. They become arbitrary arrays and an arbitrary `pick` function from piece number to path.
