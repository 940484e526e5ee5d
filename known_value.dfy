/** The test vector the accumulator is checked against: a 76-byte ASCII sentence whose
    CRC-32C is 0xC22C2C84. The register is followed through the message one group of bytes
    at a time, over any table that holds the entries those bytes select; the entries of the
    CRC-32C table are then evaluated and the groups chained into the checksum. */
module KnownValue {
  import opened Crc32cMath

  /** "The world is a wonderful place to be. At least until climate change gets us." in
      ASCII, written in groups of 4 bytes. */
  function Message(): (m: seq<bv8>)
    ensures |m| == 76
  {
    [0x54, 0x68, 0x65, 0x20]
    + [0x77, 0x6F, 0x72, 0x6C]
    + [0x64, 0x20, 0x69, 0x73]
    + [0x20, 0x61, 0x20, 0x77]
    + [0x6F, 0x6E, 0x64, 0x65]
    + [0x72, 0x66, 0x75, 0x6C]
    + [0x20, 0x70, 0x6C, 0x61]
    + [0x63, 0x65, 0x20, 0x74]
    + [0x6F, 0x20, 0x62, 0x65]
    + [0x2E, 0x20, 0x41, 0x74]
    + [0x20, 0x6C, 0x65, 0x61]
    + [0x73, 0x74, 0x20, 0x75]
    + [0x6E, 0x74, 0x69, 0x6C]
    + [0x20, 0x63, 0x6C, 0x69]
    + [0x6D, 0x61, 0x74, 0x65]
    + [0x20, 0x63, 0x68, 0x61]
    + [0x6E, 0x67, 0x65, 0x20]
    + [0x67, 0x65, 0x74, 0x73]
    + [0x20, 0x75, 0x73, 0x2E]
  }

  /** Bytes 0 to 3 of the message move the register from 0xFFFF_FFFF to 0x6D01_7C6A. */
  lemma Bytes0To4(table: seq<bv32>)
    requires |table| == 256
    requires table[0x0A] == 0x6BE2_2838 && table[0x2C] == 0x6DFE_410E && table[0xAB] == 0x3BC2_1E9D && table[0xBC] == 0xFF56_BD19
    ensures Fold(table, 0xFFFF_FFFF, [0x54, 0x68, 0x65, 0x20]) == 0x6D01_7C6A
  {
    var g: seq<bv8> := [0x54, 0x68, 0x65, 0x20];
    assert g[..0] == [];
    FoldPrefixByte(table, 0xFFFF_FFFF, g, 0);
    FoldPrefixByte(table, 0xFFFF_FFFF, g, 1);
    FoldPrefixByte(table, 0xFFFF_FFFF, g, 2);
    FoldPrefixByte(table, 0xFFFF_FFFF, g, 3);
    assert g[..4] == g;
  }

  /** Bytes 4 to 7 of the message move the register from 0x6D01_7C6A to 0x5A1E_0B74. */
  lemma Bytes4To8(table: seq<bv32>)
    requires |table| == 256
    requires table[0x1D] == 0xAF76_8BBC && table[0x7A] == 0x1A7A_7C35 && table[0xAF] == 0xFC58_8982 && table[0xCB] == 0x5A04_8DFF
    ensures Fold(table, 0x6D01_7C6A, [0x77, 0x6F, 0x72, 0x6C]) == 0x5A1E_0B74
  {
    var g: seq<bv8> := [0x77, 0x6F, 0x72, 0x6C];
    assert g[..0] == [];
    FoldPrefixByte(table, 0x6D01_7C6A, g, 0);
    FoldPrefixByte(table, 0x6D01_7C6A, g, 1);
    FoldPrefixByte(table, 0x6D01_7C6A, g, 2);
    FoldPrefixByte(table, 0x6D01_7C6A, g, 3);
    assert g[..4] == g;
  }

  /** Bytes 8 to 11 of the message move the register from 0x5A1E_0B74 to 0x4764_FC4F. */
  lemma Bytes8To12(table: seq<bv32>)
    requires |table| == 256
    requires table[0x10] == 0x105E_C76F && table[0x13] == 0x030E_349B && table[0x44] == 0x86E1_8AA3 && table[0x66] == 0x4767_748A
    ensures Fold(table, 0x5A1E_0B74, [0x64, 0x20, 0x69, 0x73]) == 0x4764_FC4F
  {
    var g: seq<bv8> := [0x64, 0x20, 0x69, 0x73];
    assert g[..0] == [];
    FoldPrefixByte(table, 0x5A1E_0B74, g, 0);
    FoldPrefixByte(table, 0x5A1E_0B74, g, 1);
    FoldPrefixByte(table, 0x5A1E_0B74, g, 2);
    FoldPrefixByte(table, 0x5A1E_0B74, g, 3);
    assert g[..4] == g;
  }

  /** Bytes 12 to 15 of the message move the register from 0x4764_FC4F to 0xEAF2_7C41. */
  lemma Bytes12To16(table: seq<bv32>)
    requires |table| == 256
    requires table[0x6F] == 0x3FD5_AF46 && table[0x7B] == 0xE811_FF36 && table[0x99] == 0xEA1A_27DB && table[0xDB] == 0x4A5A_4A90
    ensures Fold(table, 0x4764_FC4F, [0x20, 0x61, 0x20, 0x77]) == 0xEAF2_7C41
  {
    var g: seq<bv8> := [0x20, 0x61, 0x20, 0x77];
    assert g[..0] == [];
    FoldPrefixByte(table, 0x4764_FC4F, g, 0);
    FoldPrefixByte(table, 0x4764_FC4F, g, 1);
    FoldPrefixByte(table, 0x4764_FC4F, g, 2);
    FoldPrefixByte(table, 0x4764_FC4F, g, 3);
    assert g[..4] == g;
  }

  /** Bytes 16 to 19 of the message move the register from 0xEAF2_7C41 to 0xABC5_178E. */
  lemma Bytes16To20(table: seq<bv32>)
    requires |table| == 256
    requires table[0x2E] == 0x8CC5_31F9 && table[0x86] == 0xA457_DC90 && table[0xD9] == 0xAB61_3A67 && table[0xEB] == 0x7AB9_0321
    ensures Fold(table, 0xEAF2_7C41, [0x6F, 0x6E, 0x64, 0x65]) == 0xABC5_178E
  {
    var g: seq<bv8> := [0x6F, 0x6E, 0x64, 0x65];
    assert g[..0] == [];
    FoldPrefixByte(table, 0xEAF2_7C41, g, 0);
    FoldPrefixByte(table, 0xEAF2_7C41, g, 1);
    FoldPrefixByte(table, 0xEAF2_7C41, g, 2);
    FoldPrefixByte(table, 0xEAF2_7C41, g, 3);
    assert g[..4] == g;
  }

  /** Bytes 20 to 23 of the message move the register from 0xABC5_178E to 0x1529_5F17. */
  lemma Bytes20To24(table: seq<bv32>)
    requires |table| == 256
    requires table[0x25] == 0x154C_9AC2 && table[0xA4] == 0x65D1_22B9 && table[0xD4] == 0x1449_76B4 && table[0xFC] == 0xBE2D_A0A5
    ensures Fold(table, 0xABC5_178E, [0x72, 0x66, 0x75, 0x6C]) == 0x1529_5F17
  {
    var g: seq<bv8> := [0x72, 0x66, 0x75, 0x6C];
    assert g[..0] == [];
    FoldPrefixByte(table, 0xABC5_178E, g, 0);
    FoldPrefixByte(table, 0xABC5_178E, g, 1);
    FoldPrefixByte(table, 0xABC5_178E, g, 2);
    FoldPrefixByte(table, 0xABC5_178E, g, 3);
    assert g[..4] == g;
  }

  /** Bytes 24 to 27 of the message move the register from 0x1529_5F17 to 0x9E99_4079. */
  lemma Bytes24To28(table: seq<bv32>)
    requires |table| == 256
    requires table[0x37] == 0xE429_2D5A && table[0x75] == 0x4469_4011 && table[0x79] == 0x092A_8FC1 && table[0xDC] == 0x9E90_2E7B
    ensures Fold(table, 0x1529_5F17, [0x20, 0x70, 0x6C, 0x61]) == 0x9E99_4079
  {
    var g: seq<bv8> := [0x20, 0x70, 0x6C, 0x61];
    assert g[..0] == [];
    FoldPrefixByte(table, 0x1529_5F17, g, 0);
    FoldPrefixByte(table, 0x1529_5F17, g, 1);
    FoldPrefixByte(table, 0x1529_5F17, g, 2);
    FoldPrefixByte(table, 0x1529_5F17, g, 3);
    assert g[..4] == g;
  }

  /** Bytes 28 to 31 of the message move the register from 0x9E99_4079 to 0xC775_0FBD. */
  lemma Bytes28To32(table: seq<bv32>)
    requires |table| == 256
    requires table[0x04] == 0xC79A_971F && table[0x1A] == 0x7BBC_EF57 && table[0x72] == 0x90A3_24FA && table[0xAC] == 0xEF08_7A76
    ensures Fold(table, 0x9E99_4079, [0x63, 0x65, 0x20, 0x74]) == 0xC775_0FBD
  {
    var g: seq<bv8> := [0x63, 0x65, 0x20, 0x74];
    assert g[..0] == [];
    FoldPrefixByte(table, 0x9E99_4079, g, 0);
    FoldPrefixByte(table, 0x9E99_4079, g, 1);
    FoldPrefixByte(table, 0x9E99_4079, g, 2);
    FoldPrefixByte(table, 0x9E99_4079, g, 3);
    assert g[..4] == g;
  }

  /** Bytes 32 to 35 of the message move the register from 0xC775_0FBD to 0x0438_5849. */
  lemma Bytes32To36(table: seq<bv32>)
    requires |table| == 256
    requires table[0x73] == 0x62C8_A7F9 && table[0x7F] == 0x2F8B_6829 && table[0xC4] == 0x0417_B1DB && table[0xD2] == 0x32E8_915C
    ensures Fold(table, 0xC775_0FBD, [0x6F, 0x20, 0x62, 0x65]) == 0x0438_5849
  {
    var g: seq<bv8> := [0x6F, 0x20, 0x62, 0x65];
    assert g[..0] == [];
    FoldPrefixByte(table, 0xC775_0FBD, g, 0);
    FoldPrefixByte(table, 0xC775_0FBD, g, 1);
    FoldPrefixByte(table, 0xC775_0FBD, g, 2);
    FoldPrefixByte(table, 0xC775_0FBD, g, 3);
    assert g[..4] == g;
  }

  /** Bytes 36 to 39 of the message move the register from 0x0438_5849 to 0x4B26_1061. */
  lemma Bytes36To40(table: seq<bv32>)
    requires |table| == 256
    requires table[0x2A] == 0x4B5F_A6E6 && table[0x67] == 0xB50C_F789 && table[0xF1] == 0x0105_EC76 && table[0xF8] == 0x79B7_37BA
    ensures Fold(table, 0x0438_5849, [0x2E, 0x20, 0x41, 0x74]) == 0x4B26_1061
  {
    var g: seq<bv8> := [0x2E, 0x20, 0x41, 0x74];
    assert g[..0] == [];
    FoldPrefixByte(table, 0x0438_5849, g, 0);
    FoldPrefixByte(table, 0x0438_5849, g, 1);
    FoldPrefixByte(table, 0x0438_5849, g, 2);
    FoldPrefixByte(table, 0x0438_5849, g, 3);
    assert g[..4] == g;
  }

  /** Bytes 40 to 43 of the message move the register from 0x4B26_1061 to 0x0640_A1BC. */
  lemma Bytes40To44(table: seq<bv32>)
    requires |table| == 256
    requires table[0x26] == 0x061C_6936 && table[0x41] == 0xB310_9EBF && table[0xC3] == 0xD0DD_D530 && table[0xED] == 0x5C18_E4C9
    ensures Fold(table, 0x4B26_1061, [0x20, 0x6C, 0x65, 0x61]) == 0x0640_A1BC
  {
    var g: seq<bv8> := [0x20, 0x6C, 0x65, 0x61];
    assert g[..0] == [];
    FoldPrefixByte(table, 0x4B26_1061, g, 0);
    FoldPrefixByte(table, 0x4B26_1061, g, 1);
    FoldPrefixByte(table, 0x4B26_1061, g, 2);
    FoldPrefixByte(table, 0x4B26_1061, g, 3);
    assert g[..4] == g;
  }

  /** Bytes 44 to 47 of the message move the register from 0x0640_A1BC to 0xF369_737F. */
  lemma Bytes44To48(table: seq<bv32>)
    requires |table| == 256
    requires table[0x35] == 0x0512_5DAD && table[0xCF] == 0x9D9E_1AE0 && table[0xD7] == 0x0719_8540 && table[0xF0] == 0xF36E_6F75
    ensures Fold(table, 0x0640_A1BC, [0x73, 0x74, 0x20, 0x75]) == 0xF369_737F
  {
    var g: seq<bv8> := [0x73, 0x74, 0x20, 0x75];
    assert g[..0] == [];
    FoldPrefixByte(table, 0x0640_A1BC, g, 0);
    FoldPrefixByte(table, 0x0640_A1BC, g, 1);
    FoldPrefixByte(table, 0x0640_A1BC, g, 2);
    FoldPrefixByte(table, 0x0640_A1BC, g, 3);
    assert g[..4] == g;
  }

  /** Bytes 48 to 51 of the message move the register from 0xF369_737F to 0x8C6A_BFDF. */
  lemma Bytes48To52(table: seq<bv32>)
    requires |table| == 256
    requires table[0x11] == 0xE235_446C && table[0x1D] == 0xAF76_8BBC && table[0x2E] == 0x8CC5_31F9 && table[0x6B] == 0xF84F_3859
    ensures Fold(table, 0xF369_737F, [0x6E, 0x74, 0x69, 0x6C]) == 0x8C6A_BFDF
  {
    var g: seq<bv8> := [0x6E, 0x74, 0x69, 0x6C];
    assert g[..0] == [];
    FoldPrefixByte(table, 0xF369_737F, g, 0);
    FoldPrefixByte(table, 0xF369_737F, g, 1);
    FoldPrefixByte(table, 0xF369_737F, g, 2);
    FoldPrefixByte(table, 0xF369_737F, g, 3);
    assert g[..4] == g;
  }

  /** Bytes 52 to 55 of the message move the register from 0x8C6A_BFDF to 0x0D62_15B9. */
  lemma Bytes52To56(table: seq<bv32>)
    requires |table| == 256
    requires table[0x8D] == 0x3DDE_77AB && table[0xBD] == 0x0D3D_3E1A && table[0xFE] == 0x5F16_D052 && table[0xFF] == 0xAD7D_5351
    ensures Fold(table, 0x8C6A_BFDF, [0x20, 0x63, 0x6C, 0x69]) == 0x0D62_15B9
  {
    var g: seq<bv8> := [0x20, 0x63, 0x6C, 0x69];
    assert g[..0] == [];
    FoldPrefixByte(table, 0x8C6A_BFDF, g, 0);
    FoldPrefixByte(table, 0x8C6A_BFDF, g, 1);
    FoldPrefixByte(table, 0x8C6A_BFDF, g, 2);
    FoldPrefixByte(table, 0x8C6A_BFDF, g, 3);
    assert g[..4] == g;
  }

  /** Bytes 56 to 59 of the message move the register from 0x0D62_15B9 to 0x1E08_DF55. */
  lemma Bytes56To60(table: seq<bv32>)
    requires |table| == 256
    requires table[0xA4] == 0x65D1_22B9 && table[0xBE] == 0x1E6D_CDEE && table[0xC0] == 0xC38D_26C4 && table[0xD4] == 0x1449_76B4
    ensures Fold(table, 0x0D62_15B9, [0x6D, 0x61, 0x74, 0x65]) == 0x1E08_DF55
  {
    var g: seq<bv8> := [0x6D, 0x61, 0x74, 0x65];
    assert g[..0] == [];
    FoldPrefixByte(table, 0x0D62_15B9, g, 0);
    FoldPrefixByte(table, 0x0D62_15B9, g, 1);
    FoldPrefixByte(table, 0x0D62_15B9, g, 2);
    FoldPrefixByte(table, 0x0D62_15B9, g, 3);
    assert g[..4] == g;
  }

  /** Bytes 60 to 63 of the message move the register from 0x1E08_DF55 to 0x20D9_4737. */
  lemma Bytes60To64(table: seq<bv32>)
    requires |table| == 256
    requires table[0x20] == 0x20BD_8EDE && table[0x55] == 0x64D4_CECF && table[0x75] == 0x4469_4011 && table[0xAD] == 0x1D63_F975
    ensures Fold(table, 0x1E08_DF55, [0x20, 0x63, 0x68, 0x61]) == 0x20D9_4737
  {
    var g: seq<bv8> := [0x20, 0x63, 0x68, 0x61];
    assert g[..0] == [];
    FoldPrefixByte(table, 0x1E08_DF55, g, 0);
    FoldPrefixByte(table, 0x1E08_DF55, g, 1);
    FoldPrefixByte(table, 0x1E08_DF55, g, 2);
    FoldPrefixByte(table, 0x1E08_DF55, g, 3);
    assert g[..4] == g;
  }

  /** Bytes 64 to 67 of the message move the register from 0x20D9_4737 to 0xE094_968E. */
  lemma Bytes64To68(table: seq<bv32>)
    requires |table| == 256
    requires table[0x28] == 0xAA64_D611 && table[0x3F] == 0x6EF0_7595 && table[0x59] == 0x2997_011F && table[0xF3] == 0xE03E_9C81
    ensures Fold(table, 0x20D9_4737, [0x6E, 0x67, 0x65, 0x20]) == 0xE094_968E
  {
    var g: seq<bv8> := [0x6E, 0x67, 0x65, 0x20];
    assert g[..0] == [];
    FoldPrefixByte(table, 0x20D9_4737, g, 0);
    FoldPrefixByte(table, 0x20D9_4737, g, 1);
    FoldPrefixByte(table, 0x20D9_4737, g, 2);
    FoldPrefixByte(table, 0x20D9_4737, g, 3);
    assert g[..4] == g;
  }

  /** Bytes 68 to 71 of the message move the register from 0xE094_968E to 0xC80F_2A66. */
  lemma Bytes68To72(table: seq<bv32>)
    requires |table| == 256
    requires table[0x25] == 0x154C_9AC2 && table[0x51] == 0xA34E_59D0 && table[0x5B] == 0xC8AC_71E8 && table[0xE9] == 0x9B82_73D6
    ensures Fold(table, 0xE094_968E, [0x67, 0x65, 0x74, 0x73]) == 0xC80F_2A66
  {
    var g: seq<bv8> := [0x67, 0x65, 0x74, 0x73];
    assert g[..0] == [];
    FoldPrefixByte(table, 0xE094_968E, g, 0);
    FoldPrefixByte(table, 0xE094_968E, g, 1);
    FoldPrefixByte(table, 0xE094_968E, g, 2);
    FoldPrefixByte(table, 0xE094_968E, g, 3);
    assert g[..4] == g;
  }

  /** Bytes 72 to 75 of the message move the register from 0xC80F_2A66 to 0x3DD3_D37B. */
  lemma Bytes72To76(table: seq<bv32>)
    requires |table| == 256
    requires table[0x0B] == 0x9989_AB3B && table[0x46] == 0x67DA_FA54 && table[0x8D] == 0x3DDE_77AB && table[0xBD] == 0x0D3D_3E1A
    ensures Fold(table, 0xC80F_2A66, [0x20, 0x75, 0x73, 0x2E]) == 0x3DD3_D37B
  {
    var g: seq<bv8> := [0x20, 0x75, 0x73, 0x2E];
    assert g[..0] == [];
    FoldPrefixByte(table, 0xC80F_2A66, g, 0);
    FoldPrefixByte(table, 0xC80F_2A66, g, 1);
    FoldPrefixByte(table, 0xC80F_2A66, g, 2);
    FoldPrefixByte(table, 0xC80F_2A66, g, 3);
    assert g[..4] == g;
  }

  /** 6 of the CRC-32C table entries the message selects. */
  lemma Entries0()
    ensures Table()[0x04] == 0xC79A_971F
         && Table()[0x0A] == 0x6BE2_2838
         && Table()[0x0B] == 0x9989_AB3B
         && Table()[0x10] == 0x105E_C76F
         && Table()[0x11] == 0xE235_446C
         && Table()[0x13] == 0x030E_349B
  {
    TableAt(0x04);
    TableAt(0x0A);
    TableAt(0x0B);
    TableAt(0x10);
    TableAt(0x11);
    TableAt(0x13);
  }

  /** 6 of the CRC-32C table entries the message selects. */
  lemma Entries1()
    ensures Table()[0x1A] == 0x7BBC_EF57
         && Table()[0x1D] == 0xAF76_8BBC
         && Table()[0x20] == 0x20BD_8EDE
         && Table()[0x25] == 0x154C_9AC2
         && Table()[0x26] == 0x061C_6936
         && Table()[0x28] == 0xAA64_D611
  {
    TableAt(0x1A);
    TableAt(0x1D);
    TableAt(0x20);
    TableAt(0x25);
    TableAt(0x26);
    TableAt(0x28);
  }

  /** 6 of the CRC-32C table entries the message selects. */
  lemma Entries2()
    ensures Table()[0x2A] == 0x4B5F_A6E6
         && Table()[0x2C] == 0x6DFE_410E
         && Table()[0x2E] == 0x8CC5_31F9
         && Table()[0x35] == 0x0512_5DAD
         && Table()[0x37] == 0xE429_2D5A
         && Table()[0x3F] == 0x6EF0_7595
  {
    TableAt(0x2A);
    TableAt(0x2C);
    TableAt(0x2E);
    TableAt(0x35);
    TableAt(0x37);
    TableAt(0x3F);
  }

  /** 6 of the CRC-32C table entries the message selects. */
  lemma Entries3()
    ensures Table()[0x41] == 0xB310_9EBF
         && Table()[0x44] == 0x86E1_8AA3
         && Table()[0x46] == 0x67DA_FA54
         && Table()[0x51] == 0xA34E_59D0
         && Table()[0x55] == 0x64D4_CECF
         && Table()[0x59] == 0x2997_011F
  {
    TableAt(0x41);
    TableAt(0x44);
    TableAt(0x46);
    TableAt(0x51);
    TableAt(0x55);
    TableAt(0x59);
  }

  /** 6 of the CRC-32C table entries the message selects. */
  lemma Entries4()
    ensures Table()[0x5B] == 0xC8AC_71E8
         && Table()[0x66] == 0x4767_748A
         && Table()[0x67] == 0xB50C_F789
         && Table()[0x6B] == 0xF84F_3859
         && Table()[0x6F] == 0x3FD5_AF46
         && Table()[0x72] == 0x90A3_24FA
  {
    TableAt(0x5B);
    TableAt(0x66);
    TableAt(0x67);
    TableAt(0x6B);
    TableAt(0x6F);
    TableAt(0x72);
  }

  /** 6 of the CRC-32C table entries the message selects. */
  lemma Entries5()
    ensures Table()[0x73] == 0x62C8_A7F9
         && Table()[0x75] == 0x4469_4011
         && Table()[0x79] == 0x092A_8FC1
         && Table()[0x7A] == 0x1A7A_7C35
         && Table()[0x7B] == 0xE811_FF36
         && Table()[0x7F] == 0x2F8B_6829
  {
    TableAt(0x73);
    TableAt(0x75);
    TableAt(0x79);
    TableAt(0x7A);
    TableAt(0x7B);
    TableAt(0x7F);
  }

  /** 6 of the CRC-32C table entries the message selects. */
  lemma Entries6()
    ensures Table()[0x86] == 0xA457_DC90
         && Table()[0x8D] == 0x3DDE_77AB
         && Table()[0x99] == 0xEA1A_27DB
         && Table()[0xA4] == 0x65D1_22B9
         && Table()[0xAB] == 0x3BC2_1E9D
         && Table()[0xAC] == 0xEF08_7A76
  {
    TableAt(0x86);
    TableAt(0x8D);
    TableAt(0x99);
    TableAt(0xA4);
    TableAt(0xAB);
    TableAt(0xAC);
  }

  /** 6 of the CRC-32C table entries the message selects. */
  lemma Entries7()
    ensures Table()[0xAD] == 0x1D63_F975
         && Table()[0xAF] == 0xFC58_8982
         && Table()[0xBC] == 0xFF56_BD19
         && Table()[0xBD] == 0x0D3D_3E1A
         && Table()[0xBE] == 0x1E6D_CDEE
         && Table()[0xC0] == 0xC38D_26C4
  {
    TableAt(0xAD);
    TableAt(0xAF);
    TableAt(0xBC);
    TableAt(0xBD);
    TableAt(0xBE);
    TableAt(0xC0);
  }

  /** 6 of the CRC-32C table entries the message selects. */
  lemma Entries8()
    ensures Table()[0xC3] == 0xD0DD_D530
         && Table()[0xC4] == 0x0417_B1DB
         && Table()[0xCB] == 0x5A04_8DFF
         && Table()[0xCF] == 0x9D9E_1AE0
         && Table()[0xD2] == 0x32E8_915C
         && Table()[0xD4] == 0x1449_76B4
  {
    TableAt(0xC3);
    TableAt(0xC4);
    TableAt(0xCB);
    TableAt(0xCF);
    TableAt(0xD2);
    TableAt(0xD4);
  }

  /** 6 of the CRC-32C table entries the message selects. */
  lemma Entries9()
    ensures Table()[0xD7] == 0x0719_8540
         && Table()[0xD9] == 0xAB61_3A67
         && Table()[0xDB] == 0x4A5A_4A90
         && Table()[0xDC] == 0x9E90_2E7B
         && Table()[0xE9] == 0x9B82_73D6
         && Table()[0xEB] == 0x7AB9_0321
  {
    TableAt(0xD7);
    TableAt(0xD9);
    TableAt(0xDB);
    TableAt(0xDC);
    TableAt(0xE9);
    TableAt(0xEB);
  }

  /** 6 of the CRC-32C table entries the message selects. */
  lemma Entries10()
    ensures Table()[0xED] == 0x5C18_E4C9
         && Table()[0xF0] == 0xF36E_6F75
         && Table()[0xF1] == 0x0105_EC76
         && Table()[0xF3] == 0xE03E_9C81
         && Table()[0xF8] == 0x79B7_37BA
         && Table()[0xFC] == 0xBE2D_A0A5
  {
    TableAt(0xED);
    TableAt(0xF0);
    TableAt(0xF1);
    TableAt(0xF3);
    TableAt(0xF8);
    TableAt(0xFC);
  }

  /** 2 of the CRC-32C table entries the message selects. */
  lemma Entries11()
    ensures Table()[0xFE] == 0x5F16_D052
         && Table()[0xFF] == 0xAD7D_5351
  {
    TableAt(0xFE);
    TableAt(0xFF);
  }

  /** Over any table holding the entries the message selects, the register seeded with
      all ones ends at 0x3DD3D37B. */
  lemma MessageFold(table: seq<bv32>)
    requires |table| == 256
    requires table[0x04] == 0xC79A_971F && table[0x0A] == 0x6BE2_2838 && table[0x0B] == 0x9989_AB3B && table[0x10] == 0x105E_C76F
    requires table[0x11] == 0xE235_446C && table[0x13] == 0x030E_349B && table[0x1A] == 0x7BBC_EF57 && table[0x1D] == 0xAF76_8BBC
    requires table[0x20] == 0x20BD_8EDE && table[0x25] == 0x154C_9AC2 && table[0x26] == 0x061C_6936 && table[0x28] == 0xAA64_D611
    requires table[0x2A] == 0x4B5F_A6E6 && table[0x2C] == 0x6DFE_410E && table[0x2E] == 0x8CC5_31F9 && table[0x35] == 0x0512_5DAD
    requires table[0x37] == 0xE429_2D5A && table[0x3F] == 0x6EF0_7595 && table[0x41] == 0xB310_9EBF && table[0x44] == 0x86E1_8AA3
    requires table[0x46] == 0x67DA_FA54 && table[0x51] == 0xA34E_59D0 && table[0x55] == 0x64D4_CECF && table[0x59] == 0x2997_011F
    requires table[0x5B] == 0xC8AC_71E8 && table[0x66] == 0x4767_748A && table[0x67] == 0xB50C_F789 && table[0x6B] == 0xF84F_3859
    requires table[0x6F] == 0x3FD5_AF46 && table[0x72] == 0x90A3_24FA && table[0x73] == 0x62C8_A7F9 && table[0x75] == 0x4469_4011
    requires table[0x79] == 0x092A_8FC1 && table[0x7A] == 0x1A7A_7C35 && table[0x7B] == 0xE811_FF36 && table[0x7F] == 0x2F8B_6829
    requires table[0x86] == 0xA457_DC90 && table[0x8D] == 0x3DDE_77AB && table[0x99] == 0xEA1A_27DB && table[0xA4] == 0x65D1_22B9
    requires table[0xAB] == 0x3BC2_1E9D && table[0xAC] == 0xEF08_7A76 && table[0xAD] == 0x1D63_F975 && table[0xAF] == 0xFC58_8982
    requires table[0xBC] == 0xFF56_BD19 && table[0xBD] == 0x0D3D_3E1A && table[0xBE] == 0x1E6D_CDEE && table[0xC0] == 0xC38D_26C4
    requires table[0xC3] == 0xD0DD_D530 && table[0xC4] == 0x0417_B1DB && table[0xCB] == 0x5A04_8DFF && table[0xCF] == 0x9D9E_1AE0
    requires table[0xD2] == 0x32E8_915C && table[0xD4] == 0x1449_76B4 && table[0xD7] == 0x0719_8540 && table[0xD9] == 0xAB61_3A67
    requires table[0xDB] == 0x4A5A_4A90 && table[0xDC] == 0x9E90_2E7B && table[0xE9] == 0x9B82_73D6 && table[0xEB] == 0x7AB9_0321
    requires table[0xED] == 0x5C18_E4C9 && table[0xF0] == 0xF36E_6F75 && table[0xF1] == 0x0105_EC76 && table[0xF3] == 0xE03E_9C81
    requires table[0xF8] == 0x79B7_37BA && table[0xFC] == 0xBE2D_A0A5 && table[0xFE] == 0x5F16_D052 && table[0xFF] == 0xAD7D_5351
    ensures Fold(table, Seed, Message()) == 0x3DD3_D37B
  {
    Bytes0To4(table);
    assert Fold(table, Seed, []) == Seed;
    FoldConcat(table, Seed, [], [0x54, 0x68, 0x65, 0x20]);
    assert [] + [0x54, 0x68, 0x65, 0x20] == [0x54, 0x68, 0x65, 0x20];
    Bytes4To8(table);
    FoldConcat(table, Seed, [0x54, 0x68, 0x65, 0x20], [0x77, 0x6F, 0x72, 0x6C]);
    Bytes8To12(table);
    FoldConcat(table, Seed, [0x54, 0x68, 0x65, 0x20] + [0x77, 0x6F, 0x72, 0x6C], [0x64, 0x20, 0x69, 0x73]);
    Bytes12To16(table);
    FoldConcat(table, Seed, [0x54, 0x68, 0x65, 0x20] + [0x77, 0x6F, 0x72, 0x6C] + [0x64, 0x20, 0x69, 0x73], [0x20, 0x61, 0x20, 0x77]);
    Bytes16To20(table);
    FoldConcat(table, Seed, [0x54, 0x68, 0x65, 0x20] + [0x77, 0x6F, 0x72, 0x6C] + [0x64, 0x20, 0x69, 0x73] + [0x20, 0x61, 0x20, 0x77], [0x6F, 0x6E, 0x64, 0x65]);
    Bytes20To24(table);
    FoldConcat(table, Seed, [0x54, 0x68, 0x65, 0x20] + [0x77, 0x6F, 0x72, 0x6C] + [0x64, 0x20, 0x69, 0x73] + [0x20, 0x61, 0x20, 0x77] + [0x6F, 0x6E, 0x64, 0x65], [0x72, 0x66, 0x75, 0x6C]);
    Bytes24To28(table);
    FoldConcat(table, Seed, [0x54, 0x68, 0x65, 0x20] + [0x77, 0x6F, 0x72, 0x6C] + [0x64, 0x20, 0x69, 0x73] + [0x20, 0x61, 0x20, 0x77] + [0x6F, 0x6E, 0x64, 0x65] + [0x72, 0x66, 0x75, 0x6C], [0x20, 0x70, 0x6C, 0x61]);
    Bytes28To32(table);
    FoldConcat(table, Seed, [0x54, 0x68, 0x65, 0x20] + [0x77, 0x6F, 0x72, 0x6C] + [0x64, 0x20, 0x69, 0x73] + [0x20, 0x61, 0x20, 0x77] + [0x6F, 0x6E, 0x64, 0x65] + [0x72, 0x66, 0x75, 0x6C] + [0x20, 0x70, 0x6C, 0x61], [0x63, 0x65, 0x20, 0x74]);
    Bytes32To36(table);
    FoldConcat(table, Seed, [0x54, 0x68, 0x65, 0x20] + [0x77, 0x6F, 0x72, 0x6C] + [0x64, 0x20, 0x69, 0x73] + [0x20, 0x61, 0x20, 0x77] + [0x6F, 0x6E, 0x64, 0x65] + [0x72, 0x66, 0x75, 0x6C] + [0x20, 0x70, 0x6C, 0x61] + [0x63, 0x65, 0x20, 0x74], [0x6F, 0x20, 0x62, 0x65]);
    Bytes36To40(table);
    FoldConcat(table, Seed, [0x54, 0x68, 0x65, 0x20] + [0x77, 0x6F, 0x72, 0x6C] + [0x64, 0x20, 0x69, 0x73] + [0x20, 0x61, 0x20, 0x77] + [0x6F, 0x6E, 0x64, 0x65] + [0x72, 0x66, 0x75, 0x6C] + [0x20, 0x70, 0x6C, 0x61] + [0x63, 0x65, 0x20, 0x74] + [0x6F, 0x20, 0x62, 0x65], [0x2E, 0x20, 0x41, 0x74]);
    Bytes40To44(table);
    FoldConcat(table, Seed, [0x54, 0x68, 0x65, 0x20] + [0x77, 0x6F, 0x72, 0x6C] + [0x64, 0x20, 0x69, 0x73] + [0x20, 0x61, 0x20, 0x77] + [0x6F, 0x6E, 0x64, 0x65] + [0x72, 0x66, 0x75, 0x6C] + [0x20, 0x70, 0x6C, 0x61] + [0x63, 0x65, 0x20, 0x74] + [0x6F, 0x20, 0x62, 0x65] + [0x2E, 0x20, 0x41, 0x74], [0x20, 0x6C, 0x65, 0x61]);
    Bytes44To48(table);
    FoldConcat(table, Seed, [0x54, 0x68, 0x65, 0x20] + [0x77, 0x6F, 0x72, 0x6C] + [0x64, 0x20, 0x69, 0x73] + [0x20, 0x61, 0x20, 0x77] + [0x6F, 0x6E, 0x64, 0x65] + [0x72, 0x66, 0x75, 0x6C] + [0x20, 0x70, 0x6C, 0x61] + [0x63, 0x65, 0x20, 0x74] + [0x6F, 0x20, 0x62, 0x65] + [0x2E, 0x20, 0x41, 0x74] + [0x20, 0x6C, 0x65, 0x61], [0x73, 0x74, 0x20, 0x75]);
    Bytes48To52(table);
    FoldConcat(table, Seed, [0x54, 0x68, 0x65, 0x20] + [0x77, 0x6F, 0x72, 0x6C] + [0x64, 0x20, 0x69, 0x73] + [0x20, 0x61, 0x20, 0x77] + [0x6F, 0x6E, 0x64, 0x65] + [0x72, 0x66, 0x75, 0x6C] + [0x20, 0x70, 0x6C, 0x61] + [0x63, 0x65, 0x20, 0x74] + [0x6F, 0x20, 0x62, 0x65] + [0x2E, 0x20, 0x41, 0x74] + [0x20, 0x6C, 0x65, 0x61] + [0x73, 0x74, 0x20, 0x75], [0x6E, 0x74, 0x69, 0x6C]);
    Bytes52To56(table);
    FoldConcat(table, Seed, [0x54, 0x68, 0x65, 0x20] + [0x77, 0x6F, 0x72, 0x6C] + [0x64, 0x20, 0x69, 0x73] + [0x20, 0x61, 0x20, 0x77] + [0x6F, 0x6E, 0x64, 0x65] + [0x72, 0x66, 0x75, 0x6C] + [0x20, 0x70, 0x6C, 0x61] + [0x63, 0x65, 0x20, 0x74] + [0x6F, 0x20, 0x62, 0x65] + [0x2E, 0x20, 0x41, 0x74] + [0x20, 0x6C, 0x65, 0x61] + [0x73, 0x74, 0x20, 0x75] + [0x6E, 0x74, 0x69, 0x6C], [0x20, 0x63, 0x6C, 0x69]);
    Bytes56To60(table);
    FoldConcat(table, Seed, [0x54, 0x68, 0x65, 0x20] + [0x77, 0x6F, 0x72, 0x6C] + [0x64, 0x20, 0x69, 0x73] + [0x20, 0x61, 0x20, 0x77] + [0x6F, 0x6E, 0x64, 0x65] + [0x72, 0x66, 0x75, 0x6C] + [0x20, 0x70, 0x6C, 0x61] + [0x63, 0x65, 0x20, 0x74] + [0x6F, 0x20, 0x62, 0x65] + [0x2E, 0x20, 0x41, 0x74] + [0x20, 0x6C, 0x65, 0x61] + [0x73, 0x74, 0x20, 0x75] + [0x6E, 0x74, 0x69, 0x6C] + [0x20, 0x63, 0x6C, 0x69], [0x6D, 0x61, 0x74, 0x65]);
    Bytes60To64(table);
    FoldConcat(table, Seed, [0x54, 0x68, 0x65, 0x20] + [0x77, 0x6F, 0x72, 0x6C] + [0x64, 0x20, 0x69, 0x73] + [0x20, 0x61, 0x20, 0x77] + [0x6F, 0x6E, 0x64, 0x65] + [0x72, 0x66, 0x75, 0x6C] + [0x20, 0x70, 0x6C, 0x61] + [0x63, 0x65, 0x20, 0x74] + [0x6F, 0x20, 0x62, 0x65] + [0x2E, 0x20, 0x41, 0x74] + [0x20, 0x6C, 0x65, 0x61] + [0x73, 0x74, 0x20, 0x75] + [0x6E, 0x74, 0x69, 0x6C] + [0x20, 0x63, 0x6C, 0x69] + [0x6D, 0x61, 0x74, 0x65], [0x20, 0x63, 0x68, 0x61]);
    Bytes64To68(table);
    FoldConcat(table, Seed, [0x54, 0x68, 0x65, 0x20] + [0x77, 0x6F, 0x72, 0x6C] + [0x64, 0x20, 0x69, 0x73] + [0x20, 0x61, 0x20, 0x77] + [0x6F, 0x6E, 0x64, 0x65] + [0x72, 0x66, 0x75, 0x6C] + [0x20, 0x70, 0x6C, 0x61] + [0x63, 0x65, 0x20, 0x74] + [0x6F, 0x20, 0x62, 0x65] + [0x2E, 0x20, 0x41, 0x74] + [0x20, 0x6C, 0x65, 0x61] + [0x73, 0x74, 0x20, 0x75] + [0x6E, 0x74, 0x69, 0x6C] + [0x20, 0x63, 0x6C, 0x69] + [0x6D, 0x61, 0x74, 0x65] + [0x20, 0x63, 0x68, 0x61], [0x6E, 0x67, 0x65, 0x20]);
    Bytes68To72(table);
    FoldConcat(table, Seed, [0x54, 0x68, 0x65, 0x20] + [0x77, 0x6F, 0x72, 0x6C] + [0x64, 0x20, 0x69, 0x73] + [0x20, 0x61, 0x20, 0x77] + [0x6F, 0x6E, 0x64, 0x65] + [0x72, 0x66, 0x75, 0x6C] + [0x20, 0x70, 0x6C, 0x61] + [0x63, 0x65, 0x20, 0x74] + [0x6F, 0x20, 0x62, 0x65] + [0x2E, 0x20, 0x41, 0x74] + [0x20, 0x6C, 0x65, 0x61] + [0x73, 0x74, 0x20, 0x75] + [0x6E, 0x74, 0x69, 0x6C] + [0x20, 0x63, 0x6C, 0x69] + [0x6D, 0x61, 0x74, 0x65] + [0x20, 0x63, 0x68, 0x61] + [0x6E, 0x67, 0x65, 0x20], [0x67, 0x65, 0x74, 0x73]);
    Bytes72To76(table);
    FoldConcat(table, Seed, [0x54, 0x68, 0x65, 0x20] + [0x77, 0x6F, 0x72, 0x6C] + [0x64, 0x20, 0x69, 0x73] + [0x20, 0x61, 0x20, 0x77] + [0x6F, 0x6E, 0x64, 0x65] + [0x72, 0x66, 0x75, 0x6C] + [0x20, 0x70, 0x6C, 0x61] + [0x63, 0x65, 0x20, 0x74] + [0x6F, 0x20, 0x62, 0x65] + [0x2E, 0x20, 0x41, 0x74] + [0x20, 0x6C, 0x65, 0x61] + [0x73, 0x74, 0x20, 0x75] + [0x6E, 0x74, 0x69, 0x6C] + [0x20, 0x63, 0x6C, 0x69] + [0x6D, 0x61, 0x74, 0x65] + [0x20, 0x63, 0x68, 0x61] + [0x6E, 0x67, 0x65, 0x20] + [0x67, 0x65, 0x74, 0x73], [0x20, 0x75, 0x73, 0x2E]);
  }

  /** The message checksums to 0xC22C2C84. */
  lemma MessageChecksum()
    ensures Checksum(Message()) == 0xC22C_2C84
  {
    Entries0();
    Entries1();
    Entries2();
    Entries3();
    Entries4();
    Entries5();
    Entries6();
    Entries7();
    Entries8();
    Entries9();
    Entries10();
    Entries11();
    MessageFold(Table());
  }

  /** Over any copy of the CRC-32C table, the register seeded with all ones ends at
      0x3DD3D37B after the message, whose complement is 0xC22C2C84. */
  lemma MessageRegister(t: seq<bv32>)
    requires IsCrcTable(t)
    ensures Fold(t, Seed, Message()) == 0x3DD3_D37B
    ensures !Fold(t, Seed, Message()) == 0xC22C_2C84
  {
    CrcTableIsTable(t);
    Entries0();
    Entries1();
    Entries2();
    Entries3();
    Entries4();
    Entries5();
    Entries6();
    Entries7();
    Entries8();
    Entries9();
    Entries10();
    Entries11();
    MessageFold(t);
  }
}
