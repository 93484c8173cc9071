/**
 * The XBB frame: A5 33 | sub-index 0x0000 | data length 80 (both big-endian) |
 * 20 big-endian int32 values | B5 | CRC-8, where the CRC-8 (polynomial 0x07,
 * initial value 0, table driven) covers every byte before it.
 */
module XbbProtocol {
  import opened Wrappers
  import opened Bytes
  import opened BigEndianPack
  import opened Text

  const Header: byte := 0xA5
  const MsgId: byte := 0x33
  const Footer: byte := 0xB5
  const SubIndex: nat := 0x0000
  const DataLength: nat := 80
  const NumCells: nat := 16

  // The shipped lookup table, eight entries per row as in the source.
  const TableRow0: seq<byte> := [0x00, 0x07, 0x0E, 0x09, 0x1C, 0x1B, 0x12, 0x15]
  const TableRow1: seq<byte> := [0x38, 0x3F, 0x36, 0x31, 0x24, 0x23, 0x2A, 0x2D]
  const TableRow2: seq<byte> := [0x70, 0x77, 0x7E, 0x79, 0x6C, 0x6B, 0x62, 0x65]
  const TableRow3: seq<byte> := [0x48, 0x4F, 0x46, 0x41, 0x54, 0x53, 0x5A, 0x5D]
  const TableRow4: seq<byte> := [0xE0, 0xE7, 0xEE, 0xE9, 0xFC, 0xFB, 0xF2, 0xF5]
  const TableRow5: seq<byte> := [0xD8, 0xDF, 0xD6, 0xD1, 0xC4, 0xC3, 0xCA, 0xCD]
  const TableRow6: seq<byte> := [0x90, 0x97, 0x9E, 0x99, 0x8C, 0x8B, 0x82, 0x85]
  const TableRow7: seq<byte> := [0xA8, 0xAF, 0xA6, 0xA1, 0xB4, 0xB3, 0xBA, 0xBD]
  const TableRow8: seq<byte> := [0xC7, 0xC0, 0xC9, 0xCE, 0xDB, 0xDC, 0xD5, 0xD2]
  const TableRow9: seq<byte> := [0xFF, 0xF8, 0xF1, 0xF6, 0xE3, 0xE4, 0xED, 0xEA]
  const TableRow10: seq<byte> := [0xB7, 0xB0, 0xB9, 0xBE, 0xAB, 0xAC, 0xA5, 0xA2]
  const TableRow11: seq<byte> := [0x8F, 0x88, 0x81, 0x86, 0x93, 0x94, 0x9D, 0x9A]
  const TableRow12: seq<byte> := [0x27, 0x20, 0x29, 0x2E, 0x3B, 0x3C, 0x35, 0x32]
  const TableRow13: seq<byte> := [0x1F, 0x18, 0x11, 0x16, 0x03, 0x04, 0x0D, 0x0A]
  const TableRow14: seq<byte> := [0x57, 0x50, 0x59, 0x5E, 0x4B, 0x4C, 0x45, 0x42]
  const TableRow15: seq<byte> := [0x6F, 0x68, 0x61, 0x66, 0x73, 0x74, 0x7D, 0x7A]
  const TableRow16: seq<byte> := [0x89, 0x8E, 0x87, 0x80, 0x95, 0x92, 0x9B, 0x9C]
  const TableRow17: seq<byte> := [0xB1, 0xB6, 0xBF, 0xB8, 0xAD, 0xAA, 0xA3, 0xA4]
  const TableRow18: seq<byte> := [0xF9, 0xFE, 0xF7, 0xF0, 0xE5, 0xE2, 0xEB, 0xEC]
  const TableRow19: seq<byte> := [0xC1, 0xC6, 0xCF, 0xC8, 0xDD, 0xDA, 0xD3, 0xD4]
  const TableRow20: seq<byte> := [0x69, 0x6E, 0x67, 0x60, 0x75, 0x72, 0x7B, 0x7C]
  const TableRow21: seq<byte> := [0x51, 0x56, 0x5F, 0x58, 0x4D, 0x4A, 0x43, 0x44]
  const TableRow22: seq<byte> := [0x19, 0x1E, 0x17, 0x10, 0x05, 0x02, 0x0B, 0x0C]
  const TableRow23: seq<byte> := [0x21, 0x26, 0x2F, 0x28, 0x3D, 0x3A, 0x33, 0x34]
  const TableRow24: seq<byte> := [0x4E, 0x49, 0x40, 0x47, 0x52, 0x55, 0x5C, 0x5B]
  const TableRow25: seq<byte> := [0x76, 0x71, 0x78, 0x7F, 0x6A, 0x6D, 0x64, 0x63]
  const TableRow26: seq<byte> := [0x3E, 0x39, 0x30, 0x37, 0x22, 0x25, 0x2C, 0x2B]
  const TableRow27: seq<byte> := [0x06, 0x01, 0x08, 0x0F, 0x1A, 0x1D, 0x14, 0x13]
  const TableRow28: seq<byte> := [0xAE, 0xA9, 0xA0, 0xA7, 0xB2, 0xB5, 0xBC, 0xBB]
  const TableRow29: seq<byte> := [0x96, 0x91, 0x98, 0x9F, 0x8A, 0x8D, 0x84, 0x83]
  const TableRow30: seq<byte> := [0xDE, 0xD9, 0xD0, 0xD7, 0xC2, 0xC5, 0xCC, 0xCB]
  const TableRow31: seq<byte> := [0xE6, 0xE1, 0xE8, 0xEF, 0xFA, 0xFD, 0xF4, 0xF3]

  const CrcTableRows: seq<seq<byte>> := [
    TableRow0, TableRow1, TableRow2, TableRow3, TableRow4, TableRow5, TableRow6, TableRow7,
    TableRow8, TableRow9, TableRow10, TableRow11, TableRow12, TableRow13, TableRow14, TableRow15,
    TableRow16, TableRow17, TableRow18, TableRow19, TableRow20, TableRow21, TableRow22, TableRow23,
    TableRow24, TableRow25, TableRow26, TableRow27, TableRow28, TableRow29, TableRow30, TableRow31
  ]

  const CrcTable: seq<byte> := Flatten(CrcTableRows)

  /** One bitwise CRC-8 shift with polynomial 0x07. */
  function Shift8(c: bv8): bv8
  {
    if c & 0x80 != 0 then (c << 1) ^ 0x07 else c << 1
  }

  /** The register after eight shifts. */
  function EightShifts8(c: bv8): bv8
  {
    Shift8(Shift8(Shift8(Shift8(Shift8(Shift8(Shift8(Shift8(c))))))))
  }

  /** The table entry a CRC-8 with polynomial 0x07 needs: index i shifted through eight steps. */
  function TableEntry(i: nat): byte
    requires i < 256
  {
    EightShifts8(i as bv8) as int
  }

  /** The eight entries of row 0, each computed bit by bit. */
  lemma {:induction false} RowValues0()
    ensures TableEntry(0) == 0x00 && TableEntry(1) == 0x07 && TableEntry(2) == 0x0E && TableEntry(3) == 0x09
    ensures TableEntry(4) == 0x1C && TableEntry(5) == 0x1B && TableEntry(6) == 0x12 && TableEntry(7) == 0x15
  {
  }

  lemma {:induction false} RowMatches0(j: nat)
    requires j < 8
    ensures CrcTableRows[0][j] == TableEntry(0 + j)
  {
    RowValues0();
    assert CrcTableRows[0] == TableRow0;
    if j == 0 {
    } else if j == 1 {
    } else if j == 2 {
    } else if j == 3 {
    } else if j == 4 {
    } else if j == 5 {
    } else if j == 6 {
    } else {
    }
  }

  /** The eight entries of row 1, each computed bit by bit. */
  lemma {:induction false} RowValues1()
    ensures TableEntry(8) == 0x38 && TableEntry(9) == 0x3F && TableEntry(10) == 0x36 && TableEntry(11) == 0x31
    ensures TableEntry(12) == 0x24 && TableEntry(13) == 0x23 && TableEntry(14) == 0x2A && TableEntry(15) == 0x2D
  {
  }

  lemma {:induction false} RowMatches1(j: nat)
    requires j < 8
    ensures CrcTableRows[1][j] == TableEntry(8 + j)
  {
    RowValues1();
    assert CrcTableRows[1] == TableRow1;
    if j == 0 {
    } else if j == 1 {
    } else if j == 2 {
    } else if j == 3 {
    } else if j == 4 {
    } else if j == 5 {
    } else if j == 6 {
    } else {
    }
  }

  /** The eight entries of row 2, each computed bit by bit. */
  lemma {:induction false} RowValues2()
    ensures TableEntry(16) == 0x70 && TableEntry(17) == 0x77 && TableEntry(18) == 0x7E && TableEntry(19) == 0x79
    ensures TableEntry(20) == 0x6C && TableEntry(21) == 0x6B && TableEntry(22) == 0x62 && TableEntry(23) == 0x65
  {
  }

  lemma {:induction false} RowMatches2(j: nat)
    requires j < 8
    ensures CrcTableRows[2][j] == TableEntry(16 + j)
  {
    RowValues2();
    assert CrcTableRows[2] == TableRow2;
    if j == 0 {
    } else if j == 1 {
    } else if j == 2 {
    } else if j == 3 {
    } else if j == 4 {
    } else if j == 5 {
    } else if j == 6 {
    } else {
    }
  }

  /** The eight entries of row 3, each computed bit by bit. */
  lemma {:induction false} RowValues3()
    ensures TableEntry(24) == 0x48 && TableEntry(25) == 0x4F && TableEntry(26) == 0x46 && TableEntry(27) == 0x41
    ensures TableEntry(28) == 0x54 && TableEntry(29) == 0x53 && TableEntry(30) == 0x5A && TableEntry(31) == 0x5D
  {
  }

  lemma {:induction false} RowMatches3(j: nat)
    requires j < 8
    ensures CrcTableRows[3][j] == TableEntry(24 + j)
  {
    RowValues3();
    assert CrcTableRows[3] == TableRow3;
    if j == 0 {
    } else if j == 1 {
    } else if j == 2 {
    } else if j == 3 {
    } else if j == 4 {
    } else if j == 5 {
    } else if j == 6 {
    } else {
    }
  }

  /** The eight entries of row 4, each computed bit by bit. */
  lemma {:induction false} RowValues4()
    ensures TableEntry(32) == 0xE0 && TableEntry(33) == 0xE7 && TableEntry(34) == 0xEE && TableEntry(35) == 0xE9
    ensures TableEntry(36) == 0xFC && TableEntry(37) == 0xFB && TableEntry(38) == 0xF2 && TableEntry(39) == 0xF5
  {
  }

  lemma {:induction false} RowMatches4(j: nat)
    requires j < 8
    ensures CrcTableRows[4][j] == TableEntry(32 + j)
  {
    RowValues4();
    assert CrcTableRows[4] == TableRow4;
    if j == 0 {
    } else if j == 1 {
    } else if j == 2 {
    } else if j == 3 {
    } else if j == 4 {
    } else if j == 5 {
    } else if j == 6 {
    } else {
    }
  }

  /** The eight entries of row 5, each computed bit by bit. */
  lemma {:induction false} RowValues5()
    ensures TableEntry(40) == 0xD8 && TableEntry(41) == 0xDF && TableEntry(42) == 0xD6 && TableEntry(43) == 0xD1
    ensures TableEntry(44) == 0xC4 && TableEntry(45) == 0xC3 && TableEntry(46) == 0xCA && TableEntry(47) == 0xCD
  {
  }

  lemma {:induction false} RowMatches5(j: nat)
    requires j < 8
    ensures CrcTableRows[5][j] == TableEntry(40 + j)
  {
    RowValues5();
    assert CrcTableRows[5] == TableRow5;
    if j == 0 {
    } else if j == 1 {
    } else if j == 2 {
    } else if j == 3 {
    } else if j == 4 {
    } else if j == 5 {
    } else if j == 6 {
    } else {
    }
  }

  /** The eight entries of row 6, each computed bit by bit. */
  lemma {:induction false} RowValues6()
    ensures TableEntry(48) == 0x90 && TableEntry(49) == 0x97 && TableEntry(50) == 0x9E && TableEntry(51) == 0x99
    ensures TableEntry(52) == 0x8C && TableEntry(53) == 0x8B && TableEntry(54) == 0x82 && TableEntry(55) == 0x85
  {
  }

  lemma {:induction false} RowMatches6(j: nat)
    requires j < 8
    ensures CrcTableRows[6][j] == TableEntry(48 + j)
  {
    RowValues6();
    assert CrcTableRows[6] == TableRow6;
    if j == 0 {
    } else if j == 1 {
    } else if j == 2 {
    } else if j == 3 {
    } else if j == 4 {
    } else if j == 5 {
    } else if j == 6 {
    } else {
    }
  }

  /** The eight entries of row 7, each computed bit by bit. */
  lemma {:induction false} RowValues7()
    ensures TableEntry(56) == 0xA8 && TableEntry(57) == 0xAF && TableEntry(58) == 0xA6 && TableEntry(59) == 0xA1
    ensures TableEntry(60) == 0xB4 && TableEntry(61) == 0xB3 && TableEntry(62) == 0xBA && TableEntry(63) == 0xBD
  {
  }

  lemma {:induction false} RowMatches7(j: nat)
    requires j < 8
    ensures CrcTableRows[7][j] == TableEntry(56 + j)
  {
    RowValues7();
    assert CrcTableRows[7] == TableRow7;
    if j == 0 {
    } else if j == 1 {
    } else if j == 2 {
    } else if j == 3 {
    } else if j == 4 {
    } else if j == 5 {
    } else if j == 6 {
    } else {
    }
  }

  /** The eight entries of row 8, each computed bit by bit. */
  lemma {:induction false} RowValues8()
    ensures TableEntry(64) == 0xC7 && TableEntry(65) == 0xC0 && TableEntry(66) == 0xC9 && TableEntry(67) == 0xCE
    ensures TableEntry(68) == 0xDB && TableEntry(69) == 0xDC && TableEntry(70) == 0xD5 && TableEntry(71) == 0xD2
  {
  }

  lemma {:induction false} RowMatches8(j: nat)
    requires j < 8
    ensures CrcTableRows[8][j] == TableEntry(64 + j)
  {
    RowValues8();
    assert CrcTableRows[8] == TableRow8;
    if j == 0 {
    } else if j == 1 {
    } else if j == 2 {
    } else if j == 3 {
    } else if j == 4 {
    } else if j == 5 {
    } else if j == 6 {
    } else {
    }
  }

  /** The eight entries of row 9, each computed bit by bit. */
  lemma {:induction false} RowValues9()
    ensures TableEntry(72) == 0xFF && TableEntry(73) == 0xF8 && TableEntry(74) == 0xF1 && TableEntry(75) == 0xF6
    ensures TableEntry(76) == 0xE3 && TableEntry(77) == 0xE4 && TableEntry(78) == 0xED && TableEntry(79) == 0xEA
  {
  }

  lemma {:induction false} RowMatches9(j: nat)
    requires j < 8
    ensures CrcTableRows[9][j] == TableEntry(72 + j)
  {
    RowValues9();
    assert CrcTableRows[9] == TableRow9;
    if j == 0 {
    } else if j == 1 {
    } else if j == 2 {
    } else if j == 3 {
    } else if j == 4 {
    } else if j == 5 {
    } else if j == 6 {
    } else {
    }
  }

  /** The eight entries of row 10, each computed bit by bit. */
  lemma {:induction false} RowValues10()
    ensures TableEntry(80) == 0xB7 && TableEntry(81) == 0xB0 && TableEntry(82) == 0xB9 && TableEntry(83) == 0xBE
    ensures TableEntry(84) == 0xAB && TableEntry(85) == 0xAC && TableEntry(86) == 0xA5 && TableEntry(87) == 0xA2
  {
  }

  lemma {:induction false} RowMatches10(j: nat)
    requires j < 8
    ensures CrcTableRows[10][j] == TableEntry(80 + j)
  {
    RowValues10();
    assert CrcTableRows[10] == TableRow10;
    if j == 0 {
    } else if j == 1 {
    } else if j == 2 {
    } else if j == 3 {
    } else if j == 4 {
    } else if j == 5 {
    } else if j == 6 {
    } else {
    }
  }

  /** The eight entries of row 11, each computed bit by bit. */
  lemma {:induction false} RowValues11()
    ensures TableEntry(88) == 0x8F && TableEntry(89) == 0x88 && TableEntry(90) == 0x81 && TableEntry(91) == 0x86
    ensures TableEntry(92) == 0x93 && TableEntry(93) == 0x94 && TableEntry(94) == 0x9D && TableEntry(95) == 0x9A
  {
  }

  lemma {:induction false} RowMatches11(j: nat)
    requires j < 8
    ensures CrcTableRows[11][j] == TableEntry(88 + j)
  {
    RowValues11();
    assert CrcTableRows[11] == TableRow11;
    if j == 0 {
    } else if j == 1 {
    } else if j == 2 {
    } else if j == 3 {
    } else if j == 4 {
    } else if j == 5 {
    } else if j == 6 {
    } else {
    }
  }

  /** The eight entries of row 12, each computed bit by bit. */
  lemma {:induction false} RowValues12()
    ensures TableEntry(96) == 0x27 && TableEntry(97) == 0x20 && TableEntry(98) == 0x29 && TableEntry(99) == 0x2E
    ensures TableEntry(100) == 0x3B && TableEntry(101) == 0x3C && TableEntry(102) == 0x35 && TableEntry(103) == 0x32
  {
  }

  lemma {:induction false} RowMatches12(j: nat)
    requires j < 8
    ensures CrcTableRows[12][j] == TableEntry(96 + j)
  {
    RowValues12();
    assert CrcTableRows[12] == TableRow12;
    if j == 0 {
    } else if j == 1 {
    } else if j == 2 {
    } else if j == 3 {
    } else if j == 4 {
    } else if j == 5 {
    } else if j == 6 {
    } else {
    }
  }

  /** The eight entries of row 13, each computed bit by bit. */
  lemma {:induction false} RowValues13()
    ensures TableEntry(104) == 0x1F && TableEntry(105) == 0x18 && TableEntry(106) == 0x11 && TableEntry(107) == 0x16
    ensures TableEntry(108) == 0x03 && TableEntry(109) == 0x04 && TableEntry(110) == 0x0D && TableEntry(111) == 0x0A
  {
  }

  lemma {:induction false} RowMatches13(j: nat)
    requires j < 8
    ensures CrcTableRows[13][j] == TableEntry(104 + j)
  {
    RowValues13();
    assert CrcTableRows[13] == TableRow13;
    if j == 0 {
    } else if j == 1 {
    } else if j == 2 {
    } else if j == 3 {
    } else if j == 4 {
    } else if j == 5 {
    } else if j == 6 {
    } else {
    }
  }

  /** The eight entries of row 14, each computed bit by bit. */
  lemma {:induction false} RowValues14()
    ensures TableEntry(112) == 0x57 && TableEntry(113) == 0x50 && TableEntry(114) == 0x59 && TableEntry(115) == 0x5E
    ensures TableEntry(116) == 0x4B && TableEntry(117) == 0x4C && TableEntry(118) == 0x45 && TableEntry(119) == 0x42
  {
  }

  lemma {:induction false} RowMatches14(j: nat)
    requires j < 8
    ensures CrcTableRows[14][j] == TableEntry(112 + j)
  {
    RowValues14();
    assert CrcTableRows[14] == TableRow14;
    if j == 0 {
    } else if j == 1 {
    } else if j == 2 {
    } else if j == 3 {
    } else if j == 4 {
    } else if j == 5 {
    } else if j == 6 {
    } else {
    }
  }

  /** The eight entries of row 15, each computed bit by bit. */
  lemma {:induction false} RowValues15()
    ensures TableEntry(120) == 0x6F && TableEntry(121) == 0x68 && TableEntry(122) == 0x61 && TableEntry(123) == 0x66
    ensures TableEntry(124) == 0x73 && TableEntry(125) == 0x74 && TableEntry(126) == 0x7D && TableEntry(127) == 0x7A
  {
  }

  lemma {:induction false} RowMatches15(j: nat)
    requires j < 8
    ensures CrcTableRows[15][j] == TableEntry(120 + j)
  {
    RowValues15();
    assert CrcTableRows[15] == TableRow15;
    if j == 0 {
    } else if j == 1 {
    } else if j == 2 {
    } else if j == 3 {
    } else if j == 4 {
    } else if j == 5 {
    } else if j == 6 {
    } else {
    }
  }

  /** The eight entries of row 16, each computed bit by bit. */
  lemma {:induction false} RowValues16()
    ensures TableEntry(128) == 0x89 && TableEntry(129) == 0x8E && TableEntry(130) == 0x87 && TableEntry(131) == 0x80
    ensures TableEntry(132) == 0x95 && TableEntry(133) == 0x92 && TableEntry(134) == 0x9B && TableEntry(135) == 0x9C
  {
  }

  lemma {:induction false} RowMatches16(j: nat)
    requires j < 8
    ensures CrcTableRows[16][j] == TableEntry(128 + j)
  {
    RowValues16();
    assert CrcTableRows[16] == TableRow16;
    if j == 0 {
    } else if j == 1 {
    } else if j == 2 {
    } else if j == 3 {
    } else if j == 4 {
    } else if j == 5 {
    } else if j == 6 {
    } else {
    }
  }

  /** The eight entries of row 17, each computed bit by bit. */
  lemma {:induction false} RowValues17()
    ensures TableEntry(136) == 0xB1 && TableEntry(137) == 0xB6 && TableEntry(138) == 0xBF && TableEntry(139) == 0xB8
    ensures TableEntry(140) == 0xAD && TableEntry(141) == 0xAA && TableEntry(142) == 0xA3 && TableEntry(143) == 0xA4
  {
  }

  lemma {:induction false} RowMatches17(j: nat)
    requires j < 8
    ensures CrcTableRows[17][j] == TableEntry(136 + j)
  {
    RowValues17();
    assert CrcTableRows[17] == TableRow17;
    if j == 0 {
    } else if j == 1 {
    } else if j == 2 {
    } else if j == 3 {
    } else if j == 4 {
    } else if j == 5 {
    } else if j == 6 {
    } else {
    }
  }

  /** The eight entries of row 18, each computed bit by bit. */
  lemma {:induction false} RowValues18()
    ensures TableEntry(144) == 0xF9 && TableEntry(145) == 0xFE && TableEntry(146) == 0xF7 && TableEntry(147) == 0xF0
    ensures TableEntry(148) == 0xE5 && TableEntry(149) == 0xE2 && TableEntry(150) == 0xEB && TableEntry(151) == 0xEC
  {
  }

  lemma {:induction false} RowMatches18(j: nat)
    requires j < 8
    ensures CrcTableRows[18][j] == TableEntry(144 + j)
  {
    RowValues18();
    assert CrcTableRows[18] == TableRow18;
    if j == 0 {
    } else if j == 1 {
    } else if j == 2 {
    } else if j == 3 {
    } else if j == 4 {
    } else if j == 5 {
    } else if j == 6 {
    } else {
    }
  }

  /** The eight entries of row 19, each computed bit by bit. */
  lemma {:induction false} RowValues19()
    ensures TableEntry(152) == 0xC1 && TableEntry(153) == 0xC6 && TableEntry(154) == 0xCF && TableEntry(155) == 0xC8
    ensures TableEntry(156) == 0xDD && TableEntry(157) == 0xDA && TableEntry(158) == 0xD3 && TableEntry(159) == 0xD4
  {
  }

  lemma {:induction false} RowMatches19(j: nat)
    requires j < 8
    ensures CrcTableRows[19][j] == TableEntry(152 + j)
  {
    RowValues19();
    assert CrcTableRows[19] == TableRow19;
    if j == 0 {
    } else if j == 1 {
    } else if j == 2 {
    } else if j == 3 {
    } else if j == 4 {
    } else if j == 5 {
    } else if j == 6 {
    } else {
    }
  }

  /** The eight entries of row 20, each computed bit by bit. */
  lemma {:induction false} RowValues20()
    ensures TableEntry(160) == 0x69 && TableEntry(161) == 0x6E && TableEntry(162) == 0x67 && TableEntry(163) == 0x60
    ensures TableEntry(164) == 0x75 && TableEntry(165) == 0x72 && TableEntry(166) == 0x7B && TableEntry(167) == 0x7C
  {
  }

  lemma {:induction false} RowMatches20(j: nat)
    requires j < 8
    ensures CrcTableRows[20][j] == TableEntry(160 + j)
  {
    RowValues20();
    assert CrcTableRows[20] == TableRow20;
    if j == 0 {
    } else if j == 1 {
    } else if j == 2 {
    } else if j == 3 {
    } else if j == 4 {
    } else if j == 5 {
    } else if j == 6 {
    } else {
    }
  }

  /** The eight entries of row 21, each computed bit by bit. */
  lemma {:induction false} RowValues21()
    ensures TableEntry(168) == 0x51 && TableEntry(169) == 0x56 && TableEntry(170) == 0x5F && TableEntry(171) == 0x58
    ensures TableEntry(172) == 0x4D && TableEntry(173) == 0x4A && TableEntry(174) == 0x43 && TableEntry(175) == 0x44
  {
  }

  lemma {:induction false} RowMatches21(j: nat)
    requires j < 8
    ensures CrcTableRows[21][j] == TableEntry(168 + j)
  {
    RowValues21();
    assert CrcTableRows[21] == TableRow21;
    if j == 0 {
    } else if j == 1 {
    } else if j == 2 {
    } else if j == 3 {
    } else if j == 4 {
    } else if j == 5 {
    } else if j == 6 {
    } else {
    }
  }

  /** The eight entries of row 22, each computed bit by bit. */
  lemma {:induction false} RowValues22()
    ensures TableEntry(176) == 0x19 && TableEntry(177) == 0x1E && TableEntry(178) == 0x17 && TableEntry(179) == 0x10
    ensures TableEntry(180) == 0x05 && TableEntry(181) == 0x02 && TableEntry(182) == 0x0B && TableEntry(183) == 0x0C
  {
  }

  lemma {:induction false} RowMatches22(j: nat)
    requires j < 8
    ensures CrcTableRows[22][j] == TableEntry(176 + j)
  {
    RowValues22();
    assert CrcTableRows[22] == TableRow22;
    if j == 0 {
    } else if j == 1 {
    } else if j == 2 {
    } else if j == 3 {
    } else if j == 4 {
    } else if j == 5 {
    } else if j == 6 {
    } else {
    }
  }

  /** The eight entries of row 23, each computed bit by bit. */
  lemma {:induction false} RowValues23()
    ensures TableEntry(184) == 0x21 && TableEntry(185) == 0x26 && TableEntry(186) == 0x2F && TableEntry(187) == 0x28
    ensures TableEntry(188) == 0x3D && TableEntry(189) == 0x3A && TableEntry(190) == 0x33 && TableEntry(191) == 0x34
  {
  }

  lemma {:induction false} RowMatches23(j: nat)
    requires j < 8
    ensures CrcTableRows[23][j] == TableEntry(184 + j)
  {
    RowValues23();
    assert CrcTableRows[23] == TableRow23;
    if j == 0 {
    } else if j == 1 {
    } else if j == 2 {
    } else if j == 3 {
    } else if j == 4 {
    } else if j == 5 {
    } else if j == 6 {
    } else {
    }
  }

  /** The eight entries of row 24, each computed bit by bit. */
  lemma {:induction false} RowValues24()
    ensures TableEntry(192) == 0x4E && TableEntry(193) == 0x49 && TableEntry(194) == 0x40 && TableEntry(195) == 0x47
    ensures TableEntry(196) == 0x52 && TableEntry(197) == 0x55 && TableEntry(198) == 0x5C && TableEntry(199) == 0x5B
  {
  }

  lemma {:induction false} RowMatches24(j: nat)
    requires j < 8
    ensures CrcTableRows[24][j] == TableEntry(192 + j)
  {
    RowValues24();
    assert CrcTableRows[24] == TableRow24;
    if j == 0 {
    } else if j == 1 {
    } else if j == 2 {
    } else if j == 3 {
    } else if j == 4 {
    } else if j == 5 {
    } else if j == 6 {
    } else {
    }
  }

  /** The eight entries of row 25, each computed bit by bit. */
  lemma {:induction false} RowValues25()
    ensures TableEntry(200) == 0x76 && TableEntry(201) == 0x71 && TableEntry(202) == 0x78 && TableEntry(203) == 0x7F
    ensures TableEntry(204) == 0x6A && TableEntry(205) == 0x6D && TableEntry(206) == 0x64 && TableEntry(207) == 0x63
  {
  }

  lemma {:induction false} RowMatches25(j: nat)
    requires j < 8
    ensures CrcTableRows[25][j] == TableEntry(200 + j)
  {
    RowValues25();
    assert CrcTableRows[25] == TableRow25;
    if j == 0 {
    } else if j == 1 {
    } else if j == 2 {
    } else if j == 3 {
    } else if j == 4 {
    } else if j == 5 {
    } else if j == 6 {
    } else {
    }
  }

  /** The eight entries of row 26, each computed bit by bit. */
  lemma {:induction false} RowValues26()
    ensures TableEntry(208) == 0x3E && TableEntry(209) == 0x39 && TableEntry(210) == 0x30 && TableEntry(211) == 0x37
    ensures TableEntry(212) == 0x22 && TableEntry(213) == 0x25 && TableEntry(214) == 0x2C && TableEntry(215) == 0x2B
  {
  }

  lemma {:induction false} RowMatches26(j: nat)
    requires j < 8
    ensures CrcTableRows[26][j] == TableEntry(208 + j)
  {
    RowValues26();
    assert CrcTableRows[26] == TableRow26;
    if j == 0 {
    } else if j == 1 {
    } else if j == 2 {
    } else if j == 3 {
    } else if j == 4 {
    } else if j == 5 {
    } else if j == 6 {
    } else {
    }
  }

  /** The eight entries of row 27, each computed bit by bit. */
  lemma {:induction false} RowValues27()
    ensures TableEntry(216) == 0x06 && TableEntry(217) == 0x01 && TableEntry(218) == 0x08 && TableEntry(219) == 0x0F
    ensures TableEntry(220) == 0x1A && TableEntry(221) == 0x1D && TableEntry(222) == 0x14 && TableEntry(223) == 0x13
  {
  }

  lemma {:induction false} RowMatches27(j: nat)
    requires j < 8
    ensures CrcTableRows[27][j] == TableEntry(216 + j)
  {
    RowValues27();
    assert CrcTableRows[27] == TableRow27;
    if j == 0 {
    } else if j == 1 {
    } else if j == 2 {
    } else if j == 3 {
    } else if j == 4 {
    } else if j == 5 {
    } else if j == 6 {
    } else {
    }
  }

  /** The eight entries of row 28, each computed bit by bit. */
  lemma {:induction false} RowValues28()
    ensures TableEntry(224) == 0xAE && TableEntry(225) == 0xA9 && TableEntry(226) == 0xA0 && TableEntry(227) == 0xA7
    ensures TableEntry(228) == 0xB2 && TableEntry(229) == 0xB5 && TableEntry(230) == 0xBC && TableEntry(231) == 0xBB
  {
  }

  lemma {:induction false} RowMatches28(j: nat)
    requires j < 8
    ensures CrcTableRows[28][j] == TableEntry(224 + j)
  {
    RowValues28();
    assert CrcTableRows[28] == TableRow28;
    if j == 0 {
    } else if j == 1 {
    } else if j == 2 {
    } else if j == 3 {
    } else if j == 4 {
    } else if j == 5 {
    } else if j == 6 {
    } else {
    }
  }

  /** The eight entries of row 29, each computed bit by bit. */
  lemma {:induction false} RowValues29()
    ensures TableEntry(232) == 0x96 && TableEntry(233) == 0x91 && TableEntry(234) == 0x98 && TableEntry(235) == 0x9F
    ensures TableEntry(236) == 0x8A && TableEntry(237) == 0x8D && TableEntry(238) == 0x84 && TableEntry(239) == 0x83
  {
  }

  lemma {:induction false} RowMatches29(j: nat)
    requires j < 8
    ensures CrcTableRows[29][j] == TableEntry(232 + j)
  {
    RowValues29();
    assert CrcTableRows[29] == TableRow29;
    if j == 0 {
    } else if j == 1 {
    } else if j == 2 {
    } else if j == 3 {
    } else if j == 4 {
    } else if j == 5 {
    } else if j == 6 {
    } else {
    }
  }

  /** The eight entries of row 30, each computed bit by bit. */
  lemma {:induction false} RowValues30()
    ensures TableEntry(240) == 0xDE && TableEntry(241) == 0xD9 && TableEntry(242) == 0xD0 && TableEntry(243) == 0xD7
    ensures TableEntry(244) == 0xC2 && TableEntry(245) == 0xC5 && TableEntry(246) == 0xCC && TableEntry(247) == 0xCB
  {
  }

  lemma {:induction false} RowMatches30(j: nat)
    requires j < 8
    ensures CrcTableRows[30][j] == TableEntry(240 + j)
  {
    RowValues30();
    assert CrcTableRows[30] == TableRow30;
    if j == 0 {
    } else if j == 1 {
    } else if j == 2 {
    } else if j == 3 {
    } else if j == 4 {
    } else if j == 5 {
    } else if j == 6 {
    } else {
    }
  }

  /** The eight entries of row 31, each computed bit by bit. */
  lemma {:induction false} RowValues31()
    ensures TableEntry(248) == 0xE6 && TableEntry(249) == 0xE1 && TableEntry(250) == 0xE8 && TableEntry(251) == 0xEF
    ensures TableEntry(252) == 0xFA && TableEntry(253) == 0xFD && TableEntry(254) == 0xF4 && TableEntry(255) == 0xF3
  {
  }

  lemma {:induction false} RowMatches31(j: nat)
    requires j < 8
    ensures CrcTableRows[31][j] == TableEntry(248 + j)
  {
    RowValues31();
    assert CrcTableRows[31] == TableRow31;
    if j == 0 {
    } else if j == 1 {
    } else if j == 2 {
    } else if j == 3 {
    } else if j == 4 {
    } else if j == 5 {
    } else if j == 6 {
    } else {
    }
  }

  lemma {:induction false} RowGroupMatches0(r: nat, j: nat)
    requires 0 <= r < 8 && j < 8
    ensures CrcTableRows[r][j] == TableEntry(8 * r + j)
  {
    if r == 0 {
      RowMatches0(j);
    } else if r == 1 {
      RowMatches1(j);
    } else if r == 2 {
      RowMatches2(j);
    } else if r == 3 {
      RowMatches3(j);
    } else if r == 4 {
      RowMatches4(j);
    } else if r == 5 {
      RowMatches5(j);
    } else if r == 6 {
      RowMatches6(j);
    } else {
      RowMatches7(j);
    }
  }

  lemma {:induction false} RowGroupMatches1(r: nat, j: nat)
    requires 8 <= r < 16 && j < 8
    ensures CrcTableRows[r][j] == TableEntry(8 * r + j)
  {
    if r == 8 {
      RowMatches8(j);
    } else if r == 9 {
      RowMatches9(j);
    } else if r == 10 {
      RowMatches10(j);
    } else if r == 11 {
      RowMatches11(j);
    } else if r == 12 {
      RowMatches12(j);
    } else if r == 13 {
      RowMatches13(j);
    } else if r == 14 {
      RowMatches14(j);
    } else {
      RowMatches15(j);
    }
  }

  lemma {:induction false} RowGroupMatches2(r: nat, j: nat)
    requires 16 <= r < 24 && j < 8
    ensures CrcTableRows[r][j] == TableEntry(8 * r + j)
  {
    if r == 16 {
      RowMatches16(j);
    } else if r == 17 {
      RowMatches17(j);
    } else if r == 18 {
      RowMatches18(j);
    } else if r == 19 {
      RowMatches19(j);
    } else if r == 20 {
      RowMatches20(j);
    } else if r == 21 {
      RowMatches21(j);
    } else if r == 22 {
      RowMatches22(j);
    } else {
      RowMatches23(j);
    }
  }

  lemma {:induction false} RowGroupMatches3(r: nat, j: nat)
    requires 24 <= r < 32 && j < 8
    ensures CrcTableRows[r][j] == TableEntry(8 * r + j)
  {
    if r == 24 {
      RowMatches24(j);
    } else if r == 25 {
      RowMatches25(j);
    } else if r == 26 {
      RowMatches26(j);
    } else if r == 27 {
      RowMatches27(j);
    } else if r == 28 {
      RowMatches28(j);
    } else if r == 29 {
      RowMatches29(j);
    } else if r == 30 {
      RowMatches30(j);
    } else {
      RowMatches31(j);
    }
  }

  lemma {:induction false} RowMatches(r: nat, j: nat)
    requires r < 32 && j < 8
    ensures CrcTableRows[r][j] == TableEntry(8 * r + j)
  {
    if r < 8 {
      RowGroupMatches0(r, j);
    } else if r < 16 {
      RowGroupMatches1(r, j);
    } else if r < 24 {
      RowGroupMatches2(r, j);
    } else {
      RowGroupMatches3(r, j);
    }
  }

  /** Row r of the source's table occupies entries 8r .. 8r+7 of the flattened table. */
  lemma {:induction false} RowSlice(r: nat)
    requires r < 32
    ensures |CrcTable| == 256
    ensures CrcTable[8 * r..8 * r + 8] == CrcTableRows[r]
  {
    assert |CrcTableRows| == 32;
    assert forall k :: 0 <= k < 32 ==> |CrcTableRows[k]| == 8;
    assert r * 8 == 8 * r && (r + 1) * 8 == 8 * r + 8;
    FlattenUniform(CrcTableRows, 8, r);
  }

  lemma {:induction false} TableEntryAt(i: nat)
    requires i < 256
    ensures |CrcTable| == 256
    ensures CrcTable[i] == TableEntry(i)
  {
    var r, j := i / 8, i % 8;
    assert i == 8 * r + j;
    RowSlice(r);
    RowMatches(r, j);
    var row := CrcTable[8 * r..8 * r + 8];
    assert CrcTable[i] == row[j];
  }

  /** The shipped table is exactly the polynomial-0x07 table. */
  lemma {:induction false} TableIsPolynomial07()
    ensures |CrcTable| == 256
    ensures forall i :: 0 <= i < 256 ==> CrcTable[i] == TableEntry(i)
  {
    TableEntryAt(0);
    forall i | 0 <= i < 256
      ensures CrcTable[i] == TableEntry(i)
    {
      TableEntryAt(i);
    }
  }

  lemma {:induction false} TableLength()
    ensures |CrcTable| == 256
  {
    assert forall r :: 0 <= r < 32 ==> |CrcTableRows[r]| == 8;
    FlattenLength(CrcTableRows, 8);
  }

  function Xor(a: byte, b: byte): byte
  {
    ((a as bv8) ^ (b as bv8)) as int
  }

  /** The register after folding `data` in through a 256-entry `table`, starting from `val`. */
  function Fold(table: seq<byte>, data: seq<byte>, val: byte): byte
    requires |table| == 256
  {
    if |data| == 0 then val else Fold(table, data[1..], table[Xor(val, data[0])])
  }

  /** The CRC-8 register after folding `data` in through the shipped table, starting from `val`. */
  function Crc8(data: seq<byte>, val: byte): byte
  {
    TableLength();
    Fold(CrcTable, data, val)
  }

  /** The same CRC computed bit by bit: XOR the byte in, then shift eight times. */
  function Crc8Bitwise(data: seq<byte>, c: bv8): bv8
  {
    if |data| == 0 then c else Crc8Bitwise(data[1..], EightShifts8(c ^ (data[0] as bv8)))
  }

  lemma {:induction false} XorBits(a: byte, b: byte)
    ensures (Xor(a, b) as bv8) == (a as bv8) ^ (b as bv8)
  {
  }

  lemma {:induction false} ByteRoundTrip(c: bv8)
    ensures ((c as int) as bv8) == c
  {
  }

  /** Every entry of `table` is the one polynomial 0x07 gives. */
  ghost predicate IsPolynomial07Table(table: seq<byte>)
  {
    |table| == 256 && forall i :: 0 <= i < 256 ==> table[i] == TableEntry(i)
  }

  /** Folding through any polynomial-0x07 table computes the bitwise CRC-8. */
  lemma {:induction false} FoldIsBitwise(table: seq<byte>, data: seq<byte>, val: byte)
    requires IsPolynomial07Table(table)
    ensures Fold(table, data, val) as bv8 == Crc8Bitwise(data, val as bv8)
  {
    if |data| > 0 {
      var t := Xor(val, data[0]);
      var next := EightShifts8((val as bv8) ^ (data[0] as bv8));
      XorBits(val, data[0]);
      assert table[t] == next as int;
      ByteRoundTrip(next);
      FoldIsBitwise(table, data[1..], next as int);
    }
  }

  /** The lookup table computes the bitwise CRC-8 with polynomial 0x07. */
  lemma {:induction false} TableDrivenIsBitwise(data: seq<byte>, val: byte)
    ensures Crc8(data, val) as bv8 == Crc8Bitwise(data, val as bv8)
  {
    TableIsPolynomial07();
    FoldIsBitwise(CrcTable, data, val);
  }

  /** `xbb_generate_crc8`: start at 0 and replace the register by `CRC_TABLE[val ^ byte]` per byte. */
  method GenerateCrc8(data: seq<byte>) returns (val: byte)
    ensures val == Crc8(data, 0)
    ensures data == [] ==> val == 0
  {
    TableLength();
    val := 0;
    var i := 0;
    while i < |data|
      invariant 0 <= i <= |data|
      invariant Crc8(data[i..], val) == Crc8(data, 0)
    {
      assert data[i..][1..] == data[i + 1..];
      assert Fold(CrcTable, data[i..], val) == Fold(CrcTable, data[i + 1..], CrcTable[Xor(val, data[i])]);
      val := CrcTable[Xor(val, data[i])];
      i := i + 1;
    }
    assert data[i..] == [];
  }

  /** The 20 int32 payload values in wire order; the cells after `astype(np.int32)`. */
  function PayloadValues(packCurrentMa: int, packVoltageMv: int, tempCellMilliC: int, tempPcbMilliC: int,
                         cellVoltagesMv: seq<int>): (v: seq<int>)
    requires |cellVoltagesMv| == NumCells
    ensures |v| == 20
  {
    [packCurrentMa, packVoltageMv, tempCellMilliC, tempPcbMilliC]
      + seq(NumCells, i requires 0 <= i < NumCells => WrapSigned(cellVoltagesMv[i], 4))
  }

  /** The first n four-byte fields of `payload` read back as `values[..n]`. */
  ghost predicate FieldsAt(payload: seq<byte>, values: seq<int>, n: nat)
    requires n <= |values| && 4 * n <= |payload|
  {
    forall k :: 0 <= k < n ==> Signed(FromBE(payload[4 * k..4 * k + 4]), 4) == values[k]
  }

  lemma {:induction false} FieldsAppend(payload: seq<byte>, values: seq<int>, n: nat, field: seq<byte>)
    requires n < |values| && |payload| == 4 * n && |field| == 4
    requires FieldsAt(payload, values, n)
    requires Signed(FromBE(field), 4) == values[n]
    ensures FieldsAt(payload + field, values, n + 1)
  {
    var p := payload + field;
    assert p[4 * n..4 * n + 4] == field;
    assert p[..4 * n] == payload;
    forall k | 0 <= k < n + 1
      ensures Signed(FromBE(p[4 * k..4 * k + 4]), 4) == values[k]
    {
      if k < n {
        assert 4 * k + 4 <= 4 * n;
        assert p[4 * k..4 * k + 4] == p[..4 * n][4 * k..4 * k + 4];
      }
    }
  }

  lemma {:induction false} FrameFields(payload: seq<byte>, values: seq<int>, frame: seq<byte>)
    requires |payload| == 80 && |values| == 20 && FieldsAt(payload, values, 20)
    requires frame == [Header, MsgId] + BE(SubIndex, 2) + BE(DataLength, 2) + payload + [Footer]
    ensures |frame| == 87 && frame[..6] == [Header, MsgId, 0x00, 0x00, 0x00, 0x50] && frame[86] == Footer
    ensures forall k :: 0 <= k < 20 ==> Signed(FromBE(frame[6 + 4 * k..10 + 4 * k]), 4) == values[k]
  {
    assert BE(SubIndex, 2) == [0, 0];
    assert BE(DataLength, 2) == [0, 0x50];
    forall k | 0 <= k < 20
      ensures frame[6 + 4 * k..10 + 4 * k] == payload[4 * k..4 * k + 4]
    {
    }
  }

  /**
   * The data payload of `encode_frame`: the four leading values and the 16
   * cell voltages, each through `pack_int32_be`, in that order.
   */
  method EncodePayload(packCurrentMa: int, packVoltageMv: int, tempCellMilliC: int, tempPcbMilliC: int,
                       cellVoltagesMv: seq<int>) returns (r: Result<seq<byte>>)
    requires |cellVoltagesMv| == NumCells
    ensures r.Success? <==>
      && InSigned(packCurrentMa, 4) && InSigned(packVoltageMv, 4)
      && InSigned(tempCellMilliC, 4) && InSigned(tempPcbMilliC, 4)
    ensures r.Failure? ==> r.error.StructError?
    ensures r.Success? ==>
      && |r.value| == DataLength
      && FieldsAt(r.value, PayloadValues(packCurrentMa, packVoltageMv, tempCellMilliC, tempPcbMilliC, cellVoltagesMv), 20)
  {
    ghost var values := PayloadValues(packCurrentMa, packVoltageMv, tempCellMilliC, tempPcbMilliC, cellVoltagesMv);
    var cellsInt32 := seq(NumCells, i requires 0 <= i < NumCells => WrapSigned(cellVoltagesMv[i], 4));
    var payload: seq<byte> := [];
    var current :- PackInt32BE(packCurrentMa);
    FieldsAppend(payload, values, 0, current);
    payload := payload + current;
    var voltage :- PackInt32BE(packVoltageMv);
    FieldsAppend(payload, values, 1, voltage);
    payload := payload + voltage;
    var tempCell :- PackInt32BE(tempCellMilliC);
    FieldsAppend(payload, values, 2, tempCell);
    payload := payload + tempCell;
    var tempPcb :- PackInt32BE(tempPcbMilliC);
    FieldsAppend(payload, values, 3, tempPcb);
    payload := payload + tempPcb;
    for i := 0 to NumCells
      invariant |payload| == 16 + 4 * i
      invariant FieldsAt(payload, values, 4 + i)
    {
      var cell := PackInt32BE(cellsInt32[i]);
      assert cell.Success?;
      FieldsAppend(payload, values, 4 + i, cell.value);
      payload := payload + cell.value;
    }
    return Success(payload);
  }

  /**
   * `XBBFrameEncoder.encode_frame`, with both temperatures already converted
   * to integer milli-degrees Celsius: ValueError unless there are 16 cells,
   * struct.error when one of the four leading values does not fit int32.
   */
  method EncodeFrame(packCurrentMa: int, packVoltageMv: int, tempCellMilliC: int, tempPcbMilliC: int,
                     cellVoltagesMv: seq<int>) returns (r: Result<seq<byte>>)
    ensures |cellVoltagesMv| != NumCells ==>
      r == Failure(ValueError("cell_voltages_mv must have 16 elements, got " + Decimal(|cellVoltagesMv|)))
    ensures r.Success? <==>
      && |cellVoltagesMv| == NumCells
      && InSigned(packCurrentMa, 4) && InSigned(packVoltageMv, 4)
      && InSigned(tempCellMilliC, 4) && InSigned(tempPcbMilliC, 4)
    ensures r.Failure? && |cellVoltagesMv| == NumCells ==> r.error.StructError?
    ensures r.Success? ==>
      var f := r.value;
      && |f| == 88
      && f[..6] == [Header, MsgId, 0x00, 0x00, 0x00, 0x50]
      && f[86] == Footer
      && f[87] == Crc8(f[..87], 0)
      && forall k :: 0 <= k < 20 ==>
           Signed(FromBE(f[6 + 4 * k..10 + 4 * k]), 4)
             == PayloadValues(packCurrentMa, packVoltageMv, tempCellMilliC, tempPcbMilliC, cellVoltagesMv)[k]
  {
    if |cellVoltagesMv| != NumCells {
      return Failure(ValueError("cell_voltages_mv must have 16 elements, got " + Decimal(|cellVoltagesMv|)));
    }
    ghost var values := PayloadValues(packCurrentMa, packVoltageMv, tempCellMilliC, tempPcbMilliC, cellVoltagesMv);
    var payload :- EncodePayload(packCurrentMa, packVoltageMv, tempCellMilliC, tempPcbMilliC, cellVoltagesMv);
    // The length check that follows the payload in the source can never fail.
    assert |payload| == DataLength;
    var frame := [Header, MsgId] + BE(SubIndex, 2) + BE(DataLength, 2) + payload + [Footer];
    FrameFields(payload, values, frame);
    var crc := GenerateCrc8(frame);
    r := Success(frame + [crc]);
    assert r.value[..87] == frame;
    assert forall k :: 0 <= k < 20 ==> r.value[6 + 4 * k..10 + 4 * k] == frame[6 + 4 * k..10 + 4 * k];
  }
}
