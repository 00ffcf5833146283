/**
 The table of the boot downloader's checksum, with the generator x^16 + x^12 + x^5 + 1 of ITU-T
 V.41, section 2: each entry is what eight single-bit steps of the division produce.
 */
module CrcTable {
  // The generator without its leading term.
  const GENERATOR: bv16 := 0x1021

  function Xor(a: bv16, b: bv16): bv16 { a ^ b }

  /** Shifts one bit in. */
  function Push(reg: bv16, bit: bv16): bv16 { (reg << 1) | bit }

  /** One step of the division: shifts one bit in, and subtracts the generator if one falls out. */
  function Step(reg: bv16, bit: bv16): bv16 {
    Xor(Push(reg, bit), if reg & 0x8000 == 0 then 0 else GENERATOR)
  }

  /** Bit k of a byte, as a number. */
  function Bit(b: bv8, k: nat): bv16
    requires k < 8
  {
    ((b >> k) & 1) as bv16
  }

  function Four(reg: bv16, b0: bv16, b1: bv16, b2: bv16, b3: bv16): bv16 {
    Step(Step(Step(Step(reg, b0), b1), b2), b3)
  }

  /** Eight steps: a byte goes in, most significant bit first. */
  function StepByte(reg: bv16, b: bv8): bv16 {
    Four(Four(reg, Bit(b, 7), Bit(b, 6), Bit(b, 5), Bit(b, 4)), Bit(b, 3), Bit(b, 2), Bit(b, 1), Bit(b, 0))
  }

  /** What the upper byte of the register contributes to eight steps. */
  function Remainder(x: bv8): bv16 { StepByte((x as bv16) << 8, 0) }

  /** The rows of the table. */
  function Row(k: nat): (r: seq<bv16>)
    ensures |r| == 8
  {
    match k
    case 0 => [0x0000, 0x1021, 0x2042, 0x3063, 0x4084, 0x50a5, 0x60c6, 0x70e7]
    case 1 => [0x8108, 0x9129, 0xa14a, 0xb16b, 0xc18c, 0xd1ad, 0xe1ce, 0xf1ef]
    case 2 => [0x1231, 0x0210, 0x3273, 0x2252, 0x52b5, 0x4294, 0x72f7, 0x62d6]
    case 3 => [0x9339, 0x8318, 0xb37b, 0xa35a, 0xd3bd, 0xc39c, 0xf3ff, 0xe3de]
    case 4 => [0x2462, 0x3443, 0x0420, 0x1401, 0x64e6, 0x74c7, 0x44a4, 0x5485]
    case 5 => [0xa56a, 0xb54b, 0x8528, 0x9509, 0xe5ee, 0xf5cf, 0xc5ac, 0xd58d]
    case 6 => [0x3653, 0x2672, 0x1611, 0x0630, 0x76d7, 0x66f6, 0x5695, 0x46b4]
    case 7 => [0xb75b, 0xa77a, 0x9719, 0x8738, 0xf7df, 0xe7fe, 0xd79d, 0xc7bc]
    case 8 => [0x48c4, 0x58e5, 0x6886, 0x78a7, 0x0840, 0x1861, 0x2802, 0x3823]
    case 9 => [0xc9cc, 0xd9ed, 0xe98e, 0xf9af, 0x8948, 0x9969, 0xa90a, 0xb92b]
    case 10 => [0x5af5, 0x4ad4, 0x7ab7, 0x6a96, 0x1a71, 0x0a50, 0x3a33, 0x2a12]
    case 11 => [0xdbfd, 0xcbdc, 0xfbbf, 0xeb9e, 0x9b79, 0x8b58, 0xbb3b, 0xab1a]
    case 12 => [0x6ca6, 0x7c87, 0x4ce4, 0x5cc5, 0x2c22, 0x3c03, 0x0c60, 0x1c41]
    case 13 => [0xedae, 0xfd8f, 0xcdec, 0xddcd, 0xad2a, 0xbd0b, 0x8d68, 0x9d49]
    case 14 => [0x7e97, 0x6eb6, 0x5ed5, 0x4ef4, 0x3e13, 0x2e32, 0x1e51, 0x0e70]
    case 15 => [0xff9f, 0xefbe, 0xdfdd, 0xcffc, 0xbf1b, 0xaf3a, 0x9f59, 0x8f78]
    case 16 => [0x9188, 0x81a9, 0xb1ca, 0xa1eb, 0xd10c, 0xc12d, 0xf14e, 0xe16f]
    case 17 => [0x1080, 0x00a1, 0x30c2, 0x20e3, 0x5004, 0x4025, 0x7046, 0x6067]
    case 18 => [0x83b9, 0x9398, 0xa3fb, 0xb3da, 0xc33d, 0xd31c, 0xe37f, 0xf35e]
    case 19 => [0x02b1, 0x1290, 0x22f3, 0x32d2, 0x4235, 0x5214, 0x6277, 0x7256]
    case 20 => [0xb5ea, 0xa5cb, 0x95a8, 0x8589, 0xf56e, 0xe54f, 0xd52c, 0xc50d]
    case 21 => [0x34e2, 0x24c3, 0x14a0, 0x0481, 0x7466, 0x6447, 0x5424, 0x4405]
    case 22 => [0xa7db, 0xb7fa, 0x8799, 0x97b8, 0xe75f, 0xf77e, 0xc71d, 0xd73c]
    case 23 => [0x26d3, 0x36f2, 0x0691, 0x16b0, 0x6657, 0x7676, 0x4615, 0x5634]
    case 24 => [0xd94c, 0xc96d, 0xf90e, 0xe92f, 0x99c8, 0x89e9, 0xb98a, 0xa9ab]
    case 25 => [0x5844, 0x4865, 0x7806, 0x6827, 0x18c0, 0x08e1, 0x3882, 0x28a3]
    case 26 => [0xcb7d, 0xdb5c, 0xeb3f, 0xfb1e, 0x8bf9, 0x9bd8, 0xabbb, 0xbb9a]
    case 27 => [0x4a75, 0x5a54, 0x6a37, 0x7a16, 0x0af1, 0x1ad0, 0x2ab3, 0x3a92]
    case 28 => [0xfd2e, 0xed0f, 0xdd6c, 0xcd4d, 0xbdaa, 0xad8b, 0x9de8, 0x8dc9]
    case 29 => [0x7c26, 0x6c07, 0x5c64, 0x4c45, 0x3ca2, 0x2c83, 0x1ce0, 0x0cc1]
    case 30 => [0xef1f, 0xff3e, 0xcf5d, 0xdf7c, 0xaf9b, 0xbfba, 0x8fd9, 0x9ff8]
    case _ => [0x6e17, 0x7e36, 0x4e55, 0x5e74, 0x2e93, 0x3eb2, 0x0ed1, 0x1ef0]
  }

  /** The table, indexed by a byte. */
  function Table(x: bv8): bv16 { Row((x >> 3) as nat)[(x & 7) as nat] }

  lemma Octet(j: bv8)
    requires j < 8
    ensures j == 0 || j == 1 || j == 2 || j == 3 || j == 4 || j == 5 || j == 6 || j == 7
  {
  }

  /** The eight entries from `base` on. */
  function Entries(base: bv8): seq<bv16> {
    [Remainder(base), Remainder(base | 1), Remainder(base | 2), Remainder(base | 3),
     Remainder(base | 4), Remainder(base | 5), Remainder(base | 6), Remainder(base | 7)]
  }

  lemma Pick(x: bv8, base: bv8)
    requires x & 0xf8 == base
    ensures Entries(base)[(x & 7) as nat] == Remainder(x)
  {
    var j := x & 7;
    assert x == base | j;
    hide Remainder, StepByte;
    Octet(j);
  }

  lemma Block0(x: bv8)
    requires x >> 4 == 0
    ensures Table(x) == Remainder(x)
  {
    assert Row(0) == Entries(0x00) && Row(1) == Entries(0x08);
    hide Remainder, Entries, Row;
    if x >> 3 == 0 {
      Pick(x, 0x00);
    } else {
      Pick(x, 0x08);
    }
  }

  lemma Block1(x: bv8)
    requires x >> 4 == 1
    ensures Table(x) == Remainder(x)
  {
    assert Row(2) == Entries(0x10) && Row(3) == Entries(0x18);
    hide Remainder, Entries, Row;
    if x >> 3 == 2 {
      Pick(x, 0x10);
    } else {
      Pick(x, 0x18);
    }
  }

  lemma Block2(x: bv8)
    requires x >> 4 == 2
    ensures Table(x) == Remainder(x)
  {
    assert Row(4) == Entries(0x20) && Row(5) == Entries(0x28);
    hide Remainder, Entries, Row;
    if x >> 3 == 4 {
      Pick(x, 0x20);
    } else {
      Pick(x, 0x28);
    }
  }

  lemma Block3(x: bv8)
    requires x >> 4 == 3
    ensures Table(x) == Remainder(x)
  {
    assert Row(6) == Entries(0x30) && Row(7) == Entries(0x38);
    hide Remainder, Entries, Row;
    if x >> 3 == 6 {
      Pick(x, 0x30);
    } else {
      Pick(x, 0x38);
    }
  }

  lemma Block4(x: bv8)
    requires x >> 4 == 4
    ensures Table(x) == Remainder(x)
  {
    assert Row(8) == Entries(0x40) && Row(9) == Entries(0x48);
    hide Remainder, Entries, Row;
    if x >> 3 == 8 {
      Pick(x, 0x40);
    } else {
      Pick(x, 0x48);
    }
  }

  lemma Block5(x: bv8)
    requires x >> 4 == 5
    ensures Table(x) == Remainder(x)
  {
    assert Row(10) == Entries(0x50) && Row(11) == Entries(0x58);
    hide Remainder, Entries, Row;
    if x >> 3 == 10 {
      Pick(x, 0x50);
    } else {
      Pick(x, 0x58);
    }
  }

  lemma Block6(x: bv8)
    requires x >> 4 == 6
    ensures Table(x) == Remainder(x)
  {
    assert Row(12) == Entries(0x60) && Row(13) == Entries(0x68);
    hide Remainder, Entries, Row;
    if x >> 3 == 12 {
      Pick(x, 0x60);
    } else {
      Pick(x, 0x68);
    }
  }

  lemma Block7(x: bv8)
    requires x >> 4 == 7
    ensures Table(x) == Remainder(x)
  {
    assert Row(14) == Entries(0x70) && Row(15) == Entries(0x78);
    hide Remainder, Entries, Row;
    if x >> 3 == 14 {
      Pick(x, 0x70);
    } else {
      Pick(x, 0x78);
    }
  }

  lemma Block8(x: bv8)
    requires x >> 4 == 8
    ensures Table(x) == Remainder(x)
  {
    assert Row(16) == Entries(0x80) && Row(17) == Entries(0x88);
    hide Remainder, Entries, Row;
    if x >> 3 == 16 {
      Pick(x, 0x80);
    } else {
      Pick(x, 0x88);
    }
  }

  lemma Block9(x: bv8)
    requires x >> 4 == 9
    ensures Table(x) == Remainder(x)
  {
    assert Row(18) == Entries(0x90) && Row(19) == Entries(0x98);
    hide Remainder, Entries, Row;
    if x >> 3 == 18 {
      Pick(x, 0x90);
    } else {
      Pick(x, 0x98);
    }
  }

  lemma Block10(x: bv8)
    requires x >> 4 == 10
    ensures Table(x) == Remainder(x)
  {
    assert Row(20) == Entries(0xa0) && Row(21) == Entries(0xa8);
    hide Remainder, Entries, Row;
    if x >> 3 == 20 {
      Pick(x, 0xa0);
    } else {
      Pick(x, 0xa8);
    }
  }

  lemma Block11(x: bv8)
    requires x >> 4 == 11
    ensures Table(x) == Remainder(x)
  {
    assert Row(22) == Entries(0xb0) && Row(23) == Entries(0xb8);
    hide Remainder, Entries, Row;
    if x >> 3 == 22 {
      Pick(x, 0xb0);
    } else {
      Pick(x, 0xb8);
    }
  }

  lemma Block12(x: bv8)
    requires x >> 4 == 12
    ensures Table(x) == Remainder(x)
  {
    assert Row(24) == Entries(0xc0) && Row(25) == Entries(0xc8);
    hide Remainder, Entries, Row;
    if x >> 3 == 24 {
      Pick(x, 0xc0);
    } else {
      Pick(x, 0xc8);
    }
  }

  lemma Block13(x: bv8)
    requires x >> 4 == 13
    ensures Table(x) == Remainder(x)
  {
    assert Row(26) == Entries(0xd0) && Row(27) == Entries(0xd8);
    hide Remainder, Entries, Row;
    if x >> 3 == 26 {
      Pick(x, 0xd0);
    } else {
      Pick(x, 0xd8);
    }
  }

  lemma Block14(x: bv8)
    requires x >> 4 == 14
    ensures Table(x) == Remainder(x)
  {
    assert Row(28) == Entries(0xe0) && Row(29) == Entries(0xe8);
    hide Remainder, Entries, Row;
    if x >> 3 == 28 {
      Pick(x, 0xe0);
    } else {
      Pick(x, 0xe8);
    }
  }

  lemma Block15(x: bv8)
    requires x >> 4 == 15
    ensures Table(x) == Remainder(x)
  {
    assert Row(30) == Entries(0xf0) && Row(31) == Entries(0xf8);
    hide Remainder, Entries, Row;
    if x >> 3 == 30 {
      Pick(x, 0xf0);
    } else {
      Pick(x, 0xf8);
    }
  }

  /** Every entry of the table is the result of eight steps. */
  lemma TableIsDivision(x: bv8)
    ensures Table(x) == Remainder(x)
  {
    var k := x >> 4;
    hide Table, Remainder;
    if k == 0 {
      Block0(x);
    } else if k == 1 {
      Block1(x);
    } else if k == 2 {
      Block2(x);
    } else if k == 3 {
      Block3(x);
    } else if k == 4 {
      Block4(x);
    } else if k == 5 {
      Block5(x);
    } else if k == 6 {
      Block6(x);
    } else if k == 7 {
      Block7(x);
    } else if k == 8 {
      Block8(x);
    } else if k == 9 {
      Block9(x);
    } else if k == 10 {
      Block10(x);
    } else if k == 11 {
      Block11(x);
    } else if k == 12 {
      Block12(x);
    } else if k == 13 {
      Block13(x);
    } else if k == 14 {
      Block14(x);
    } else {
      Block15(x);
    }
  }
}
