/** `CRC16_TABLE` of cocos/math/Math.cpp, and the fact that makes it a table of remainders. */
module Crc16Table {

  import opened ByteTables

  /** One step of the division, most significant bit first. */
  function Step(c: bv16): bv16 {
    if c & 0x8000 != 0 then (c << 1) ^ 0x1021 else c << 1
  }

  function Bits(c: bv16): bv16 {
    Step(Step(Step(Step(Step(Step(Step(Step(c))))))))
  }

  /** What is left of a byte that has gone through the register. */
  function Remainder(b: bv8): bv16 {
    Bits((b as bv16) << 8)
  }

  const ROW_0: seq<bv16> := [
    0x0000, 0x1021, 0x2042, 0x3063, 0x4084, 0x50a5, 0x60c6, 0x70e7,
    0x8108, 0x9129, 0xa14a, 0xb16b, 0xc18c, 0xd1ad, 0xe1ce, 0xf1ef
  ]
  const ROW_1: seq<bv16> := [
    0x1231, 0x0210, 0x3273, 0x2252, 0x52b5, 0x4294, 0x72f7, 0x62d6,
    0x9339, 0x8318, 0xb37b, 0xa35a, 0xd3bd, 0xc39c, 0xf3ff, 0xe3de
  ]
  const ROW_2: seq<bv16> := [
    0x2462, 0x3443, 0x0420, 0x1401, 0x64e6, 0x74c7, 0x44a4, 0x5485,
    0xa56a, 0xb54b, 0x8528, 0x9509, 0xe5ee, 0xf5cf, 0xc5ac, 0xd58d
  ]
  const ROW_3: seq<bv16> := [
    0x3653, 0x2672, 0x1611, 0x0630, 0x76d7, 0x66f6, 0x5695, 0x46b4,
    0xb75b, 0xa77a, 0x9719, 0x8738, 0xf7df, 0xe7fe, 0xd79d, 0xc7bc
  ]
  const ROW_4: seq<bv16> := [
    0x48c4, 0x58e5, 0x6886, 0x78a7, 0x0840, 0x1861, 0x2802, 0x3823,
    0xc9cc, 0xd9ed, 0xe98e, 0xf9af, 0x8948, 0x9969, 0xa90a, 0xb92b
  ]
  const ROW_5: seq<bv16> := [
    0x5af5, 0x4ad4, 0x7ab7, 0x6a96, 0x1a71, 0x0a50, 0x3a33, 0x2a12,
    0xdbfd, 0xcbdc, 0xfbbf, 0xeb9e, 0x9b79, 0x8b58, 0xbb3b, 0xab1a
  ]
  const ROW_6: seq<bv16> := [
    0x6ca6, 0x7c87, 0x4ce4, 0x5cc5, 0x2c22, 0x3c03, 0x0c60, 0x1c41,
    0xedae, 0xfd8f, 0xcdec, 0xddcd, 0xad2a, 0xbd0b, 0x8d68, 0x9d49
  ]
  const ROW_7: seq<bv16> := [
    0x7e97, 0x6eb6, 0x5ed5, 0x4ef4, 0x3e13, 0x2e32, 0x1e51, 0x0e70,
    0xff9f, 0xefbe, 0xdfdd, 0xcffc, 0xbf1b, 0xaf3a, 0x9f59, 0x8f78
  ]
  const ROW_8: seq<bv16> := [
    0x9188, 0x81a9, 0xb1ca, 0xa1eb, 0xd10c, 0xc12d, 0xf14e, 0xe16f,
    0x1080, 0x00a1, 0x30c2, 0x20e3, 0x5004, 0x4025, 0x7046, 0x6067
  ]
  const ROW_9: seq<bv16> := [
    0x83b9, 0x9398, 0xa3fb, 0xb3da, 0xc33d, 0xd31c, 0xe37f, 0xf35e,
    0x02b1, 0x1290, 0x22f3, 0x32d2, 0x4235, 0x5214, 0x6277, 0x7256
  ]
  const ROW_A: seq<bv16> := [
    0xb5ea, 0xa5cb, 0x95a8, 0x8589, 0xf56e, 0xe54f, 0xd52c, 0xc50d,
    0x34e2, 0x24c3, 0x14a0, 0x0481, 0x7466, 0x6447, 0x5424, 0x4405
  ]
  const ROW_B: seq<bv16> := [
    0xa7db, 0xb7fa, 0x8799, 0x97b8, 0xe75f, 0xf77e, 0xc71d, 0xd73c,
    0x26d3, 0x36f2, 0x0691, 0x16b0, 0x6657, 0x7676, 0x4615, 0x5634
  ]
  const ROW_C: seq<bv16> := [
    0xd94c, 0xc96d, 0xf90e, 0xe92f, 0x99c8, 0x89e9, 0xb98a, 0xa9ab,
    0x5844, 0x4865, 0x7806, 0x6827, 0x18c0, 0x08e1, 0x3882, 0x28a3
  ]
  const ROW_D: seq<bv16> := [
    0xcb7d, 0xdb5c, 0xeb3f, 0xfb1e, 0x8bf9, 0x9bd8, 0xabbb, 0xbb9a,
    0x4a75, 0x5a54, 0x6a37, 0x7a16, 0x0af1, 0x1ad0, 0x2ab3, 0x3a92
  ]
  const ROW_E: seq<bv16> := [
    0xfd2e, 0xed0f, 0xdd6c, 0xcd4d, 0xbdaa, 0xad8b, 0x9de8, 0x8dc9,
    0x7c26, 0x6c07, 0x5c64, 0x4c45, 0x3ca2, 0x2c83, 0x1ce0, 0x0cc1
  ]
  const ROW_F: seq<bv16> := [
    0xef1f, 0xff3e, 0xcf5d, 0xdf7c, 0xaf9b, 0xbfba, 0x8fd9, 0x9ff8,
    0x6e17, 0x7e36, 0x4e55, 0x5e74, 0x2e93, 0x3eb2, 0x0ed1, 0x1ef0
  ]

  const ROWS: seq<seq<bv16>> := [
    ROW_0, ROW_1, ROW_2, ROW_3, ROW_4, ROW_5, ROW_6, ROW_7,
    ROW_8, ROW_9, ROW_A, ROW_B, ROW_C, ROW_D, ROW_E, ROW_F
  ]
  const CRC16_TABLE: seq<bv16> := Flatten(ROWS)

  lemma Row0()
    ensures ROW_0 == RowOf(Remainder, 0x00)
  {}

  lemma Row1()
    ensures ROW_1 == RowOf(Remainder, 0x10)
  {}

  lemma Row2()
    ensures ROW_2 == RowOf(Remainder, 0x20)
  {}

  lemma Row3()
    ensures ROW_3 == RowOf(Remainder, 0x30)
  {}

  lemma Row4()
    ensures ROW_4 == RowOf(Remainder, 0x40)
  {}

  lemma Row5()
    ensures ROW_5 == RowOf(Remainder, 0x50)
  {}

  lemma Row6()
    ensures ROW_6 == RowOf(Remainder, 0x60)
  {}

  lemma Row7()
    ensures ROW_7 == RowOf(Remainder, 0x70)
  {}

  lemma Row8()
    ensures ROW_8 == RowOf(Remainder, 0x80)
  {}

  lemma Row9()
    ensures ROW_9 == RowOf(Remainder, 0x90)
  {}

  lemma RowA()
    ensures ROW_A == RowOf(Remainder, 0xA0)
  {}

  lemma RowB()
    ensures ROW_B == RowOf(Remainder, 0xB0)
  {}

  lemma RowC()
    ensures ROW_C == RowOf(Remainder, 0xC0)
  {}

  lemma RowD()
    ensures ROW_D == RowOf(Remainder, 0xD0)
  {}

  lemma RowE()
    ensures ROW_E == RowOf(Remainder, 0xE0)
  {}

  lemma RowF()
    ensures ROW_F == RowOf(Remainder, 0xF0)
  {}

  lemma Rows()
    ensures Tabulates(ROWS, Remainder)
  {
    Row0(); Row1(); Row2(); Row3();
    Row4(); Row5(); Row6(); Row7();
    Row8(); Row9(); RowA(); RowB();
    RowC(); RowD(); RowE(); RowF();
  }

  /** Every entry of the table is eight steps of the division applied to its index. */
  lemma TableIsRemainders(b: bv8)
    ensures b as int < |CRC16_TABLE| == 256
    ensures CRC16_TABLE[b as int] == Remainder(b)
  {
    Rows();
    TableAt(ROWS, Remainder, b);
  }
}
