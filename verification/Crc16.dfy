/** `CRC16` of cocos/math/Math.cpp against division of polynomials. */
module Crc16 {

  import opened Wrappers
  import opened PolynomialDivision
  import opened MessageBits
  import opened Crc16Table

  const LOWEST_FIRST := false

  // ---- The code ----

  lemma TableCoversBytes(x: bv8)
    ensures x as int < |CRC16_TABLE|
  {
    TableIsRemainders(x);
  }

  /** The entry of the table for the lowest byte of `y`. */
  function Looked(y: bv16): bv16 {
    TableCoversBytes((y & 0xFF) as bv8);
    CRC16_TABLE[(y & 0xFF) as bv8 as int]
  }

  function Updated(crc: bv16, b: bv8): bv16 {
    (crc << 8) ^ Looked((crc >> 8) ^ (b as bv16))
  }

  function Fed(crc: bv16, s: seq<bv8>): bv16
    decreases |s|
  {
    if s == [] then crc else Fed(Updated(crc, s[0]), s[1..])
  }

  // ---- The register as a list of coefficients, highest power first ----

  predicate Top(c: bv16) {
    c >> 15 == 1
  }

  function Doubled(c: bv16): bv16 {
    c << 1
  }

  /** The highest `n` bits of the register, the highest bit first. */
  function High(c: bv16, n: nat): (r: seq<bool>)
    ensures |r| == n
    decreases n
  {
    if n == 0 then [] else [Top(c)] + High(Doubled(c), n - 1)
  }

  const WIDTH: nat := 16

  function Coefficients(c: bv16): (r: seq<bool>)
    ensures |r| == 16
  {
    High(c, WIDTH)
  }

  const POLYNOMIAL: seq<bool> := Coefficients(0x1021)

  lemma XorBits(c: bv16, d: bv16)
    ensures Doubled(c ^ d) == Doubled(c) ^ Doubled(d)
    ensures (Top(c ^ d)) == (Top(c) != (Top(d)))
  {}

  lemma {:induction false} HighAdded(c: bv16, d: bv16, n: nat)
    ensures High(c ^ d, n) == AddAtFront(High(c, n), High(d, n))
    decreases n
  {
    if n > 0 {
      XorBits(c, d);
      HighAdded(Doubled(c), Doubled(d), n - 1);
      AddedCons(Top(c), High(Doubled(c), n - 1), Top(d), High(Doubled(d), n - 1));
    }
  }

  function Shl(c: bv16, n: nat): bv16
    decreases n
  {
    if n == 0 then c else Shl(Doubled(c), n - 1)
  }

  lemma {:induction false} ShlTwice(c: bv16, m: nat, n: nat)
    ensures Shl(c, m + n) == Shl(Shl(c, m), n)
    decreases m
  {
    if m > 0 {
      ShlTwice(Doubled(c), m - 1, n);
    }
  }

  lemma ShlByte(c: bv16)
    ensures Shl(c, 8) == c << 8
  {}

  lemma ShlSeven(c: bv16)
    ensures Shl(c, 7) == c << 7
  {}

  lemma ShlAll(c: bv16)
    ensures Shl(c, WIDTH) == 0
  {
    ShlTwice(c, 8, 8);
    ShlByte(c);
    ShlByte(c << 8);
  }

  lemma {:induction false} HighConcat(c: bv16, m: nat, n: nat)
    ensures High(c, m + n) == High(c, m) + High(Shl(c, m), n)
    decreases m
  {
    if m > 0 {
      HighConcat(Doubled(c), m - 1, n);
    }
  }

  lemma SameBits(c: bv16, d: bv16)
    requires Doubled(c) == Doubled(d) && Top(c) == Top(d)
    ensures c == d
  {}

  lemma {:induction false} HighIsInjective(c: bv16, d: bv16, n: nat)
    requires High(c, n) == High(d, n) && Shl(c, n) == Shl(d, n)
    ensures c == d
    decreases n
  {
    if n > 0 {
      assert High(c, n)[0] == High(d, n)[0] && High(c, n)[1..] == High(d, n)[1..];
      HighIsInjective(Doubled(c), Doubled(d), n - 1);
      SameBits(c, d);
    }
  }

  lemma CoefficientsAreInjective(c: bv16, d: bv16)
    requires Coefficients(c) == Coefficients(d)
    ensures c == d
  {
    ShlAll(c);
    ShlAll(d);
    HighIsInjective(c, d, WIDTH);
  }

  lemma MovedCoefficients(c: bv16)
    ensures Coefficients(Doubled(c)) == Coefficients(c)[1..] + [false]
  {
    HighConcat(c, WIDTH, 1);
    ShlAll(c);
    assert High(c, WIDTH + 1)[1..] == High(Doubled(c), WIDTH);
    assert High(0, 1) == [false];
  }

  lemma {:induction false} ZeroHigh(n: nat)
    ensures High(0, n) == Zeros(n)
  {
    if n > 0 {
      ZeroHigh(n - 1);
      assert Doubled(0) == 0;
    }
  }

  function FourBits(c: bv16): seq<bool> {
    [c & 0x8000 != 0, c & 0x4000 != 0, c & 0x2000 != 0, c & 0x1000 != 0]
  }

  lemma HighFour(c: bv16)
    ensures High(c, 4) == FourBits(c)
  {}

  lemma ByteBits(b: bv8)
    ensures BitsOfByte(LOWEST_FIRST, b) == FourBits((b as bv16) << 8) + FourBits(((b as bv16) << 8) << 4)
  {}

  lemma ByteHigh(b: bv8)
    ensures High((b as bv16) << 8, 8) == BitsOfByte(LOWEST_FIRST, b)
  {
    var w := (b as bv16) << 8;
    HighConcat(w, 4, 4);
    assert Shl(w, 4) == w << 4;
    HighFour(w);
    HighFour(w << 4);
    ByteBits(b);
  }

  lemma ByteCoefficients(b: bv8)
    ensures Coefficients((b as bv16) << 8) == BitsOfByte(LOWEST_FIRST, b) + Zeros(8)
  {
    var w := (b as bv16) << 8;
    HighConcat(w, 8, 8);
    ShlByte(w);
    assert Shl(w, 8) == 0;
    ZeroHigh(8);
    ByteHigh(b);
  }

  lemma ConstantCoefficient()
    ensures POLYNOMIAL[15]
  {
    HighConcat(0x1021, 15, 1);
    ShlTwice(0x1021, 8, 7);
    ShlByte(0x1021);
    ShlSeven(0x2100);
    var last := Shl(0x1021, 15);
    assert last == 0x8000 && Top(last);
    assert High(last, 1) == [Top(last)];
  }

  // ---- One table lookup takes in the eight bits of a byte ----

  lemma StepShifts(c: bv16)
    ensures Coefficients(Step(c)) == Shift(Coefficients(c), false, POLYNOMIAL)
  {
    MovedCoefficients(c);
    HighAdded(Doubled(c), 0x1021, WIDTH);
    assert Coefficients(c)[0] == Top(c);
  }

  const BYTE: nat := 8

  /** `n` steps of the division. */
  function Divided(c: bv16, n: nat): bv16
    decreases n
  {
    if n == 0 then c else Divided(Step(c), n - 1)
  }

  lemma BitsAreDivided(c: bv16)
    ensures Bits(c) == Divided(c, BYTE)
  {
    var c2 := Step(Step(c)); var c4 := Step(Step(c2)); var c6 := Step(Step(c4));
    assert Divided(c, 8) == Divided(c2, 6) == Divided(c4, 4) == Divided(c6, 2) == Step(Step(c6));
  }

  lemma {:induction false} DividedShifts(c: bv16, n: nat)
    ensures Coefficients(Divided(c, n)) == ShiftAll(Coefficients(c), Zeros(n), POLYNOMIAL)
    decreases n
  {
    if n > 0 {
      StepShifts(c);
      DividedShifts(Step(c), n - 1);
      ZeroEnters(Coefficients(c), n, POLYNOMIAL);
    }
  }

  lemma BitsMove(l: bv16)
    requires l < 0x100
    ensures Bits(l) == l << 8
  {}

  /** Bits below the highest eight are only moved. */
  lemma LowBitsMove(l: bv16)
    requires l < 0x100
    ensures Divided(l, BYTE) == l << 8
  {
    BitsMove(l);
    BitsAreDivided(l);
  }

  lemma TableIsDivided(x: bv8)
    ensures x as int < |CRC16_TABLE|
    ensures CRC16_TABLE[x as int] == Divided((x as bv16) << 8, BYTE)
  {
    TableIsRemainders(x);
    BitsAreDivided((x as bv16) << 8);
  }

  lemma TableShifts(x: bv8)
    ensures x as int < |CRC16_TABLE|
    ensures Coefficients(CRC16_TABLE[x as int])
         == ShiftAll(Coefficients((x as bv16) << 8), Zeros(BYTE), POLYNOMIAL)
  {
    TableIsDivided(x);
    DividedShifts((x as bv16) << 8, BYTE);
  }

  lemma LookedShifts(y: bv16) returns (high: bv16, after: bv16)
    ensures high == (y & 0xFF) << 8 && after == Looked(y)
    ensures Coefficients(after) == ShiftAll(Coefficients(high), Zeros(BYTE), POLYNOMIAL)
  {
    var x := (y & 0xFF) as bv8;
    TableShifts(x);
    high, after := (x as bv16) << 8, CRC16_TABLE[x as int];
  }

  lemma LowShifts(c: bv16) returns (low: bv16, after: bv16)
    ensures low == c & 0xFF && after == c << 8
    ensures Coefficients(after) == ShiftAll(Coefficients(low), Zeros(BYTE), POLYNOMIAL)
  {
    low, after := c & 0xFF, c << 8;
    LowBitsMove(low);
    assert low << 8 == after;
    DividedShifts(low, BYTE);
  }

  lemma Halves(crc: bv16, b: bv8)
    ensures (crc & 0xFF) ^ ((((crc >> 8) ^ (b as bv16)) & 0xFF) << 8) == crc ^ ((b as bv16) << 8)
  {}

  lemma UpdateParts(crc: bv16, b: bv8) returns (low: bv16, lowAfter: bv16, high: bv16, highAfter: bv16)
    ensures low ^ high == crc ^ ((b as bv16) << 8)
    ensures lowAfter ^ highAfter == Updated(crc, b)
    ensures Coefficients(lowAfter) == ShiftAll(Coefficients(low), Zeros(BYTE), POLYNOMIAL)
    ensures Coefficients(highAfter) == ShiftAll(Coefficients(high), Zeros(BYTE), POLYNOMIAL)
  {
    high, highAfter := LookedShifts((crc >> 8) ^ (b as bv16));
    low, lowAfter := LowShifts(crc);
    Halves(crc, b);
  }

  lemma SumEnters(crc: bv16, b: bv8, low: bv16, high: bv16)
    requires low ^ high == crc ^ ((b as bv16) << 8)
    ensures ShiftAll(AddAtFront(Coefficients(low), Coefficients(high)), Zeros(BYTE), POLYNOMIAL)
         == ShiftAll(Coefficients(crc), BitsOfByte(LOWEST_FIRST, b), POLYNOMIAL)
  {
    HighAdded(low, high, WIDTH);
    HighAdded(crc, (b as bv16) << 8, WIDTH);
    ByteCoefficients(b);
    PaddedEnters(Coefficients(crc), BitsOfByte(LOWEST_FIRST, b), POLYNOMIAL);
  }

  lemma SumShifts(low: bv16, lowAfter: bv16, high: bv16, highAfter: bv16)
    requires Coefficients(lowAfter) == ShiftAll(Coefficients(low), Zeros(BYTE), POLYNOMIAL)
    requires Coefficients(highAfter) == ShiftAll(Coefficients(high), Zeros(BYTE), POLYNOMIAL)
    ensures Coefficients(lowAfter ^ highAfter)
         == ShiftAll(AddAtFront(Coefficients(low), Coefficients(high)), Zeros(BYTE), POLYNOMIAL)
  {
    HighAdded(lowAfter, highAfter, WIDTH);
    ZerosAreLinear(Coefficients(low), Coefficients(high), BYTE, POLYNOMIAL);
  }

  lemma UpdateShifts(crc: bv16, b: bv8)
    ensures Coefficients(Updated(crc, b))
         == ShiftAll(Coefficients(crc), BitsOfByte(LOWEST_FIRST, b), POLYNOMIAL)
  {
    var low, lowAfter, high, highAfter := UpdateParts(crc, b);
    SumShifts(low, lowAfter, high, highAfter);
    SumEnters(crc, b, low, high);
  }

  lemma {:induction false} FedShifts(c: bv16, s: seq<bv8>)
    ensures Coefficients(Fed(c, s))
         == ShiftAll(Coefficients(c), BitsOfBytes(LOWEST_FIRST, s), POLYNOMIAL)
    decreases |s|
  {
    if s != [] {
      UpdateShifts(c, s[0]);
      FedShifts(Updated(c, s[0]), s[1..]);
      ShiftAllConcat(Coefficients(c), BitsOfByte(LOWEST_FIRST, s[0]),
                     BitsOfBytes(LOWEST_FIRST, s[1..]), POLYNOMIAL);
    }
  }

  /**
   * For every string, the table-driven checksum is the remainder that schoolbook division of the
   * bits of its bytes leaves.
   */
  lemma ChecksumIsRemainder(s: seq<bv8>)
    ensures Coefficients(Fed(0, s)) == LongDivision(BitsOfBytes(LOWEST_FIRST, s) + Zeros(16), POLYNOMIAL)
  {
    FedShifts(0, s);
    ZeroHigh(WIDTH);
    var dividend := BitsOfBytes(LOWEST_FIRST, s) + Zeros(16);
    assert AddAtFront(dividend, Zeros(16)) == dividend;
    RegisterDivides(Zeros(16), BitsOfBytes(LOWEST_FIRST, s), POLYNOMIAL);
  }

  method CRC16(s: seq<bv8>) returns (crc: bv16)
    ensures crc == Fed(0, s)
    ensures Coefficients(crc) == LongDivision(BitsOfBytes(LOWEST_FIRST, s) + Zeros(16), POLYNOMIAL)
  {
    crc := 0;
    for i := 0 to |s|
      invariant Fed(crc, s[i..]) == Fed(0, s)
    {
      assert s[i..][1..] == s[i + 1..];
      crc := Updated(crc, s[i]);
    }
    ChecksumIsRemainder(s);
  }

  /**
   * Two strings of one length whose bits differ only within a window of 16 neighbouring bits have
   * the same checksum only if they are equal.
   */
  lemma BurstsOf16BitsAreDetected(s: seq<bv8>, t: seq<bv8>, i: nat, j: nat)
    requires DifferWithin(LOWEST_FIRST, s, t, i, j) && j <= i + 16
    ensures Fed(0, s) == Fed(0, t) <==> s == t
  {
    FedShifts(0, s);
    FedShifts(0, t);
    ConstantCoefficient();
    assert forall u :: BitsOfBytes(LOWEST_FIRST, u) + [] == BitsOfBytes(LOWEST_FIRST, u);
    StringBurstsAreDetected(LOWEST_FIRST, Coefficients(0), s, t, i, j, [], POLYNOMIAL);
  }
}
