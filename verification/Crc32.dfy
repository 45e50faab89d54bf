/** `CRC32` and `CRC32NoCase` of cocos/math/Math.cpp against division of polynomials. */
module Crc32 {

  import opened Wrappers
  import opened PolynomialDivision
  import opened Crc32Table
  import opened MessageBits

  const LOWEST_FIRST := true

  // ---- The code ----

  lemma TableCoversBytes(x: bv8)
    ensures x as int < |CRC32_TABLE|
  {
    TableIsRemainders(x);
  }

  /** The entry of the table for the lowest byte of `y`. */
  function Looked(y: bv32): bv32 {
    TableCoversBytes((y & 0xFF) as bv8);
    CRC32_TABLE[(y & 0xFF) as bv8 as int]
  }

  function Updated(crc: bv32, b: bv8): bv32 {
    Looked(crc ^ (b as bv32)) ^ (crc >> 8)
  }

  function Fed(crc: bv32, s: seq<bv8>): bv32
    decreases |s|
  {
    if s == [] then crc else Fed(Updated(crc, s[0]), s[1..])
  }

  function LengthByte(s: seq<bv8>): bv8 {
    (|s| % 256) as bv8
  }

  function Checksum(s: seq<bv8>): bv32 {
    Fed(0xFFFF_FFFF, s + [LengthByte(s)])
  }

  /** `tolower` on one byte, in the C locale. */
  function Lower(b: bv8): bv8 {
    if 0x41 <= b <= 0x5A then b + 0x20 else b
  }

  function LowerAll(s: seq<bv8>): (r: seq<bv8>)
    ensures |r| == |s|
  {
    seq(|s|, i requires 0 <= i < |s| => Lower(s[i]))
  }

  const CAPITALS := "ABCDEFGHIJKLMNOPQRSTUVWXYZ"
  const SMALL_LETTERS := "abcdefghijklmnopqrstuvwxyz"

  /** Letter by letter the capitals become small, and no other byte changes. */
  lemma LowerIsLetterByLetter(s: seq<bv8>, i: nat)
    requires i < |s|
    ensures var r := LowerAll(s);
      && (forall k :: 0 <= k < 26 && s[i] as char == CAPITALS[k] ==> r[i] as char == SMALL_LETTERS[k])
      && (s[i] as char !in CAPITALS ==> r[i] == s[i])
  {
    var k := s[i] as int - 0x41;
    assert forall j :: 0 <= j < 26 ==> CAPITALS[j] as int == 0x41 + j && SMALL_LETTERS[j] as int == 0x61 + j;
    if 0 <= k < 26 {
      assert CAPITALS[k] == s[i] as char;
    }
  }

  // ---- Bytes and registers as lists of coefficients, highest power first ----

  predicate Odd(c: bv32) {
    c & 1 == 1
  }

  function Halved(c: bv32): bv32 {
    c >> 1
  }

  /** The lowest `n` bits of the register, the lowest bit first. */
  function Low(c: bv32, n: nat): (r: seq<bool>)
    ensures |r| == n
    decreases n
  {
    if n == 0 then [] else [Odd(c)] + Low(Halved(c), n - 1)
  }

  const WIDTH: nat := 32

  /** The lowest bit of the register stands for the highest power. */
  function Coefficients(c: bv32): (r: seq<bool>)
    ensures |r| == 32
  {
    Low(c, WIDTH)
  }

  const POLYNOMIAL: seq<bool> := Coefficients(0xEDB8_8320)

  lemma XorBits(c: bv32, d: bv32)
    ensures Halved(c ^ d) == Halved(c) ^ Halved(d)
    ensures (Odd(c ^ d)) == (Odd(c) != (Odd(d)))
  {}

  lemma {:induction false} LowAdded(c: bv32, d: bv32, n: nat)
    ensures Low(c ^ d, n) == AddAtFront(Low(c, n), Low(d, n))
    decreases n
  {
    if n > 0 {
      XorBits(c, d);
      LowAdded(Halved(c), Halved(d), n - 1);
      AddedCons(Odd(c), Low(Halved(c), n - 1), Odd(d), Low(Halved(d), n - 1));
    }
  }

  function Shr(c: bv32, n: nat): bv32
    decreases n
  {
    if n == 0 then c else Shr(Halved(c), n - 1)
  }

  lemma ShrSeven(c: bv32)
    ensures Shr(c, 7) == c >> 7
  {}

  lemma {:induction false} ShrTwice(c: bv32, m: nat, n: nat)
    ensures Shr(c, m + n) == Shr(Shr(c, m), n)
    decreases m
  {
    if m > 0 {
      ShrTwice(Halved(c), m - 1, n);
    }
  }

  lemma ShrByte(c: bv32)
    ensures Shr(c, 8) == c >> 8
  {}

  lemma ShrAll(c: bv32)
    ensures Shr(c, WIDTH) == 0
  {
    ShrTwice(c, 8, 24);
    ShrTwice(c >> 8, 8, 16);
    ShrTwice(c >> 8 >> 8, 8, 8);
    ShrByte(c);
    ShrByte(c >> 8);
    ShrByte(c >> 8 >> 8);
    ShrByte(c >> 8 >> 8 >> 8);
  }

  lemma {:induction false} LowConcat(c: bv32, m: nat, n: nat)
    ensures Low(c, m + n) == Low(c, m) + Low(Shr(c, m), n)
    decreases m
  {
    if m > 0 {
      LowConcat(Halved(c), m - 1, n);
    }
  }

  lemma SameBits(c: bv32, d: bv32)
    requires Halved(c) == Halved(d) && Odd(c) == Odd(d)
    ensures c == d
  {}

  lemma {:induction false} LowIsInjective(c: bv32, d: bv32, n: nat)
    requires Low(c, n) == Low(d, n) && Shr(c, n) == Shr(d, n)
    ensures c == d
    decreases n
  {
    if n > 0 {
      assert Low(c, n)[0] == Low(d, n)[0] && Low(c, n)[1..] == Low(d, n)[1..];
      LowIsInjective(Halved(c), Halved(d), n - 1);
      SameBits(c, d);
    }
  }

  lemma CoefficientsAreInjective(c: bv32, d: bv32)
    requires Coefficients(c) == Coefficients(d)
    ensures c == d
  {
    ShrAll(c);
    ShrAll(d);
    LowIsInjective(c, d, WIDTH);
  }

  lemma MovedCoefficients(c: bv32)
    ensures Coefficients(Halved(c)) == Coefficients(c)[1..] + [false]
  {
    LowConcat(c, WIDTH, 1);
    ShrAll(c);
    assert Low(c, WIDTH + 1)[1..] == Low(Halved(c), WIDTH);
    assert Low(0, 1) == [false];
  }

  lemma {:induction false} ZeroLow(n: nat)
    ensures Low(0, n) == Zeros(n)
  {
    if n > 0 {
      ZeroLow(n - 1);
      assert Halved(0) == 0;
    }
  }

  function FourBits(c: bv32): seq<bool> {
    [c & 1 != 0, c & 2 != 0, c & 4 != 0, c & 8 != 0]
  }

  lemma LowFour(c: bv32)
    ensures Low(c, 4) == FourBits(c)
  {}

  lemma ByteBits(b: bv8)
    ensures BitsOfByte(LOWEST_FIRST, b) == FourBits(b as bv32) + FourBits((b as bv32) >> 4)
  {}

  lemma ByteLow(b: bv8)
    ensures Low(b as bv32, 8) == BitsOfByte(LOWEST_FIRST, b)
  {
    var w := b as bv32;
    LowConcat(w, 4, 4);
    assert Shr(w, 4) == w >> 4;
    LowFour(w);
    LowFour(w >> 4);
    ByteBits(b);
  }

  lemma ByteCoefficients(b: bv8)
    ensures Coefficients(b as bv32) == BitsOfByte(LOWEST_FIRST, b) + Zeros(24)
  {
    var w := b as bv32;
    LowConcat(w, 8, 24);
    ShrByte(w);
    assert Shr(w, 8) == 0;
    ZeroLow(24);
    ByteLow(b);
  }

  lemma ConstantCoefficient()
    ensures POLYNOMIAL[31]
  {
    LowConcat(0xEDB8_8320, 31, 1);
    ShrTwice(0xEDB8_8320, 8, 23);
    ShrTwice(0x00ED_B883, 8, 15);
    ShrTwice(0x0000_EDB8, 8, 7);
    ShrByte(0xEDB8_8320);
    ShrByte(0x00ED_B883);
    ShrByte(0x0000_EDB8);
    ShrSeven(0x0000_00ED);
    var last := Shr(0xEDB8_8320, 31);
    assert last == 1 && Odd(last);
    assert Low(last, 1) == [Odd(last)];
  }

  // ---- One table lookup takes in the eight bits of a byte ----

  lemma StepShifts(c: bv32)
    ensures Coefficients(Step(c)) == Shift(Coefficients(c), false, POLYNOMIAL)
  {
    MovedCoefficients(c);
    LowAdded(Halved(c), 0xEDB8_8320, WIDTH);
    assert Coefficients(c)[0] == Odd(c);
  }

  const BYTE: nat := 8

  /** `n` steps of the division. */
  function Divided(c: bv32, n: nat): bv32
    decreases n
  {
    if n == 0 then c else Divided(Step(c), n - 1)
  }

  lemma BitsAreDivided(c: bv32)
    ensures Bits(c) == Divided(c, BYTE)
  {
    var c2 := Step(Step(c)); var c4 := Step(Step(c2)); var c6 := Step(Step(c4));
    assert Divided(c, 8) == Divided(c2, 6) == Divided(c4, 4) == Divided(c6, 2) == Step(Step(c6));
  }

  lemma {:induction false} DividedShifts(c: bv32, n: nat)
    ensures Coefficients(Divided(c, n)) == ShiftAll(Coefficients(c), Zeros(n), POLYNOMIAL)
    decreases n
  {
    if n > 0 {
      StepShifts(c);
      DividedShifts(Step(c), n - 1);
      ZeroEnters(Coefficients(c), n, POLYNOMIAL);
    }
  }

  lemma BitsMove(h: bv32)
    requires h < 0x100_0000
    ensures Bits(h << 8) == h
  {}

  /** Bits above the lowest eight are only moved. */
  lemma HighBitsMove(h: bv32)
    requires h < 0x100_0000
    ensures Divided(h << 8, BYTE) == h
  {
    BitsMove(h);
    BitsAreDivided(h << 8);
  }

  lemma TableIsDivided(x: bv8)
    ensures x as int < |CRC32_TABLE|
    ensures CRC32_TABLE[x as int] == Divided(x as bv32, BYTE)
  {
    TableIsRemainders(x);
    BitsAreDivided(x as bv32);
  }

  lemma HighBytes(crc: bv32, b: bv8)
    ensures ((crc ^ (b as bv32)) & 0xFF) ^ ((crc >> 8) << 8) == crc ^ (b as bv32)
    ensures crc >> 8 == (crc ^ (b as bv32)) >> 8
    ensures crc >> 8 < 0x100_0000
  {}

  lemma TableShifts(x: bv8)
    ensures x as int < |CRC32_TABLE|
    ensures Coefficients(CRC32_TABLE[x as int])
         == ShiftAll(Coefficients(x as bv32), Zeros(BYTE), POLYNOMIAL)
  {
    TableIsDivided(x);
    DividedShifts(x as bv32, BYTE);
  }

  lemma HighShifts(c: bv32) returns (high: bv32, after: bv32)
    ensures high == (c >> 8) << 8 && after == c >> 8
    ensures Coefficients(after) == ShiftAll(Coefficients(high), Zeros(BYTE), POLYNOMIAL)
  {
    high, after := (c >> 8) << 8, c >> 8;
    HighBitsMove(c >> 8);
    DividedShifts(high, BYTE);
  }

  lemma LookedShifts(y: bv32) returns (low: bv32, after: bv32)
    ensures low == y & 0xFF && after == Looked(y)
    ensures Coefficients(after) == ShiftAll(Coefficients(low), Zeros(BYTE), POLYNOMIAL)
  {
    var x := (y & 0xFF) as bv8;
    TableShifts(x);
    low, after := x as bv32, CRC32_TABLE[x as int];
  }

  lemma UpdateParts(crc: bv32, b: bv8) returns (low: bv32, lowAfter: bv32, high: bv32, highAfter: bv32)
    ensures low ^ high == crc ^ (b as bv32)
    ensures lowAfter ^ highAfter == Updated(crc, b)
    ensures Coefficients(lowAfter) == ShiftAll(Coefficients(low), Zeros(BYTE), POLYNOMIAL)
    ensures Coefficients(highAfter) == ShiftAll(Coefficients(high), Zeros(BYTE), POLYNOMIAL)
  {
    low, lowAfter := LookedShifts(crc ^ (b as bv32));
    high, highAfter := HighShifts(crc);
    HighBytes(crc, b);
  }

  lemma SumEnters(crc: bv32, b: bv8, low: bv32, high: bv32)
    requires low ^ high == crc ^ (b as bv32)
    ensures ShiftAll(AddAtFront(Coefficients(low), Coefficients(high)), Zeros(BYTE), POLYNOMIAL)
         == ShiftAll(Coefficients(crc), BitsOfByte(LOWEST_FIRST, b), POLYNOMIAL)
  {
    LowAdded(low, high, WIDTH);
    LowAdded(crc, b as bv32, WIDTH);
    ByteCoefficients(b);
    PaddedEnters(Coefficients(crc), BitsOfByte(LOWEST_FIRST, b), POLYNOMIAL);
  }

  lemma SumShifts(low: bv32, lowAfter: bv32, high: bv32, highAfter: bv32)
    requires Coefficients(lowAfter) == ShiftAll(Coefficients(low), Zeros(BYTE), POLYNOMIAL)
    requires Coefficients(highAfter) == ShiftAll(Coefficients(high), Zeros(BYTE), POLYNOMIAL)
    ensures Coefficients(lowAfter ^ highAfter)
         == ShiftAll(AddAtFront(Coefficients(low), Coefficients(high)), Zeros(BYTE), POLYNOMIAL)
  {
    LowAdded(lowAfter, highAfter, WIDTH);
    ZerosAreLinear(Coefficients(low), Coefficients(high), BYTE, POLYNOMIAL);
  }

  lemma UpdateShifts(crc: bv32, b: bv8)
    ensures Coefficients(Updated(crc, b)) == ShiftAll(Coefficients(crc), BitsOfByte(LOWEST_FIRST, b), POLYNOMIAL)
  {
    var low, lowAfter, high, highAfter := UpdateParts(crc, b);
    SumShifts(low, lowAfter, high, highAfter);
    SumEnters(crc, b, low, high);
  }

  lemma {:induction false} FedShifts(c: bv32, s: seq<bv8>)
    ensures Coefficients(Fed(c, s)) == ShiftAll(Coefficients(c), BitsOfBytes(LOWEST_FIRST, s), POLYNOMIAL)
    decreases |s|
  {
    if s != [] {
      UpdateShifts(c, s[0]);
      FedShifts(Updated(c, s[0]), s[1..]);
      ShiftAllConcat(Coefficients(c), BitsOfByte(LOWEST_FIRST, s[0]), BitsOfBytes(LOWEST_FIRST, s[1..]), POLYNOMIAL);
    }
  }

  /**
   * For every string, the table-driven checksum is the remainder that schoolbook division of the
   * bits of its bytes and length byte leaves, the first 32 coefficients having been complemented.
   */
  lemma ChecksumIsRemainder(s: seq<bv8>, length: bv8)
    requires length as int == |s| % 256
    ensures Coefficients(Checksum(s))
         == LongDivision(AddAtFront(BitsOfBytes(LOWEST_FIRST, s + [length]) + Zeros(32), Coefficients(0xFFFF_FFFF)),
                         POLYNOMIAL)
  {
    assert LengthByte(s) == length;
    FedShifts(0xFFFF_FFFF, s + [length]);
    RegisterDivides(Coefficients(0xFFFF_FFFF), BitsOfBytes(LOWEST_FIRST, s + [length]), POLYNOMIAL);
  }

  method CRC32(s: seq<bv8>) returns (crc: bv32)
    ensures crc == Checksum(s)
    ensures forall length: bv8 :: length as int == |s| % 256 ==>
      Coefficients(crc)
        == LongDivision(AddAtFront(BitsOfBytes(LOWEST_FIRST, s + [length]) + Zeros(32), Coefficients(0xFFFF_FFFF)),
                        POLYNOMIAL)
  {
    ghost var all := s + [LengthByte(s)];
    crc := 0xFFFF_FFFF;
    var i := 0;
    while i < |s|
      invariant 0 <= i <= |s|
      invariant Fed(crc, all[i..]) == Checksum(s)
    {
      assert all[i..][1..] == all[i + 1..];
      crc := Updated(crc, s[i]);
      i := i + 1;
    }
    assert all[i..] == [LengthByte(s)];
    assert Fed(crc, all[i..]) == Fed(Updated(crc, LengthByte(s)), []);
    crc := Updated(crc, LengthByte(s));
    forall length: bv8 | length as int == |s| % 256
      ensures Coefficients(crc)
        == LongDivision(AddAtFront(BitsOfBytes(LOWEST_FIRST, s + [length]) + Zeros(32), Coefficients(0xFFFF_FFFF)),
                        POLYNOMIAL)
    {
      ChecksumIsRemainder(s, length);
    }
  }

  /** The length is that of the string; only the bytes before it are in lower case. */
  method CRC32NoCase(s: seq<bv8>) returns (crc: bv32)
    ensures crc == Checksum(LowerAll(s))
    ensures forall length: bv8 :: length as int == |s| % 256 ==>
      Coefficients(crc)
        == LongDivision(AddAtFront(BitsOfBytes(LOWEST_FIRST, LowerAll(s) + [length]) + Zeros(32),
                                   Coefficients(0xFFFF_FFFF)), POLYNOMIAL)
  {
    ghost var all := LowerAll(s) + [LengthByte(s)];
    crc := 0xFFFF_FFFF;
    var i := 0;
    while i < |s|
      invariant 0 <= i <= |s|
      invariant Fed(crc, all[i..]) == Checksum(LowerAll(s))
    {
      assert all[i..][1..] == all[i + 1..];
      crc := Updated(crc, Lower(s[i]));
      i := i + 1;
    }
    assert all[i..] == [LengthByte(s)];
    assert Fed(crc, all[i..]) == Fed(Updated(crc, LengthByte(s)), []);
    crc := Updated(crc, LengthByte(s));
    forall length: bv8 | length as int == |s| % 256
      ensures Coefficients(crc)
        == LongDivision(AddAtFront(BitsOfBytes(LOWEST_FIRST, LowerAll(s) + [length]) + Zeros(32),
                                   Coefficients(0xFFFF_FFFF)), POLYNOMIAL)
    {
      ChecksumIsRemainder(LowerAll(s), length);
    }
  }

  // ---- What the checksum detects ----

  /**
   * Two strings of one length whose bits differ only within a window of 32 neighbouring bits have the same checksum
   * only if they are equal.
   */
  lemma BurstsOf32BitsAreDetected(s: seq<bv8>, t: seq<bv8>, i: nat, j: nat)
    requires DifferWithin(LOWEST_FIRST, s, t, i, j) && j <= i + 32
    ensures Checksum(s) == Checksum(t) <==> s == t
  {
    BitsLength(LOWEST_FIRST, s);
    BitsLength(LOWEST_FIRST, t);
    var last := [LengthByte(s)];
    BitsOfConcat(LOWEST_FIRST, s, last);
    BitsOfConcat(LOWEST_FIRST, t, last);
    FedShifts(0xFFFF_FFFF, s + last);
    FedShifts(0xFFFF_FFFF, t + last);
    ConstantCoefficient();
    StringBurstsAreDetected(LOWEST_FIRST, Coefficients(0xFFFF_FFFF), s, t, i, j,
                            BitsOfBytes(LOWEST_FIRST, last), POLYNOMIAL);
  }

  /** In particular, changing up to four neighbouring bytes changes the checksum. */
  lemma ChangedBytesAreDetected(head: seq<bv8>, s: seq<bv8>, t: seq<bv8>, tail: seq<bv8>)
    requires |s| == |t| <= 4
    ensures Checksum(head + (s + tail)) == Checksum(head + (t + tail)) <==> s == t
  {
    var u, v := head + (s + tail), head + (t + tail);
    BytesAreWindows(LOWEST_FIRST, head, s, t, tail);
    BurstsOf32BitsAreDetected(u, v, 8 * |head|, 8 * |head| + 8 * |s|);
    if u == v {
      assert s == u[|head|..|head| + |s|] && t == v[|head|..|head| + |s|];
    }
  }

  lemma OneByteIsDetected(s: seq<bv8>, i: nat, b: bv8)
    requires i < |s|
    ensures Checksum(s[i := b]) == Checksum(s) <==> s[i] == b
  {
    ChangedBytesAreDetected(s[..i], [s[i]], [b], s[i + 1..]);
    assert s == s[..i] + ([s[i]] + s[i + 1..]);
    assert s[i := b] == s[..i] + ([b] + s[i + 1..]);
    assert [s[i]][0] == s[i] && [b][0] == b;
  }

  /** Without regard to case, a changed byte is detected unless only its case has changed. */
  lemma OneByteIsDetectedNoCase(s: seq<bv8>, i: nat, b: bv8)
    requires i < |s|
    ensures Checksum(LowerAll(s[i := b])) == Checksum(LowerAll(s)) <==> Lower(b) == Lower(s[i])
  {
    assert LowerAll(s[i := b]) == LowerAll(s)[i := Lower(b)];
    OneByteIsDetected(LowerAll(s), i, Lower(b));
  }
}
