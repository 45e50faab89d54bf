/** Strings of bytes as strings of bits, in either order of the bits of a byte. */
module MessageBits {

  import opened PolynomialDivision

  predicate Has(b: bv8, mask: bv8) {
    b & mask != 0
  }

  function BitsOfByte(lowestFirst: bool, b: bv8): (r: seq<bool>)
    ensures |r| == 8
  {
    if lowestFirst then [
      Has(b, 0x01), Has(b, 0x02), Has(b, 0x04), Has(b, 0x08), Has(b, 0x10), Has(b, 0x20), Has(b, 0x40), Has(b, 0x80)
    ] else [
      Has(b, 0x80), Has(b, 0x40), Has(b, 0x20), Has(b, 0x10), Has(b, 0x08), Has(b, 0x04), Has(b, 0x02), Has(b, 0x01)
    ]
  }

  function BitsOfBytes(lowestFirst: bool, s: seq<bv8>): seq<bool> {
    if s == [] then [] else BitsOfByte(lowestFirst, s[0]) + BitsOfBytes(lowestFirst, s[1..])
  }

  lemma {:induction false} BitsLength(lowestFirst: bool, s: seq<bv8>)
    ensures |BitsOfBytes(lowestFirst, s)| == 8 * |s|
  {
    if s != [] {
      BitsLength(lowestFirst, s[1..]);
    }
  }

  lemma {:induction false} BitsOfConcat(lowestFirst: bool, s: seq<bv8>, t: seq<bv8>)
    ensures BitsOfBytes(lowestFirst, s + t) == BitsOfBytes(lowestFirst, s) + BitsOfBytes(lowestFirst, t)
  {
    if s == [] {
      assert s + t == t;
    } else {
      assert (s + t)[1..] == s[1..] + t;
      BitsOfConcat(lowestFirst, s[1..], t);
    }
  }

  predicate SameBit(a: bv8, b: bv8, mask: bv8) {
    Has(a, mask) <==> Has(b, mask)
  }

  lemma SameLowBits(a: bv8, b: bv8)
    requires SameBit(a, b, 0x01) && SameBit(a, b, 0x02) && SameBit(a, b, 0x04) && SameBit(a, b, 0x08)
    ensures a & 0x0F == b & 0x0F
  {}

  lemma SameHighBits(a: bv8, b: bv8)
    requires SameBit(a, b, 0x10) && SameBit(a, b, 0x20) && SameBit(a, b, 0x40) && SameBit(a, b, 0x80)
    ensures a & 0xF0 == b & 0xF0
  {}

  lemma SameNibbles(a: bv8, b: bv8)
    requires a & 0x0F == b & 0x0F && a & 0xF0 == b & 0xF0
    ensures a == b
  {}

  lemma LowBitsShow(lowestFirst: bool, a: bv8, b: bv8)
    requires BitsOfByte(lowestFirst, a) == BitsOfByte(lowestFirst, b)
    ensures SameBit(a, b, 0x01) && SameBit(a, b, 0x02) && SameBit(a, b, 0x04) && SameBit(a, b, 0x08)
  {
    var x, y, k := BitsOfByte(lowestFirst, a), BitsOfByte(lowestFirst, b), if lowestFirst then 0 else 4;
    assert x[k] == y[k] && x[k + 1] == y[k + 1] && x[k + 2] == y[k + 2] && x[k + 3] == y[k + 3];
  }

  lemma HighBitsShow(lowestFirst: bool, a: bv8, b: bv8)
    requires BitsOfByte(lowestFirst, a) == BitsOfByte(lowestFirst, b)
    ensures SameBit(a, b, 0x10) && SameBit(a, b, 0x20) && SameBit(a, b, 0x40) && SameBit(a, b, 0x80)
  {
    var x, y, k := BitsOfByte(lowestFirst, a), BitsOfByte(lowestFirst, b), if lowestFirst then 4 else 0;
    assert x[k] == y[k] && x[k + 1] == y[k + 1] && x[k + 2] == y[k + 2] && x[k + 3] == y[k + 3];
  }

  lemma ByteIsItsBits(lowestFirst: bool, a: bv8, b: bv8)
    requires BitsOfByte(lowestFirst, a) == BitsOfByte(lowestFirst, b)
    ensures a == b
  {
    LowBitsShow(lowestFirst, a, b);
    HighBitsShow(lowestFirst, a, b);
    SameLowBits(a, b);
    SameHighBits(a, b);
    SameNibbles(a, b);
  }

  lemma {:induction false} StringIsItsBits(lowestFirst: bool, s: seq<bv8>, t: seq<bv8>)
    requires BitsOfBytes(lowestFirst, s) == BitsOfBytes(lowestFirst, t)
    ensures s == t
  {
    if s != [] && t != [] {
      var a, b := BitsOfBytes(lowestFirst, s), BitsOfBytes(lowestFirst, t);
      assert BitsOfByte(lowestFirst, s[0]) == a[..8] == b[..8] == BitsOfByte(lowestFirst, t[0]);
      assert BitsOfBytes(lowestFirst, s[1..]) == a[8..] == b[8..] == BitsOfBytes(lowestFirst, t[1..]);
      ByteIsItsBits(lowestFirst, s[0], t[0]);
      StringIsItsBits(lowestFirst, s[1..], t[1..]);
    }
  }

  /** Outside the bits i..j, the two strings have the same bits. */
  predicate DifferWithin(lowestFirst: bool, s: seq<bv8>, t: seq<bv8>, i: nat, j: nat) {
    var a, b := BitsOfBytes(lowestFirst, s), BitsOfBytes(lowestFirst, t);
    && i <= j <= |a| == |b|
    && a[..i] == b[..i]
    && a[j..] == b[j..]
  }

  lemma WindowsJoin(a: seq<bool>, b: seq<bool>, i: nat, j: nat)
    requires i <= j <= |a| == |b|
    requires a[..i] == b[..i] && a[i..j] == b[i..j] && a[j..] == b[j..]
    ensures a == b
  {
    assert a == a[..i] + a[i..j] + a[j..];
    assert b == b[..i] + b[i..j] + b[j..];
  }

  lemma MessageParts(a: seq<bool>, i: nat, j: nat, last: seq<bool>)
    requires i <= j <= |a|
    ensures a + last == a[..i] + (a[i..j] + (a[j..] + last))
  {}

  lemma WindowBurstsAreDetected(register: seq<bool>, a: seq<bool>, b: seq<bool>,
                                i: nat, j: nat, last: seq<bool>, p: seq<bool>)
    requires i <= j <= |a| == |b| && a[..i] == b[..i] && a[j..] == b[j..] && j <= i + |p|
    requires |register| == |p| > 0 && p[|p| - 1]
    ensures ShiftAll(register, a + last, p) == ShiftAll(register, b + last, p) <==> a == b
  {
    MessageParts(a, i, j, last);
    MessageParts(b, i, j, last);
    BurstsAreDetected(register, a[..i], a[i..j], b[i..j], a[j..] + last, p);
    if a[i..j] == b[i..j] {
      WindowsJoin(a, b, i, j);
    }
  }

  lemma StringBurstsAreDetected(lowestFirst: bool, register: seq<bool>, s: seq<bv8>, t: seq<bv8>,
                                i: nat, j: nat, last: seq<bool>, p: seq<bool>)
    requires DifferWithin(lowestFirst, s, t, i, j) && j <= i + |p|
    requires |register| == |p| > 0 && p[|p| - 1]
    ensures (ShiftAll(register, BitsOfBytes(lowestFirst, s) + last, p)
          == ShiftAll(register, BitsOfBytes(lowestFirst, t) + last, p)) <==> s == t
  {
    var a, b := BitsOfBytes(lowestFirst, s), BitsOfBytes(lowestFirst, t);
    WindowBurstsAreDetected(register, a, b, i, j, last, p);
    if a == b {
      StringIsItsBits(lowestFirst, s, t);
    }
  }

  lemma BytesAreWindows(lowestFirst: bool, head: seq<bv8>, s: seq<bv8>, t: seq<bv8>, tail: seq<bv8>)
    requires |s| == |t|
    ensures DifferWithin(lowestFirst, head + (s + tail), head + (t + tail),
                         8 * |head|, 8 * |head| + 8 * |s|)
  {
    var y, z := BitsOfBytes(lowestFirst, head), BitsOfBytes(lowestFirst, tail);
    var a, b := BitsOfBytes(lowestFirst, s), BitsOfBytes(lowestFirst, t);
    BitsOfConcat(lowestFirst, head, s + tail);
    BitsOfConcat(lowestFirst, head, t + tail);
    BitsOfConcat(lowestFirst, s, tail);
    BitsOfConcat(lowestFirst, t, tail);
    BitsLength(lowestFirst, head);
    BitsLength(lowestFirst, s);
    BitsLength(lowestFirst, t);
    assert (y + (a + z))[..|y|] == y == (y + (b + z))[..|y|];
    assert (y + (a + z))[|y| + |a|..] == z == (y + (b + z))[|y| + |a|..];
  }
}
