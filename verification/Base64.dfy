/** The codec of cocos/base/base64.cpp, against regrouping of bits: section 4 of RFC 4648. */
module Base64 {

  import opened Wrappers
  import opened Bitstrings

  type Sextet = x: nat | x < 64

  /** Neither accumulator of the codec outgrows 24 bits. */
  type Accumulator = x: nat | x < 0x100_0000

  const BYTE: nat := 8
  const SEXTET: nat := 6
  const NIBBLE: nat := 4
  const PAIR: nat := 2

  const PAD: Byte := 61

  // ---- The alphabet ----

  const UPPER: string := "ABCDEFGHIJKLMNOPQRSTUVWXYZ"
  const LOWER: string := "abcdefghijklmnopqrstuvwxyz"
  const DIGITS: string := "0123456789"
  const ALPHABET: string := UPPER + LOWER + DIGITS + "+/"

  /** The place of each letter, in the order of the ASCII codes. */
  function Code(v: Sextet): Byte {
    if v < 26 then 65 + v
    else if v < 52 then 97 + (v - 26)
    else if v < 62 then 48 + (v - 52)
    else if v == 62 then 43 else 47
  }

  lemma UpperCodes(v: Sextet)
    requires v < 26
    ensures UPPER[v] as int == 65 + v
  {}

  lemma LowerCodes(v: Sextet)
    requires v < 26
    ensures LOWER[v] as int == 97 + v
  {}

  lemma DigitCodes(v: Sextet)
    requires v < 10
    ensures DIGITS[v] as int == 48 + v
  {}

  lemma AlphabetCodes(v: Sextet)
    ensures |ALPHABET| == 64 && ALPHABET[v] as int == Code(v)
  {
    if v < 26 {
      UpperCodes(v);
    } else if v < 52 {
      LowerCodes(v - 26);
    } else if v < 62 {
      DigitCodes(v - 52);
    }
  }

  function Letter(v: Sextet): Byte {
    AlphabetCodes(v);
    ALPHABET[v] as int
  }

  predicate InAlphabet(c: Byte) {
    exists v: Sextet :: Letter(v) == c
  }

  lemma LettersDiffer()
    ensures forall v: Sextet, w: Sextet :: Letter(v) == Letter(w) ==> v == w
    ensures forall v: Sextet :: Letter(v) != PAD
  {
    forall v: Sextet ensures Letter(v) == Code(v) {
      AlphabetCodes(v);
    }
  }

  function Value(c: Byte): (v: Sextet)
    requires InAlphabet(c)
    ensures Letter(v) == c
  {
    LettersDiffer();
    var v: Sextet :| Letter(v) == c;
    v
  }

  ghost predicate Tables(inAlphabet: array<bool>, decoder: array<Sextet>)
    reads inAlphabet, decoder
  {
    && inAlphabet.Length == decoder.Length == 256
    && (forall c: Byte :: inAlphabet[c] <==> InAlphabet(c))
    && (forall c: Byte :: inAlphabet[c] ==> decoder[c] == Value(c))
  }

  /** The two lookup tables, filled from the alphabet's last letter to its first. */
  method BuildTables() returns (inAlphabet: array<bool>, decoder: array<Sextet>)
    ensures fresh(inAlphabet) && fresh(decoder)
    ensures Tables(inAlphabet, decoder)
  {
    inAlphabet := new bool[256](_ => false);
    decoder := new Sextet[256](_ => 0);
    LettersDiffer();
    var i := 64;
    while i > 0
      invariant 0 <= i <= 64
      invariant forall c: Byte :: inAlphabet[c] <==> exists v: Sextet :: v >= i && Letter(v) == c
      invariant forall v: Sextet :: v >= i ==> decoder[Letter(v)] == v
    {
      i := i - 1;
      inAlphabet[Letter(i)], decoder[Letter(i)] := true, i;
    }
  }

  // ---- What the codec is to compute ----

  function Letters(vs: seq<Sextet>): (r: seq<Byte>)
    ensures |r| == |vs|
  {
    seq(|vs|, i requires 0 <= i < |vs| => Letter(vs[i]))
  }

  /** How many zero bits complete the last sextet of `n` bytes. */
  function Filler(n: nat): (z: nat)
    ensures z < 6 && (8 * n + z) % 6 == 0
  {
    if n % 3 == 0 then 0 else if n % 3 == 1 then 4 else 2
  }

  function Sextets(s: seq<Byte>): seq<Sextet> {
    Regroup(AllBits(s, BYTE) + Zeros(Filler(|s|)), SEXTET)
  }

  function Padding(n: nat): seq<Byte> {
    if n % 3 == 0 then [] else if n % 3 == 1 then [PAD, PAD] else [PAD]
  }

  /** The bits of `s` in groups of six, as letters, completed to whole groups of four. */
  function Encoded(s: seq<Byte>): seq<Byte> {
    Letters(Sextets(s)) + Padding(|s|)
  }

  /** The values of the letters before the first padding character. */
  function Kept(s: seq<Byte>): seq<Sextet> {
    if s == [] || s[0] == PAD then []
    else (if InAlphabet(s[0]) then [Value(s[0])] else []) + Kept(s[1..])
  }

  /** The whole bytes in the bits of `vs`. */
  function Bytes(vs: seq<Sextet>): seq<Byte> {
    Regroup(AllBits(vs, SEXTET), BYTE)
  }

  /** Without its incomplete last group of four. */
  function Quads(vs: seq<Sextet>): seq<Sextet> {
    vs[..|vs| - |vs| % 4]
  }

  /** Without a padding character, an incomplete last group of four is dropped. */
  function Decoded(s: seq<Byte>): seq<Byte> {
    Bytes(if PAD in s then Kept(s) else Quads(Kept(s)))
  }

  /** One more letter than whole groups of four. */
  predicate OneTooMany(vs: seq<Sextet>) {
    |vs| % 4 == 1
  }

  predicate Faulty(s: seq<Byte>) {
    PAD in s && OneTooMany(Kept(s))
  }

  // ---- Groups ----

  function Number2(v0: Sextet, v1: Sextet): nat { v0 * 64 + v1 }
  function Number3(v0: Sextet, v1: Sextet, v2: Sextet): nat { Number2(v0, v1) * 64 + v2 }
  function Number4(v0: Sextet, v1: Sextet, v2: Sextet, v3: Sextet): nat { Number3(v0, v1, v2) * 64 + v3 }

  /** The bits of `s`, which are those of `m`, with one more number. */
  lemma BitsJoin(s: seq<nat>, m: nat, k: nat, v: nat, w: nat, p: nat)
    requires v < p == Power(w) && AllBits(s, w) == Bits(m, k)
    ensures AllBits(s + [v], w) == Bits(m * p + v, k + w)
  {
    assert (s + [v])[..|s|] == s;
    BitsConcat(m, v, k, w, p);
  }

  lemma Bits1(v0: nat, w: nat)
    ensures AllBits([v0], w) == Bits(v0, w)
  {
    assert AllBits([v0][..0], w) == [] && [] + Bits(v0, w) == Bits(v0, w);
  }

  lemma Bits2(v0: nat, v1: nat, w: nat, p: nat)
    requires v1 < p == Power(w)
    ensures AllBits([v0, v1], w) == Bits(v0 * p + v1, w + w)
  {
    Bits1(v0, w);
    BitsJoin([v0], v0, w, v1, w, p);
    assert [v0] + [v1] == [v0, v1];
  }

  lemma Bits3(v0: nat, v1: nat, v2: nat, w: nat, p: nat)
    requires v1 < p == Power(w) && v2 < p
    ensures AllBits([v0, v1, v2], w) == Bits((v0 * p + v1) * p + v2, w + w + w)
  {
    Bits2(v0, v1, w, p);
    BitsJoin([v0, v1], v0 * p + v1, w + w, v2, w, p);
    assert [v0, v1] + [v2] == [v0, v1, v2];
  }

  lemma Bits4(v0: nat, v1: nat, v2: nat, v3: nat, w: nat, p: nat)
    requires v1 < p == Power(w) && v2 < p && v3 < p
    ensures AllBits([v0, v1, v2, v3], w) == Bits(((v0 * p + v1) * p + v2) * p + v3, w + w + w + w)
  {
    Bits3(v0, v1, v2, w, p);
    BitsJoin([v0, v1, v2], (v0 * p + v1) * p + v2, w + w + w, v3, w, p);
    assert [v0, v1, v2] + [v3] == [v0, v1, v2, v3];
  }

  lemma Powers()
    ensures Power(PAIR) == 4 && Power(NIBBLE) == 16 && Power(SEXTET) == 64 && Power(BYTE) == 256
  {}

  // The next three hold for a width `s` of sextets and a width `t` of bytes.

  lemma QuadIsTriple(v0: Sextet, v1: Sextet, v2: Sextet, v3: Sextet, b0: Byte, b1: Byte, b2: Byte, s: nat, t: nat)
    requires Power(s) == 64 && Power(t) == 256 && 4 * s == 3 * t
    requires Number4(v0, v1, v2, v3) == (b0 * 256 + b1) * 256 + b2
    ensures AllBits([v0, v1, v2, v3], s) == AllBits([b0, b1, b2], t)
  {
    Bits4(v0, v1, v2, v3, s, 64);
    Bits3(b0, b1, b2, t, 256);
  }

  lemma TripleIsThree(v0: Sextet, v1: Sextet, v2: Sextet, b0: Byte, b1: Byte, rest: nat, s: nat, t: nat, u: nat)
    requires Power(s) == 64 && Power(t) == 256 && Power(u) == 4 && 3 * s == 2 * t + u
    requires Number3(v0, v1, v2) == (b0 * 256 + b1) * 4 + rest && rest < 4
    ensures AllBits([v0, v1, v2], s) == AllBits([b0, b1], t) + Bits(rest, u)
  {
    Bits3(v0, v1, v2, s, 64);
    Bits2(b0, b1, t, 256);
    BitsConcat(b0 * 256 + b1, rest, t + t, u, 4);
    assert (v0 * 64 + v1) * 64 + v2 == (b0 * 256 + b1) * 4 + rest && s + s + s == t + t + u;
  }

  lemma PairIsTwo(v0: Sextet, v1: Sextet, b0: Byte, rest: nat, s: nat, t: nat, u: nat)
    requires Power(s) == 64 && Power(t) == 256 && Power(u) == 16 && 2 * s == t + u
    requires Number2(v0, v1) == b0 * 16 + rest && rest < 16
    ensures AllBits([v0, v1], s) == AllBits([b0], t) + Bits(rest, u)
  {
    Bits2(v0, v1, s, 64);
    Bits1(b0, t);
    BitsConcat(b0, rest, t, u, 16);
    assert v0 * 64 + v1 == b0 * 16 + rest && s + s == t + u;
  }

  /** Whole groups of three bytes or four sextets fill up both kinds of units. */
  lemma WholeGroups(s: seq<nat>, v: nat, w: nat)
    requires (v == 8 && w == 6 && |s| % 3 == 0) || (v == 6 && w == 8 && |s| % 4 == 0)
    ensures Fills(|AllBits(s, v)|, w)
  {
    AllBitsLength(s, v);
    if v == 8 {
      MultiplesFill(|s| / 3 * 4, SEXTET);
    } else {
      MultiplesFill(|s| / 4 * 3, BYTE);
    }
  }

  lemma RegroupAppend(full: seq<nat>, group: seq<nat>, extra: seq<bool>, other: seq<nat>, rest: seq<bool>, v: nat,
                      w: nat)
    requires w > 0 && Fills(|AllBits(full, v)|, w)
    requires AllBits(group, v) + extra == AllBits(other, w) + rest && |rest| < w
    requires forall k :: 0 <= k < |other| ==> other[k] < Power(w)
    ensures Regroup(AllBits(full + group, v) + extra, w) == Regroup(AllBits(full, v), w) + other
  {
    AllBitsConcat(full, group, v);
    JoinThree(AllBits(full, v), AllBits(group, v), extra);
    RegroupConcat(AllBits(full, v), AllBits(group, v) + extra, w);
    RegroupAllBits(other, w, rest);
  }

  lemma WholeSextets(full: seq<Byte>)
    requires |full| % 3 == 0
    ensures Sextets(full) == Regroup(AllBits(full, BYTE), SEXTET)
  {
    assert AllBits(full, BYTE) + Zeros(0) == AllBits(full, BYTE);
  }

  lemma FillerAppend(m: nat, n: nat)
    requires m % 3 == 0
    ensures Filler(m + n) == Filler(n)
  {}

  lemma NoExtra(bits: seq<bool>)
    ensures bits + Zeros(0) == bits
  {}

  lemma RegroupPadded(full: seq<Byte>, group: seq<Byte>, z: nat, vs: seq<Sextet>)
    requires |full| % 3 == 0 && AllBits(group, BYTE) + Zeros(z) == AllBits(vs, SEXTET)
    ensures Regroup(AllBits(full + group, BYTE) + Zeros(z), SEXTET)
         == Regroup(AllBits(full, BYTE), SEXTET) + vs
  {
    Powers();
    WholeGroups(full, BYTE, SEXTET);
    NoExtra(AllBits(vs, SEXTET));
    RegroupAppend(full, group, Zeros(z), vs, Zeros(0), BYTE, SEXTET);
  }

  lemma SextetsAppend(full: seq<Byte>, group: seq<Byte>, vs: seq<Sextet>)
    requires |full| % 3 == 0 && AllBits(group, BYTE) + Zeros(Filler(|group|)) == AllBits(vs, SEXTET)
    ensures Sextets(full + group) == Sextets(full) + vs
  {
    RegroupPadded(full, group, Filler(|group|), vs);
    WholeSextets(full);
    FillerAppend(|full|, |group|);
  }

  lemma FourSextets(n: Accumulator)
    ensures Number4(n / 0x4_0000 % 64, n / 0x1000 % 64, n / 64 % 64, n % 64) == n
  {
    assert n / 0x1000 / 64 == n / 0x4_0000 && n / 64 / 64 == n / 0x1000;
  }

  lemma ThreeSextets(n: nat)
    requires n < 0x4_0000
    ensures n / 0x1000 < 64 && Number3(n / 0x1000, n / 64 % 64, n % 64) == n
  {
    assert n / 64 / 64 == n / 0x1000;
  }

  lemma EncodeThree(full: seq<Byte>, b0: Byte, b1: Byte, b2: Byte, n: Accumulator)
    requires |full| % 3 == 0 && n == (b0 * 256 + b1) * 256 + b2
    ensures Sextets(full + [b0, b1, b2])
         == Sextets(full) + [n / 0x4_0000 % 64, n / 0x1000 % 64, n / 64 % 64, n % 64]
  {
    FourSextets(n);
    Powers();
    QuadIsTriple(n / 0x4_0000 % 64, n / 0x1000 % 64, n / 64 % 64, n % 64, b0, b1, b2, SEXTET, BYTE);
    NoExtra(AllBits([b0, b1, b2], BYTE));
    SextetsAppend(full, [b0, b1, b2], [n / 0x4_0000 % 64, n / 0x1000 % 64, n / 64 % 64, n % 64]);
  }

  lemma ZeroBits(w: nat)
    ensures Bits(0, w) == Zeros(w)
  {}

  lemma EncodeTwo(full: seq<Byte>, b0: Byte, b1: Byte, n: nat)
    requires |full| % 3 == 0 && n == (b0 * 256 + b1) * 4
    ensures n / 0x1000 < 64
    ensures Sextets(full + [b0, b1]) == Sextets(full) + [n / 0x1000, n / 64 % 64, n % 64]
  {
    ThreeSextets(n);
    Powers();
    ZeroBits(PAIR);
    TripleIsThree(n / 0x1000, n / 64 % 64, n % 64, b0, b1, 0, SEXTET, BYTE, PAIR);
    SextetsAppend(full, [b0, b1], [n / 0x1000, n / 64 % 64, n % 64]);
  }

  /** The two sextets that a single last byte gives. */
  function LastTwo(b: Byte): seq<Sextet> {
    [b / 4, b % 4 * 16]
  }

  lemma EncodeOne(full: seq<Byte>, b0: Byte)
    requires |full| % 3 == 0
    ensures Sextets(full + [b0]) == Sextets(full) + LastTwo(b0)
  {
    Powers();
    ZeroBits(NIBBLE);
    PairIsTwo(b0 / 4, b0 % 4 * 16, b0, 0, SEXTET, BYTE, NIBBLE);
    SextetsAppend(full, [b0], [b0 / 4, b0 % 4 * 16]);
  }

  lemma BytesAppend(full: seq<Sextet>, group: seq<Sextet>, bytes: seq<Byte>, rest: seq<bool>)
    requires |full| % 4 == 0 && |rest| < 8
    requires AllBits(group, SEXTET) == AllBits(bytes, BYTE) + rest
    ensures Bytes(full + group) == Bytes(full) + bytes
  {
    Powers();
    WholeGroups(full, SEXTET, BYTE);
    NoExtra(AllBits(group, SEXTET));
    RegroupAppend(full, group, Zeros(0), bytes, rest, SEXTET, BYTE);
    NoExtra(AllBits(full + group, SEXTET));
  }

  lemma ThreeBytes(n: Accumulator)
    ensures n / 0x1_0000 < 256
    ensures (n / 0x1_0000 * 256 + n / 256 % 256) * 256 + n % 256 == n
  {
    assert n / 256 / 256 == n / 0x1_0000;
  }

  lemma TwoBytes(n: nat)
    requires n < 0x4_0000
    ensures n / 1024 < 256 && (n / 1024 * 256 + n / 4 % 256) * 4 + n % 4 == n
  {
    assert n / 4 / 256 == n / 1024;
  }

  lemma DecodeFour(full: seq<Sextet>, v0: Sextet, v1: Sextet, v2: Sextet, v3: Sextet, n: Accumulator)
    requires |full| % 4 == 0 && n == Number4(v0, v1, v2, v3)
    ensures n / 0x1_0000 < 256
    ensures Bytes(full + [v0, v1, v2, v3]) == Bytes(full) + [n / 0x1_0000, n / 256 % 256, n % 256]
  {
    ThreeBytes(n);
    Powers();
    QuadIsTriple(v0, v1, v2, v3, n / 0x1_0000, n / 256 % 256, n % 256, SEXTET, BYTE);
    NoExtra(AllBits([n / 0x1_0000, n / 256 % 256, n % 256], BYTE));
    BytesAppend(full, [v0, v1, v2, v3], [n / 0x1_0000, n / 256 % 256, n % 256], Zeros(0));
  }

  lemma DecodeThree(full: seq<Sextet>, v0: Sextet, v1: Sextet, v2: Sextet, n: nat)
    requires |full| % 4 == 0 && n == Number3(v0, v1, v2)
    ensures n / 1024 < 256
    ensures Bytes(full + [v0, v1, v2]) == Bytes(full) + [n / 1024, n / 4 % 256]
  {
    TwoBytes(n);
    Powers();
    TripleIsThree(v0, v1, v2, n / 1024, n / 4 % 256, n % 4, SEXTET, BYTE, PAIR);
    BytesAppend(full, [v0, v1, v2], [n / 1024, n / 4 % 256], Bits(n % 4, PAIR));
  }

  lemma DecodeTwo(full: seq<Sextet>, v0: Sextet, v1: Sextet, n: nat)
    requires |full| % 4 == 0 && n == Number2(v0, v1)
    ensures n / 16 < 256 && Bytes(full + [v0, v1]) == Bytes(full) + [n / 16]
  {
    Powers();
    PairIsTwo(v0, v1, n / 16, n % 16, SEXTET, BYTE, NIBBLE);
    BytesAppend(full, [v0, v1], [n / 16], Bits(n % 16, NIBBLE));
  }

  lemma DecodeOne(full: seq<Sextet>, v0: Sextet)
    requires |full| % 4 == 0
    ensures Bytes(full + [v0]) == Bytes(full)
  {
    AllBitsCons(v0, [], SEXTET);
    assert [v0] + [] == [v0];
    assert AllBits([], BYTE) + Bits(v0, SEXTET) == Bits(v0, SEXTET);
    BytesAppend(full, [v0], [], Bits(v0, SEXTET));
  }

  // ---- The encoder ----

  lemma EncodedSize(n: nat)
    ensures (8 * n + Filler(n)) / 6 + |Padding(n)| == (n + 2) / 3 * 4
  {
    var q, r := n / 3, n % 3;
    assert n == 3 * q + r;
  }

  lemma WholeSixes(bits: seq<bool>)
    requires |bits| % 6 == 0
    ensures |Regroup(bits, SEXTET)| == |bits| / 6
  {
    MultiplesFill(|bits| / 6, SEXTET);
    FilledHasNoRest(bits, SEXTET);
    RegroupLength(bits, SEXTET);
  }

  lemma SextetsLength(s: seq<Byte>)
    ensures |Sextets(s)| == (8 * |s| + Filler(|s|)) / 6
    ensures |Encoded(s)| == (|s| + 2) / 3 * 4
  {
    AllBitsLength(s, BYTE);
    WholeSixes(AllBits(s, BYTE) + Zeros(Filler(|s|)));
    EncodedSize(|s|);
  }

  /** `bits` when some bytes of a group of three have been read. */
  function Gathered(part: seq<Byte>): (n: Accumulator)
    requires |part| < 3
  {
    var p: seq<nat> := part;
    if |p| == 0 then 0 else if |p| == 1 then p[0] * 256 else (p[0] * 256 + p[1]) * 256
  }

  /** The front of `was` replaced by `written`. */
  ghost function Overwritten(was: seq<Byte>, written: seq<Byte>): (r: seq<Byte>)
    requires |written| <= |was|
    ensures |r| == |was|
  {
    written + was[|written|..]
  }

  method Put(output: array<Byte>, at: nat, c: Byte, ghost was: seq<Byte>, ghost written: seq<Byte>)
    requires at == |written| < |was| && output[..] == Overwritten(was, written)
    modifies output
    ensures output[..] == Overwritten(was, written + [c])
  {
    output[at] := c;
  }

  method PutFour(output: array<Byte>, at: nat, v0: Sextet, v1: Sextet, v2: Sextet, v3: Sextet,
                 ghost was: seq<Byte>, ghost written: seq<Byte>)
    requires at == |written| && at + 4 <= |was| && output[..] == Overwritten(was, written)
    modifies output
    ensures output[..] == Overwritten(was, written + Letters([v0, v1, v2, v3]))
  {
    Put(output, at, Letter(v0), was, written);
    Put(output, at + 1, Letter(v1), was, written + [Letter(v0)]);
    Put(output, at + 2, Letter(v2), was, written + [Letter(v0)] + [Letter(v1)]);
    Put(output, at + 3, Letter(v3), was, written + [Letter(v0)] + [Letter(v1)] + [Letter(v2)]);
    assert written + [Letter(v0)] + [Letter(v1)] + [Letter(v2)] + [Letter(v3)]
        == written + Letters([v0, v1, v2, v3]);
  }

  lemma LettersConcat(a: seq<Sextet>, b: seq<Sextet>)
    ensures Letters(a + b) == Letters(a) + Letters(b)
  {}

  lemma LettersOfThree(full: seq<Byte>, part: seq<Byte>, b: Byte, n: Accumulator)
    requires |full| % 3 == 0 && |part| == 2 && n == Gathered(part) + b
    ensures Letters(Sextets(full + (part + [b])))
         == Letters(Sextets(full)) + Letters([n / 0x4_0000 % 64, n / 0x1000 % 64, n / 64 % 64, n % 64])
  {
    assert part + [b] == [part[0], part[1], b];
    EncodeThree(full, part[0], part[1], b, n);
    LettersConcat(Sextets(full), [n / 0x4_0000 % 64, n / 0x1000 % 64, n / 64 % 64, n % 64]);
  }

  function LastGroup(n: nat, charCount: nat): seq<Byte> {
    [Letter(n / 0x4_0000 % 64), Letter(n / 0x1000 % 64),
     if charCount == 2 then Letter(n / 64 % 64) else PAD, PAD]
  }

  /** The last group of letters with its padding, after the whole groups. */
  lemma EncodedWith(s: seq<Byte>, full: seq<Sextet>, last: seq<Sextet>, group: seq<Byte>)
    requires Sextets(s) == full + last && group == Letters(last) + Padding(|s|)
    ensures Encoded(s) == Letters(full) + group
  {
    LettersConcat(full, last);
    JoinThree(Letters(full), Letters(last), Padding(|s|));
  }

  lemma HighestBits(b: Byte, n: nat)
    requires n == b * 0x1_0000
    ensures n / 0x4_0000 % 64 == b / 4 && n / 0x1000 % 64 == b % 4 * 16
  {
    var q, r := b / 4, b % 4;
    assert n == q * 0x4_0000 + r * 0x1_0000;
    assert n == (q * 64 + r * 16) * 0x1000;
  }

  lemma OneSextets(b: Byte, n: nat)
    requires n == b * 0x1_0000
    ensures LastGroup(n, 1) == Letters(LastTwo(b)) + [PAD, PAD]
  {
    HighestBits(b, n);
  }

  lemma PaddingOfOne(full: seq<Byte>, b: Byte)
    requires |full| % 3 == 0
    ensures Padding(|full + [b]|) == [PAD, PAD]
  {}

  lemma LettersOfOne(full: seq<Byte>, b: Byte, n: nat)
    requires |full| % 3 == 0 && n == b * 0x1_0000
    ensures Encoded(full + [b]) == Letters(Sextets(full)) + LastGroup(n, 1)
  {
    EncodeOne(full, b);
    OneSextets(b, n);
    PaddingOfOne(full, b);
    EncodedWith(full + [b], Sextets(full), LastTwo(b), LastGroup(n, 1));
  }

  lemma MovedSextets(m: nat)
    requires m < 0x4_0000
    ensures m / 0x1000 < 64
    ensures m * 64 / 0x4_0000 % 64 == m / 0x1000
    ensures m * 64 / 0x1000 % 64 == m / 64 % 64
    ensures m * 64 / 64 % 64 == m % 64
  {}

  /** The three sextets that two last bytes, with two zero bits, give. */
  function LastThree(m: nat): seq<Sextet>
    requires m < 0x4_0000
  {
    ThreeSextets(m);
    [m / 0x1000, m / 64 % 64, m % 64]
  }

  lemma TwoSextets(m: nat)
    requires m < 0x4_0000
    ensures LastGroup(m * 64, 2) == Letters(LastThree(m)) + [PAD]
  {
    MovedSextets(m);
  }

  lemma PaddingOfTwo(full: seq<Byte>, b: Byte, c: Byte)
    requires |full| % 3 == 0
    ensures Padding(|full + [b, c]|) == [PAD]
  {}

  lemma LettersOfTwo(full: seq<Byte>, b: Byte, c: Byte, m: nat)
    requires |full| % 3 == 0 && m == (b * 256 + c) * 4 && m < 0x4_0000
    ensures Encoded(full + [b, c]) == Letters(Sextets(full)) + LastGroup(m * 64, 2)
  {
    EncodeTwo(full, b, c, m);
    TwoSextets(m);
    PaddingOfTwo(full, b, c);
    EncodedWith(full + [b, c], Sextets(full), LastThree(m), LastGroup(m * 64, 2));
  }

  lemma LettersOfRest(full: seq<Byte>, part: seq<Byte>, n: nat)
    requires |full| % 3 == 0 && 1 <= |part| <= 2
    requires n == if |part| == 1 then Gathered(part) * 256 else Gathered(part)
    ensures Encoded(full + part) == Letters(Sextets(full)) + LastGroup(n, |part|)
  {
    if |part| == 1 {
      assert part == [part[0]];
      LettersOfOne(full, part[0], n);
    } else {
      assert part == [part[0], part[1]];
      var m: nat := part[0];
      m := (m * 256 + part[1]) * 4;
      LettersOfTwo(full, part[0], part[1], m);
      assert m * 64 == n;
    }
  }

  method PutRest(output: array<Byte>, at: nat, charCount: nat, gathered: Accumulator,
                 ghost was: seq<Byte>, ghost written: seq<Byte>)
    requires 1 <= charCount <= 2 && (charCount == 1 ==> gathered < 0x1_0000)
    requires at == |written| && at + 4 <= |was| && output[..] == Overwritten(was, written)
    modifies output
    ensures output[..] == Overwritten(was, written
                        + LastGroup(if charCount == 1 then gathered * 256 else gathered, charCount))
  {
    var bits := gathered;
    if charCount == 1 {
      bits := bits * 256;
    }
    var c0, c1 := Letter(bits / 0x4_0000 % 64), Letter(bits / 0x1000 % 64);
    Put(output, at, c0, was, written);
    Put(output, at + 1, c1, was, written + [c0]);
    var c2;
    if charCount > 1 {
      c2 := Letter(bits / 64 % 64);
    } else {
      c2 := PAD;
    }
    Put(output, at + 2, c2, was, written + [c0] + [c1]);
    Put(output, at + 3, PAD, was, written + [c0] + [c1] + [c2]);
    assert written + [c0] + [c1] + [c2] + [PAD] == written + LastGroup(bits, charCount);
  }

  method PutGroup(output: array<Byte>, at: nat, bits: Accumulator,
                  ghost was: seq<Byte>, ghost full: seq<Byte>, ghost part: seq<Byte>, ghost b: Byte)
    requires |full| % 3 == 0 && |part| == 2 && bits == Gathered(part) + b
    requires at == |Letters(Sextets(full))| && at + 4 <= |was|
    requires output[..] == Overwritten(was, Letters(Sextets(full)))
    modifies output
    ensures at + 4 == |Letters(Sextets(full + (part + [b])))|
    ensures output[..] == Overwritten(was, Letters(Sextets(full + (part + [b]))))
  {
    LettersOfThree(full, part, b, bits);
    PutFour(output, at, bits / 0x4_0000 % 64, bits / 0x1000 % 64, bits / 64 % 64, bits % 64,
            was, Letters(Sextets(full)));
  }

  lemma GatheredShifts(part: seq<Byte>, b: Byte)
    requires |part| < 3
    ensures Gathered(part) % 256 == 0 && Gathered(part) + b < 0x100_0000
    ensures |part| < 2 ==> (Gathered(part) + b) * 256 < 0x100_0000
    ensures |part| < 2 ==> Gathered(part + [b]) == (Gathered(part) + b) * 256
  {}

  /** One byte joins the group; the third completes it. */
  method TakeByte(output: array<Byte>, b: Byte, counted: nat, gathered: Accumulator, at: nat,
                  ghost was: seq<Byte>, ghost before: seq<Byte>, ghost begun: seq<Byte>)
    returns (charCount: nat, bits: Accumulator, outputIdx: nat, ghost full: seq<Byte>, ghost part: seq<Byte>)
    requires |before| % 3 == 0 && |begun| == counted < 3 && gathered == Gathered(begun)
    requires at == |Letters(Sextets(before))| <= |was| && (|before| + |begun| + 1) / 3 * 4 <= |was|
    requires output[..] == Overwritten(was, Letters(Sextets(before)))
    modifies output
    ensures full + part == before + begun + [b] && |full| % 3 == 0
    ensures |part| == charCount < 3 && bits == Gathered(part)
    ensures outputIdx == |Letters(Sextets(full))| <= |was|
    ensures output[..] == Overwritten(was, Letters(Sextets(full)))
  {
    GatheredShifts(begun, b);
    bits := gathered + b;           // `|=`, the lowest eight bits being zero
    charCount, outputIdx := counted + 1, at;
    full, part := before, begun + [b];
    if charCount == 3 {
      SextetsLength(before);
      PutGroup(output, at, bits, was, before, begun, b);
      full, part := before + (begun + [b]), [];
      bits, charCount, outputIdx := 0, 0, at + 4;
    } else {
      bits := bits * 256;
    }
  }

  /** The groups of three; what is left waits in `bits`. */
  method PutGroups(input: seq<Byte>, output: array<Byte>)
    returns (charCount: nat, bits: Accumulator, outputIdx: nat, ghost full: seq<Byte>, ghost part: seq<Byte>)
    requires output.Length >= |input| / 3 * 4
    modifies output
    ensures full + part == input && |full| % 3 == 0
    ensures |part| == charCount < 3 && bits == Gathered(part)
    ensures outputIdx == |Letters(Sextets(full))| == |full| / 3 * 4
    ensures output[..] == Overwritten(old(output[..]), Letters(Sextets(full)))
  {
    charCount, bits, outputIdx := 0, 0, 0;
    full, part := [], [];
    ghost var was := output[..];
    var i := 0;
    while i < |input|
      invariant 0 <= i <= |input| && full + part == input[..i]
      invariant |full| % 3 == 0 && |part| == charCount < 3 && bits == Gathered(part)
      invariant outputIdx == |Letters(Sextets(full))|
      invariant outputIdx <= |was| && output[..] == Overwritten(was, Letters(Sextets(full)))
    {
      assert input[..i + 1] == input[..i] + [input[i]] && |full| + |part| == i;
      charCount, bits, outputIdx, full, part :=
        TakeByte(output, input[i], charCount, bits, outputIdx, was, full, part);
      i := i + 1;
    }
    SextetsLength(full);
  }

  lemma NothingLeft(input: seq<Byte>, full: seq<Byte>)
    requires full + [] == input && |full| % 3 == 0
    ensures Letters(Sextets(full)) == Encoded(input)
  {
    assert full + [] == full;
    assert Letters(Sextets(full)) + Padding(|full|) == Letters(Sextets(full));
  }

  /** What is left of a group of three is written with its padding. */
  method FinishGroup(input: seq<Byte>, output: array<Byte>, at: nat, charCount: nat, bits: Accumulator,
                     ghost was: seq<Byte>, ghost full: seq<Byte>, ghost part: seq<Byte>) returns (outputIdx: nat)
    requires full + part == input && |full| % 3 == 0 && |part| == charCount < 3 && bits == Gathered(part)
    requires at == |Letters(Sextets(full))| == |full| / 3 * 4 <= |was| && |Encoded(input)| <= |was|
    requires output[..] == Overwritten(was, Letters(Sextets(full)))
    modifies output
    ensures outputIdx == |Encoded(input)| && output[..] == Overwritten(was, Encoded(input))
  {
    outputIdx := at;
    if charCount > 0 {
      LettersOfRest(full, part, if charCount == 1 then bits * 256 else bits);
      PutRest(output, at, charCount, bits, was, Letters(Sextets(full)));
      outputIdx := at + 4;
    } else {
      NothingLeft(input, full);
    }
  }

  method DoBase64Encode(input: seq<Byte>, output: array<Byte>)
    requires output.Length >= |Encoded(input)| + 1
    modifies output
    ensures output[..] == Encoded(input) + [0] + old(output[|Encoded(input)| + 1..])
  {
    ghost var was := output[..];
    SextetsLength(input);
    var charCount, bits, outputIdx, full, part := PutGroups(input, output);
    outputIdx := FinishGroup(input, output, outputIdx, charCount, bits, was, full, part);
    Put(output, outputIdx, 0, was, Encoded(input));
  }

  // ---- The decoder ----

  function Collected(part: seq<Sextet>): (n: Accumulator)
    requires |part| < 4
  {
    if |part| == 0 then 0
    else if |part| == 1 then part[0] as nat * 64
    else if |part| == 2 then Number2(part[0], part[1]) * 64
    else Number3(part[0], part[1], part[2]) * 64
  }

  lemma CollectedShifts(part: seq<Sextet>, v: Sextet)
    requires |part| < 4
    ensures Collected(part) + v < 0x100_0000
    ensures |part| < 3 ==> Collected(part + [v]) == (Collected(part) + v) * 64
    ensures |part| == 3 ==> Collected(part) + v == Number4(part[0], part[1], part[2], v)
  {}

  lemma {:induction false} BytesLength(vs: seq<Sextet>)
    ensures |Bytes(vs)| == 6 * |vs| / 8
  {
    AllBitsLength(vs, SEXTET);
    RegroupLength(AllBits(vs, SEXTET), BYTE);
  }

  lemma {:induction false} KeptLength(s: seq<Byte>)
    ensures |Kept(s)| + (if PAD in s then 1 else 0) <= |s|
  {
    if s != [] && s[0] != PAD {
      KeptLength(s[1..]);
      assert PAD in s <==> PAD in s[1..];
    }
  }

  /** The size that the wrapper allocates is enough for every input. */
  lemma DecodedFits(s: seq<Byte>)
    ensures |Decoded(s)| <= |s| / 4 * 3 + 1
  {
    var vs := Kept(s);
    KeptLength(s);
    BytesLength(vs);
    BytesLength(Quads(vs));
  }

  method PutThree(output: array<Byte>, at: nat, bits: Accumulator,
                  ghost was: seq<Byte>, ghost full: seq<Sextet>, ghost part: seq<Sextet>, ghost v: Sextet)
    requires |full| % 4 == 0 && |part| == 3 && bits == Collected(part) + v
    requires at == |Bytes(full)| && at + 3 <= |was|
    requires output[..] == Overwritten(was, Bytes(full))
    modifies output
    ensures at + 3 == |Bytes(full + (part + [v]))|
    ensures output[..] == Overwritten(was, Bytes(full + (part + [v])))
  {
    CollectedShifts(part, v);
    DecodeFour(full, part[0], part[1], part[2], v, bits);
    assert part + [v] == [part[0], part[1], part[2], v];
    var b0, b1, b2 := bits / 0x1_0000, bits / 256 % 256, bits % 256;
    Put(output, at, b0, was, Bytes(full));
    Put(output, at + 1, b1, was, Bytes(full) + [b0]);
    Put(output, at + 2, b2, was, Bytes(full) + [b0] + [b1]);
    assert Bytes(full) + [b0] + [b1] + [b2] == Bytes(full) + [b0, b1, b2];
  }

  lemma Shifted(n: nat)
    ensures n * 64 / 1024 == n / 16
    ensures n * 64 / 0x1_0000 == n / 1024 && n * 64 / 256 % 256 == n / 4 % 256
  {}

  /** What the switch after the loop makes of an incomplete group before a padding character. */
  method PutIncomplete(output: array<Byte>, at: nat, charCount: nat, bits: Accumulator,
                       ghost was: seq<Byte>, ghost full: seq<Sextet>, ghost part: seq<Sextet>)
    returns (outputIdx: nat, errors: nat)
    requires |full| % 4 == 0 && |part| == charCount < 4 && bits == Collected(part)
    requires at == |Bytes(full)| <= |Bytes(full + part)| <= |was|
    requires output[..] == Overwritten(was, Bytes(full))
    modifies output
    ensures errors == if charCount == 1 then 1 else 0
    ensures outputIdx == |Bytes(full + part)|
    ensures output[..] == Overwritten(was, Bytes(full + part))
  {
    outputIdx, errors := at, 0;
    if charCount == 0 {
      assert full + part == full;
    } else if charCount == 1 {
      errors := 1;
      DecodeOne(full, part[0]);
      assert part == [part[0]];
    } else if charCount == 2 {
      var n := Number2(part[0], part[1]);
      DecodeTwo(full, part[0], part[1], n);
      assert part == [part[0], part[1]];
      Shifted(n);
      Put(output, at, bits / 1024, was, Bytes(full));
      outputIdx := at + 1;
    } else {
      var n := Number3(part[0], part[1], part[2]);
      DecodeThree(full, part[0], part[1], part[2], n);
      assert part == [part[0], part[1], part[2]];
      Shifted(n);
      Put(output, at, bits / 0x1_0000, was, Bytes(full));
      Put(output, at + 1, bits / 256 % 256, was, Bytes(full) + [bits / 0x1_0000]);
      assert Bytes(full) + [bits / 0x1_0000] + [bits / 256 % 256]
          == Bytes(full) + [bits / 0x1_0000, bits / 256 % 256];
      outputIdx := at + 2;
    }
  }

  /** The letters read up to place `i` are `full` and `part`. */
  ghost predicate Progress(input: seq<Byte>, i: nat, full: seq<Sextet>, part: seq<Sextet>)
    requires i <= |input|
  {
    full + part + Kept(input[i..]) == Kept(input)
  }

  lemma Regrouped(full: seq<Sextet>, part: seq<Sextet>, v: Sextet, rest: seq<Sextet>)
    ensures full + part + ([v] + rest) == full + (part + [v]) + rest
    ensures full + (part + [v]) + [] == full + (part + [v])
  {}

  lemma ProgressStep(input: seq<Byte>, i: nat, full: seq<Sextet>, part: seq<Sextet>)
    requires i < |input| && input[i] != PAD && Progress(input, i, full, part)
    ensures !InAlphabet(input[i]) ==> Progress(input, i + 1, full, part)
    ensures InAlphabet(input[i]) ==> Progress(input, i + 1, full, part + [Value(input[i])])
    ensures InAlphabet(input[i]) ==> Progress(input, i + 1, full + (part + [Value(input[i])]), [])
  {
    assert input[i..][1..] == input[i + 1..];
    if InAlphabet(input[i]) {
      Regrouped(full, part, Value(input[i]), Kept(input[i + 1..]));
    }
  }

  lemma LongerYieldsMore(a: seq<Sextet>, b: seq<Sextet>)
    requires |a| <= |b|
    ensures |Bytes(a)| <= |Bytes(b)|
  {
    BytesLength(a);
    BytesLength(b);
  }

  lemma WholeLengths(m: nat, n: nat)
    requires m % 4 == 0 && m <= n
    ensures m <= n - n % 4
  {}

  /** What whole groups of the letters yield is not more than the whole result. */
  lemma GroupsFit(input: seq<Byte>, i: nat, full: seq<Sextet>)
    requires i <= |input| && Progress(input, i, full, []) && |full| % 4 == 0
    ensures |Bytes(full)| <= |Decoded(input)|
  {
    var vs := Kept(input);
    assert |full + [] + Kept(input[i..])| >= |full|;
    WholeLengths(|full|, |vs|);
    LongerYieldsMore(full, vs);
    LongerYieldsMore(full, Quads(vs));
  }

  lemma WholeGroup(input: seq<Byte>, i: nat, full: seq<Sextet>, part: seq<Sextet>, v: Sextet)
    requires i <= |input| && Progress(input, i, full + (part + [v]), [])
    requires |full| % 4 == 0 && |part| == 3
    ensures |Bytes(full)| + 3 <= |Decoded(input)|
  {
    GroupsFit(input, i, full + (part + [v]));
    BytesLength(full);
    BytesLength(full + (part + [v]));
  }

  lemma FourMore(m: nat)
    requires m % 4 == 0
    ensures (m + 4) % 4 == 0
  {}

  /** One letter joins the group; the fourth completes it. */
  method TakeLetter(output: array<Byte>, v: Sextet, gathered: nat, collected: Accumulator, at: nat,
                    ghost input: seq<Byte>, ghost i: nat,
                    ghost was: seq<Byte>, ghost before: seq<Sextet>, ghost begun: seq<Sextet>)
    returns (charCount: nat, bits: Accumulator, outputIdx: nat, ghost full: seq<Sextet>, ghost part: seq<Sextet>)
    requires |before| % 4 == 0 && |begun| == gathered < 4 && collected == Collected(begun)
    requires at == |Bytes(before)| <= |was| && |Decoded(input)| <= |was|
    requires output[..] == Overwritten(was, Bytes(before))
    requires i <= |input| && Progress(input, i, before, begun + [v])
    requires Progress(input, i, before + (begun + [v]), [])
    modifies output
    ensures |full| % 4 == 0 && |part| == charCount < 4 && bits == Collected(part)
    ensures outputIdx == |Bytes(full)| <= |was|
    ensures output[..] == Overwritten(was, Bytes(full))
    ensures Progress(input, i, full, part)
  {
    CollectedShifts(begun, v);
    bits, charCount, outputIdx := collected + v, gathered + 1, at;
    full, part := before, begun + [v];
    if charCount == 4 {
      WholeGroup(input, i, before, begun, v);
      FourMore(|before|);
      PutThree(output, at, bits, was, before, begun, v);
      full, part := before + (begun + [v]), [];
      bits, charCount, outputIdx := 0, 0, at + 3;
    } else {
      bits := bits * 64;
    }
  }

  lemma ReadAll(input: seq<Byte>, full: seq<Sextet>, part: seq<Sextet>)
    requires Progress(input, |input|, full, part)
    ensures full + part == Kept(input)
  {
    assert Kept(input[|input|..]) == [];
    assert full + part + [] == full + part;
  }

  lemma ReadToPad(input: seq<Byte>, i: nat, full: seq<Sextet>, part: seq<Sextet>)
    requires i < |input| && input[i] == PAD && Progress(input, i, full, part)
    ensures full + part == Kept(input)
  {}

  /** One character that is not the padding: skipped, or taken. */
  method ReadLetter(inAlphabet: array<bool>, decoder: array<Sextet>, input: seq<Byte>, inputIdx: nat,
                    output: array<Byte>,
                    gathered: nat, collected: Accumulator, at: nat,
                    ghost was: seq<Byte>, ghost before: seq<Sextet>, ghost begun: seq<Sextet>)
    returns (charCount: nat, bits: Accumulator, outputIdx: nat, ghost full: seq<Sextet>, ghost part: seq<Sextet>)
    requires Tables(inAlphabet, decoder) && inputIdx < |input| && input[inputIdx] != PAD
    requires Progress(input, inputIdx, before, begun)
    requires |before| % 4 == 0 && |begun| == gathered < 4 && collected == Collected(begun)
    requires at == |Bytes(before)| <= |was| && |Decoded(input)| <= |was|
    requires output[..] == Overwritten(was, Bytes(before))
    modifies output
    ensures |full| % 4 == 0 && |part| == charCount < 4 && bits == Collected(part)
    ensures outputIdx == |Bytes(full)| <= |was|
    ensures output[..] == Overwritten(was, Bytes(full))
    ensures Progress(input, inputIdx + 1, full, part)
  {
    var c := input[inputIdx];
    ProgressStep(input, inputIdx, before, begun);
    charCount, bits, outputIdx, full, part := gathered, collected, at, before, begun;
    if inAlphabet[c] {
      var v := decoder[c];
      assert v == Value(c);
      charCount, bits, outputIdx, full, part :=
        TakeLetter(output, v, gathered, collected, at, input, inputIdx + 1, was, before, begun);
    }
  }

  /** The loop: reads up to the first padding character or the end, and writes the whole groups. */
  method ReadLetters(input: seq<Byte>, output: array<Byte>)
    returns (c: Byte, inputIdx: nat, charCount: nat, bits: Accumulator, outputIdx: nat,
             ghost full: seq<Sextet>, ghost part: seq<Sextet>)
    requires output.Length >= |Decoded(input)|
    modifies output
    ensures inputIdx <= |input| && (c == PAD <==> inputIdx < |input|) && (c == PAD <==> PAD in input)
    ensures full + part == Kept(input) && |full| % 4 == 0
    ensures |part| == charCount < 4 && bits == Collected(part)
    ensures outputIdx == |Bytes(full)| <= output.Length
    ensures output[..] == Overwritten(old(output[..]), Bytes(full))
  {
    var inAlphabet, decoder := BuildTables();
    c, inputIdx, charCount, bits, outputIdx := 0, 0, 0, 0, 0;
    full, part := [], [];
    ghost var was := output[..];
    while inputIdx < |input|
      invariant 0 <= inputIdx <= |input| && c != PAD && PAD !in input[..inputIdx]
      invariant Tables(inAlphabet, decoder) && Progress(input, inputIdx, full, part)
      invariant |full| % 4 == 0 && |part| == charCount < 4 && bits == Collected(part)
      invariant outputIdx == |Bytes(full)| <= |was|
      invariant output[..] == Overwritten(was, Bytes(full))
    {
      c := input[inputIdx];
      if c == PAD {
        ReadToPad(input, inputIdx, full, part);
        break;
      }
      charCount, bits, outputIdx, full, part :=
        ReadLetter(inAlphabet, decoder, input, inputIdx, output, charCount, bits, outputIdx, was, full, part);
      inputIdx := inputIdx + 1;
    }
    if c != PAD {
      ReadAll(input, full, part);
      assert input[..inputIdx] == input;
    }
  }

  lemma BytesGrow(full: seq<Sextet>, part: seq<Sextet>)
    ensures |Bytes(full)| <= |Bytes(full + part)|
  {
    BytesLength(full);
    BytesLength(full + part);
  }

  lemma WholePart(full: seq<Sextet>, part: seq<Sextet>)
    requires |full| % 4 == 0 && |part| < 4
    ensures |full + part| % 4 == |part| && Quads(full + part) == full
  {}

  lemma DecodedParts(input: seq<Byte>, full: seq<Sextet>, part: seq<Sextet>)
    requires full + part == Kept(input) && |full| % 4 == 0 && |part| < 4
    ensures |Bytes(full)| <= |Bytes(full + part)|
    ensures Decoded(input) == Bytes(if PAD in input then full + part else full)
    ensures Faulty(input) <==> PAD in input && |part| == 1
  {
    BytesGrow(full, part);
    WholePart(full, part);
  }

  method DoBase64Decode(input: seq<Byte>, output: array<Byte>) returns (errors: nat, outputLen: nat)
    requires output.Length >= |Decoded(input)|
    modifies output
    ensures errors == if Faulty(input) then 1 else 0
    ensures outputLen == |Decoded(input)|
    ensures output[..] == Decoded(input) + old(output[|Decoded(input)|..])
  {
    ghost var was := output[..];
    var c, inputIdx, charCount, bits, outputIdx, full, part := ReadLetters(input, output);
    outputLen, errors := outputIdx, 0;
    DecodedParts(input, full, part);
    if c == PAD {
      outputLen, errors := PutIncomplete(output, outputIdx, charCount, bits, was, full, part);
    } else {
      // The source's branch for `inputIdx < inputLen` is never taken: without a break, all is read.
      assert inputIdx == |input|;
    }
  }

  // ---- The functions that allocate ----

  method Base64Decode(input: seq<Byte>) returns (out: Option<array<Byte>>, outLength: nat)
    ensures out.None? <==> Faulty(input)
    ensures out.None? ==> outLength == 0
    ensures out.Some? ==> fresh(out.value) && out.value.Length == |input| / 4 * 3 + 1
    ensures out.Some? ==> outLength == |Decoded(input)| <= out.value.Length
    ensures out.Some? ==> out.value[..outLength] == Decoded(input)
  {
    DecodedFits(input);
    var buffer := new Byte[|input| / 4 * 3 + 1];
    var errors, n := DoBase64Decode(input, buffer);
    if errors > 0 {
      out, outLength := None, 0;
    } else {
      out, outLength := Some(buffer), n;
    }
  }

  const TWO_32: nat := 0x1_0000_0000

  /** `(inLength + 2) / 3 * 4` on 32-bit numbers. */
  function EncodedLength32(n: nat): nat {
    ((n + 2) % TWO_32) / 3 * 4 % TWO_32
  }

  lemma Wrapped(m: nat)
    requires TWO_32 <= m
    ensures m % TWO_32 < TWO_32 <= m
  {}

  lemma NotWrapped(m: nat)
    requires m < TWO_32
    ensures m % TWO_32 == m
  {}

  lemma Thirds(n: nat)
    ensures (n + 2) / 3 * 4 < TWO_32 <==> n <= 3221225469
    ensures n + 2 >= TWO_32 ==> (n + 2) / 3 * 4 >= TWO_32
  {
    var k := (n + 2) / 3;
    assert 3 * k <= n + 2 < 3 * k + 3;
  }

  lemma Length32(n: nat)
    requires n < TWO_32
    ensures EncodedLength32(n) == (n + 2) / 3 * 4 <==> n <= 3221225469
    ensures n > 3221225469 ==> EncodedLength32(n) < (n + 2) / 3 * 4
  {
    Thirds(n);
    if n + 2 < TWO_32 {
      NotWrapped(n + 2);
    }
    if n <= 3221225469 {
      NotWrapped((n + 2) / 3 * 4);
    } else {
      Wrapped((n + 2) / 3 * 4);
    }
  }

  /**
   * The computed size is that of the text exactly for the inputs whose text a 32-bit size can measure; a
   * size that has wrapped around is smaller than the text.
   */
  lemma EncodedLength32IsRight(s: seq<Byte>)
    requires |s| < TWO_32
    ensures EncodedLength32(|s|) == |Encoded(s)| <==> |s| <= 3221225469
    ensures |s| > 3221225469 ==> EncodedLength32(|s|) < |Encoded(s)|
  {
    SextetsLength(s);
    Length32(|s|);
  }

  /**
   * The allocated buffer has the computed size, and holds the encoded text exactly if that size is right.
   * Otherwise it is too small for the text; what the source then writes is undefined, and not modelled.
   */
  method Base64Encode(input: seq<Byte>) returns (out: array<Byte>, outLength: nat, fits: bool)
    requires |input| < TWO_32
    ensures fresh(out) && outLength == EncodedLength32(|input|) && out.Length == outLength + 1
    ensures fits <==> |input| <= 3221225469
    ensures fits ==> outLength == |Encoded(input)| && out[..] == Encoded(input) + [0]
    ensures !fits ==> out.Length < |Encoded(input)| + 1
  {
    EncodedLength32IsRight(input);
    outLength := EncodedLength32(|input|);
    out := new Byte[outLength + 1];
    fits := |input| <= 3221225469;
    if fits {
      DoBase64Encode(input, out);
    }
  }

  // ---- What the two promise together ----

  lemma {:induction false} KeptOfLetters(vs: seq<Sextet>, pads: seq<Byte>)
    requires forall k :: 0 <= k < |pads| ==> pads[k] == PAD
    ensures Kept(Letters(vs) + pads) == vs
    ensures PAD in Letters(vs) + pads <==> pads != []
  {
    LettersDiffer();
    if vs == [] {
      assert Letters(vs) + pads == pads;
    } else {
      var text := Letters(vs) + pads;
      assert text[1..] == Letters(vs[1..]) + pads;
      KeptOfLetters(vs[1..], pads);
      assert text == [text[0]] + text[1..];
      assert Value(Letter(vs[0])) == vs[0];
    }
  }

  lemma BytesOfSextets(s: seq<Byte>)
    ensures Bytes(Sextets(s)) == s
  {
    var padded := AllBits(s, BYTE) + Zeros(Filler(|s|));
    AllBitsLength(s, BYTE);
    MultiplesFill(|padded| / 6, SEXTET);
    FilledHasNoRest(padded, SEXTET);
    AllBitsRegroup(padded, SEXTET);
    assert AllBits(Sextets(s), SEXTET) + [] == AllBits(Sextets(s), SEXTET);
    Powers();
    RegroupAllBits(s, 8, Zeros(Filler(|s|)));
  }

  lemma DecodedLetters(text: seq<Byte>, vs: seq<Sextet>)
    requires Kept(text) == vs && (PAD in text || |vs| % 4 == 0)
    ensures Decoded(text) == Bytes(vs)
  {
    if PAD !in text {
      WholePart(vs, []);
      assert vs + [] == vs;
    }
  }

  lemma CountSextets(n: nat, q: nat, r: nat)
    requires n == 3 * q + r && r < 3
    ensures (8 * n + Filler(n)) / 6 == 4 * q + (if r == 0 then 0 else r + 1)
  {
    assert n % 3 == r;
  }

  lemma LastGroupOf(q: nat, r: nat)
    requires r < 4
    ensures (4 * q + r) % 4 == r
  {}

  lemma SextetsCount(s: seq<Byte>)
    ensures |Sextets(s)| % 4 == if |s| % 3 == 0 then 0 else |s| % 3 + 1
  {
    var q, r := |s| / 3, |s| % 3;
    SextetsLength(s);
    CountSextets(|s|, q, r);
    LastGroupOf(q, if r == 0 then 0 else r + 1);
  }

  /** Every byte string comes back from its encoding, without an error. */
  lemma RoundTrip(s: seq<Byte>)
    ensures !Faulty(Encoded(s)) && Decoded(Encoded(s)) == s
  {
    KeptOfLetters(Sextets(s), Padding(|s|));
    SextetsCount(s);
    DecodedLetters(Encoded(s), Sextets(s));
    BytesOfSextets(s);
  }

  /** The encoder writes the letters, padded to whole groups of four, and nothing that a decoder skips. */
  lemma EncodedShape(s: seq<Byte>, k: nat)
    requires k < |Encoded(s)|
    ensures |Encoded(s)| == (|s| + 2) / 3 * 4
    ensures Encoded(s)[k] == PAD <==> k >= |Encoded(s)| - |Padding(|s|)|
    ensures Encoded(s)[k] != PAD ==> InAlphabet(Encoded(s)[k])
  {
    SextetsLength(s);
    LettersDiffer();
  }

  /** All characters outside the alphabet deleted, up to the first padding character. */
  function Stripped(s: seq<Byte>): seq<Byte> {
    if s == [] || s[0] == PAD then s
    else (if InAlphabet(s[0]) then [s[0]] else []) + Stripped(s[1..])
  }

  lemma {:induction false} StrippedKeeps(s: seq<Byte>)
    ensures Kept(Stripped(s)) == Kept(s) && (PAD in Stripped(s) <==> PAD in s)
  {
    if s != [] && s[0] != PAD {
      var t := Stripped(s[1..]);
      StrippedKeeps(s[1..]);
      assert s == [s[0]] + s[1..];
      if InAlphabet(s[0]) {
        assert ([s[0]] + t)[1..] == t;
      } else {
        assert [] + t == t;
      }
    }
  }

  /** Only the letters before the first padding character count, and whether there is one. */
  lemma SameLetters(s: seq<Byte>, t: seq<Byte>)
    requires Kept(s) == Kept(t) && (PAD in s <==> PAD in t)
    ensures Decoded(s) == Decoded(t) && (Faulty(s) <==> Faulty(t))
  {}

  /** Skipped characters make no difference. */
  lemma SkippingIsHarmless(s: seq<Byte>)
    ensures Decoded(Stripped(s)) == Decoded(s) && (Faulty(Stripped(s)) <==> Faulty(s))
  {
    StrippedKeeps(s);
    SameLetters(Stripped(s), s);
  }

  /** Nothing after the first padding character makes a difference. */
  lemma {:induction false} KeptStopsAtPad(s: seq<Byte>, t: seq<Byte>)
    ensures Kept(s + [PAD] + t) == Kept(s)
  {
    if s == [] {
      assert (s + [PAD] + t)[0] == PAD;
    } else if s[0] != PAD {
      assert (s + [PAD] + t)[1..] == s[1..] + [PAD] + t;
      KeptStopsAtPad(s[1..], t);
    }
  }

  lemma DroppedGroup(full: seq<Sextet>, part: seq<Sextet>, q: nat)
    requires |full| == 4 * q && |part| < 4
    ensures |Bytes(full)| == 3 * q && (Bytes(full) == Bytes(full + part) <==> |part| < 2)
  {
    BytesLength(full);
    BytesLength(full + part);
    if |part| == 0 {
      assert full + part == full;
    } else if |part| == 1 {
      DecodeOne(full, part[0]);
      assert part == [part[0]];
    }
  }

  lemma DroppedRest(vs: seq<Sextet>)
    ensures |Bytes(Quads(vs))| == |vs| / 4 * 3
    ensures Bytes(Quads(vs)) == Bytes(vs) <==> |vs| % 4 < 2
  {
    var q := |vs| / 4;
    var k := 4 * q;
    assert |vs| - |vs| % 4 == k;
    DroppedGroup(vs[..k], vs[k..], q);
    assert vs[..k] + vs[k..] == vs;
  }

  /**
   * An error is reported exactly if a padding character follows a single letter of a group. Input
   * that ends inside a group without one is accepted, and the incomplete group is dropped.
   */
  lemma IncompleteGroups(s: seq<Byte>, t: seq<Byte>)
    requires PAD !in s
    ensures Faulty(s + [PAD] + t) <==> |Kept(s)| % 4 == 1
    ensures !Faulty(s) && |Decoded(s)| == |Kept(s)| / 4 * 3
    ensures Decoded(s) == Decoded(s + [PAD] + t) <==> |Kept(s)| % 4 < 2
  {
    KeptStopsAtPad(s, t);
    assert (s + [PAD] + t)[|s|] == PAD;
    assert Decoded(s + [PAD] + t) == Bytes(Kept(s));
    DroppedRest(Kept(s));
  }
}
