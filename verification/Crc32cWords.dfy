/** CRC32C on 32-bit numbers: the register as a number, the check values of the standard, and the parity
    that a checksum shares with its message. */
module Crc32cWords {
  import opened Crc32c

  // ----- The register as a number -----

  /** Bit `i` of a number, counted from the least significant one. */
  predicate BitOf(n: bv32, i: bv6)
    requires i < 32
  {
    (n >> i) & 1 == 1
  }

  /** The word for a number: the least significant bit is the coefficient of x^31. */
  function WordOf(n: bv32): (w: Word)
    ensures forall i :: 0 <= i < 32 ==> w[i] == BitOf(n, i as bv6)
  {
    seq(32, i requires 0 <= i < 32 => BitOf(n, i as bv6))
  }

  function FeedBit(n: bv32, bit: bool): bv32 {
    if (n & 1 == 1) != bit then (n >> 1) ^ 0x82F6_3B78 else n >> 1
  }

  lemma XorBits(a: bv32, b: bv32, i: bv6)
    requires i < 32
    ensures BitOf(a ^ b, i) == (BitOf(a, i) != BitOf(b, i))
  {
  }

  lemma XoredBits(a: bv32, b: bv32, i: int)
    requires 0 <= i < 32
    ensures WordOf(a ^ b)[i] == (WordOf(a)[i] != WordOf(b)[i])
  {
    XorBits(a, b, i as bv6);
  }

  lemma XorWord(a: bv32, b: bv32)
    ensures WordOf(a ^ b) == Xor(WordOf(a), WordOf(b))
  {
    forall i | 0 <= i < 32 ensures WordOf(a ^ b)[i] == Xor(WordOf(a), WordOf(b))[i] {
      XoredBits(a, b, i);
    }
  }

  lemma ShiftBits(n: bv32, i: bv6)
    requires i < 32
    ensures BitOf(n >> 1, i) == if i < 31 then BitOf(n, i + 1) else false
  {
  }

  lemma NextIndex(i: int)
    requires 0 <= i < 31
    ensures (i + 1) as bv6 == (i as bv6) + 1
  {
  }

  lemma ShiftedBits(n: bv32, i: int)
    requires 0 <= i < 32
    ensures WordOf(n >> 1)[i] == if i < 31 then WordOf(n)[i + 1] else false
  {
    ShiftBits(n, i as bv6);
    if i < 31 {
      NextIndex(i);
    }
  }

  lemma ShiftWord(n: bv32)
    ensures WordOf(n >> 1) == WordOf(n)[1..] + [false]
  {
    forall i | 0 <= i < 32 ensures WordOf(n >> 1)[i] == (WordOf(n)[1..] + [false])[i] {
      ShiftedBits(n, i);
    }
  }

  lemma FirstBit(n: bv32)
    ensures WordOf(n)[0] == (n & 1 == 1)
  {
    assert BitOf(n, 0) == (n & 1 == 1);
  }

  lemma GeneratorBits(i: int)
    requires 0 <= i < 32
    ensures BitOf(0x82F6_3B78, i as bv6) == GENERATOR[i]
  {
  }

  lemma GeneratorWord()
    ensures WordOf(0x82F6_3B78) == GENERATOR
  {
    forall i | 0 <= i < 32 ensures WordOf(0x82F6_3B78)[i] == GENERATOR[i] {
      GeneratorBits(i);
    }
  }

  lemma FeedBitIsFeed(n: bv32, bit: bool)
    ensures WordOf(FeedBit(n, bit)) == Feed(WordOf(n), bit)
  {
    FirstBit(n);
    ShiftWord(n);
    GeneratorWord();
    XorWord(n >> 1, 0x82F6_3B78);
  }

  lemma NotBits(n: bv32, i: bv6)
    requires i < 32
    ensures BitOf(!n, i) == !BitOf(n, i)
  {
  }

  lemma NotWord(n: bv32)
    ensures WordOf(!n) == Not(WordOf(n))
  {
    forall i | 0 <= i < 32 ensures WordOf(!n)[i] == Not(WordOf(n))[i] {
      NotBits(n, i as bv6);
    }
  }

  lemma ZeroBits(i: bv6)
    requires i < 32
    ensures !BitOf(0, i)
  {
  }

  lemma ZeroWord()
    ensures WordOf(0) == ZERO
  {
    forall i | 0 <= i < 32 ensures WordOf(0)[i] == ZERO[i] {
      ZeroBits(i as bv6);
    }
  }

  function FeedBits(n: bv32, bits: seq<bool>): bv32
    decreases bits
  {
    if bits == [] then n else FeedBits(FeedBit(n, bits[0]), bits[1..])
  }

  lemma {:induction false} FeedBitsIsFeedAll(n: bv32, bits: seq<bool>)
    ensures WordOf(FeedBits(n, bits)) == FeedAll(WordOf(n), bits)
    decreases bits
  {
    if bits != [] {
      FeedBitIsFeed(n, bits[0]);
      FeedBitsIsFeedAll(FeedBit(n, bits[0]), bits[1..]);
    }
  }

  function FeedByte(n: bv32, b: bv8): bv32 {
    var n1 := FeedBit(n, b & 1 == 1);
    var n2 := FeedBit(n1, b & 2 == 2);
    var n3 := FeedBit(n2, b & 4 == 4);
    var n4 := FeedBit(n3, b & 8 == 8);
    var n5 := FeedBit(n4, b & 0x10 == 0x10);
    var n6 := FeedBit(n5, b & 0x20 == 0x20);
    var n7 := FeedBit(n6, b & 0x40 == 0x40);
    FeedBit(n7, b & 0x80 == 0x80)
  }

  function FeedBytes(n: bv32, octets: seq<bv8>): bv32
    decreases octets
  {
    if octets == [] then n else FeedBytes(FeedByte(n, octets[0]), octets[1..])
  }

  /** The checksum as the 32-bit number that goes into a request. */
  function FastCrc(octets: seq<bv8>): bv32 {
    !FeedBytes(0xFFFF_FFFF, octets)
  }

  /** Octets as bytes. */
  function BytesOf(octets: seq<bv8>): (bytes: seq<Byte>)
    ensures |bytes| == |octets| && forall i :: 0 <= i < |bytes| ==> bytes[i] == octets[i] as int
  {
    seq(|octets|, i requires 0 <= i < |octets| => octets[i] as int)
  }

  lemma Bit0(b: bv8)
    ensures ((b as int) % 2 == 1) == (b & 1 == 1)
  {
  }

  lemma Bit1(b: bv8)
    ensures ((b as int) / 2 % 2 == 1) == (b & 2 == 2)
  {
  }

  lemma Bit2(b: bv8)
    ensures ((b as int) / 4 % 2 == 1) == (b & 4 == 4)
  {
  }

  lemma Bit3(b: bv8)
    ensures ((b as int) / 8 % 2 == 1) == (b & 8 == 8)
  {
  }

  lemma Bit4(b: bv8)
    ensures ((b as int) / 16 % 2 == 1) == (b & 16 == 16)
  {
  }

  lemma Bit5(b: bv8)
    ensures ((b as int) / 32 % 2 == 1) == (b & 32 == 32)
  {
  }

  lemma Bit6(b: bv8)
    ensures ((b as int) / 64 % 2 == 1) == (b & 64 == 64)
  {
  }

  lemma Bit7(b: bv8)
    ensures ((b as int) / 128 % 2 == 1) == (b & 128 == 128)
  {
  }

  lemma FeedTwo(n: bv32, bits: seq<bool>, n1: bv32, n2: bv32)
    requires |bits| >= 2 && n1 == FeedBit(n, bits[0]) && n2 == FeedBit(n1, bits[1])
    ensures FeedBits(n, bits) == FeedBits(n2, bits[2..])
  {
    assert bits[1..][1..] == bits[2..];
  }

  lemma FeedFour(n: bv32, bits: seq<bool>, n1: bv32, n2: bv32, n3: bv32, n4: bv32)
    requires |bits| == 4 && n1 == FeedBit(n, bits[0]) && n2 == FeedBit(n1, bits[1])
    requires n3 == FeedBit(n2, bits[2]) && n4 == FeedBit(n3, bits[3])
    ensures FeedBits(n, bits) == n4
  {
    FeedTwo(n, bits, n1, n2);
    FeedTwo(n2, bits[2..], n3, n4);
    assert bits[2..][2..] == [];
  }

  lemma {:induction false} FeedBitsConcat(n: bv32, a: seq<bool>, b: seq<bool>)
    ensures FeedBits(n, a + b) == FeedBits(FeedBits(n, a), b)
    decreases a
  {
    if a == [] {
      assert a + b == b;
    } else {
      assert (a + b)[1..] == a[1..] + b;
      FeedBitsConcat(FeedBit(n, a[0]), a[1..], b);
    }
  }

  lemma FeedByteIsFeedBits(n: bv32, b: bv8)
    ensures FeedByte(n, b) == FeedBits(n, BitsOfByte(b as int))
  {
    var bits := BitsOfByte(b as int);
    var n1 := FeedBit(n, b & 1 == 1);
    var n2 := FeedBit(n1, b & 2 == 2);
    var n3 := FeedBit(n2, b & 4 == 4);
    var n4 := FeedBit(n3, b & 8 == 8);
    var n5 := FeedBit(n4, b & 0x10 == 0x10);
    var n6 := FeedBit(n5, b & 0x20 == 0x20);
    var n7 := FeedBit(n6, b & 0x40 == 0x40);
    Bit0(b);
    Bit1(b);
    Bit2(b);
    Bit3(b);
    Bit4(b);
    Bit5(b);
    Bit6(b);
    Bit7(b);
    FeedFour(n, bits[..4], n1, n2, n3, n4);
    FeedFour(n4, bits[4..], n5, n6, n7, FeedByte(n, b));
    FeedBitsConcat(n, bits[..4], bits[4..]);
    assert bits == bits[..4] + bits[4..];
  }

  lemma {:induction false} FeedBytesIsFeedAll(n: bv32, octets: seq<bv8>)
    ensures WordOf(FeedBytes(n, octets)) == FeedAll(WordOf(n), BitsOf(BytesOf(octets)))
    decreases octets
  {
    if octets != [] {
      var bits := BitsOfByte(octets[0] as int);
      FeedByteIsFeedBits(n, octets[0]);
      FeedBitsIsFeedAll(n, bits);
      FeedBytesIsFeedAll(FeedByte(n, octets[0]), octets[1..]);
      FeedConcat(WordOf(n), bits, BitsOf(BytesOf(octets[1..])));
      assert BytesOf(octets)[1..] == BytesOf(octets[1..]);
    }
  }

  /** The number has the bits of the checksum. */
  lemma CrcIsFast(octets: seq<bv8>)
    ensures Crc(BytesOf(octets)) == WordOf(FastCrc(octets))
  {
    ZeroWord();
    NotWord(0);
    FeedBytesIsFeedAll(0xFFFF_FFFF, octets);
    NotWord(FeedBytes(0xFFFF_FFFF, octets));
  }

  // ----- Check values -----

  lemma {:induction false} FeedBytesConcat(n: bv32, a: seq<bv8>, b: seq<bv8>)
    ensures FeedBytes(n, a + b) == FeedBytes(FeedBytes(n, a), b)
    decreases a
  {
    if a == [] {
      assert a + b == b;
    } else {
      assert (a + b)[1..] == a[1..] + b;
      FeedBytesConcat(FeedByte(n, a[0]), a[1..], b);
    }
  }

  lemma BytesOfConcat(a: seq<bv8>, b: seq<bv8>)
    ensures BytesOf(a + b) == BytesOf(a) + BytesOf(b)
  {
  }

  /** What feeding `octets` makes of register `n`, and what bytes they are. */
  ghost predicate Feeds(n: bv32, octets: seq<bv8>, bytes: seq<Byte>, r: bv32) {
    FeedBytes(n, octets) == r && BytesOf(octets) == bytes
  }

  lemma FeedsMore(n: bv32, a: seq<bv8>, x: seq<Byte>, r: bv32, b: seq<bv8>, y: seq<Byte>, t: bv32)
    requires Feeds(n, a, x, r) && Feeds(r, b, y, t)
    ensures Feeds(n, a + b, x + y, t)
  {
    FeedBytesConcat(n, a, b);
    BytesOfConcat(a, b);
  }

  lemma CrcOfFed(octets: seq<bv8>, bytes: seq<Byte>, r: bv32)
    requires Feeds(0xFFFF_FFFF, octets, bytes, !r)
    ensures Crc(bytes) == WordOf(r)
  {
    CrcIsFast(octets);
  }

  /** Bytes that are fed in two parts. */
  lemma FeedsBoth(n: bv32, a: seq<bv8>, b: seq<bv8>, k: nat, bytes: seq<Byte>, x: bv32, r: bv32)
    returns (octets: seq<bv8>)
    requires k <= |bytes| && Feeds(n, a, bytes[..k], x) && Feeds(x, b, bytes[k..], r)
    ensures Feeds(n, octets, bytes, r)
  {
    FeedsMore(n, a, bytes[..k], x, b, bytes[k..], r);
    assert bytes[..k] + bytes[k..] == bytes;
    octets := a + b;
  }

  lemma FeedZeroes0(n: bv32, bytes: seq<Byte>) returns (octets: seq<bv8>, r: bv32)
    requires n == 0xFFFF_FFFF && |bytes| == 8 && forall i :: 0 <= i < 8 ==> bytes[i] == 0
    ensures Feeds(n, octets, bytes, r) && r == 0x73D7_4D75
  {
    octets, r := [0, 0, 0, 0, 0, 0, 0, 0], 0x73D7_4D75;
    assert FeedBytes(0xFFFF_FFFF, [0, 0, 0, 0, 0, 0, 0, 0]) == 0x73D7_4D75;
  }

  lemma FeedZeroes1(n: bv32, bytes: seq<Byte>) returns (octets: seq<bv8>, r: bv32)
    requires n == 0x73D7_4D75 && |bytes| == 8 && forall i :: 0 <= i < 8 ==> bytes[i] == 0
    ensures Feeds(n, octets, bytes, r) && r == 0xBD8F_6515
  {
    octets, r := [0, 0, 0, 0, 0, 0, 0, 0], 0xBD8F_6515;
    assert FeedBytes(0x73D7_4D75, [0, 0, 0, 0, 0, 0, 0, 0]) == 0xBD8F_6515;
  }

  lemma FeedZeroes2(n: bv32, bytes: seq<Byte>) returns (octets: seq<bv8>, r: bv32)
    requires n == 0xBD8F_6515 && |bytes| == 8 && forall i :: 0 <= i < 8 ==> bytes[i] == 0
    ensures Feeds(n, octets, bytes, r) && r == 0x7B04_1311
  {
    octets, r := [0, 0, 0, 0, 0, 0, 0, 0], 0x7B04_1311;
    assert FeedBytes(0xBD8F_6515, [0, 0, 0, 0, 0, 0, 0, 0]) == 0x7B04_1311;
  }

  lemma FeedZeroes3(n: bv32, bytes: seq<Byte>) returns (octets: seq<bv8>, r: bv32)
    requires n == 0x7B04_1311 && |bytes| == 8 && forall i :: 0 <= i < 8 ==> bytes[i] == 0
    ensures Feeds(n, octets, bytes, r) && r == 0x756E_C955
  {
    octets, r := [0, 0, 0, 0, 0, 0, 0, 0], 0x756E_C955;
    assert FeedBytes(0x7B04_1311, [0, 0, 0, 0, 0, 0, 0, 0]) == 0x756E_C955;
  }

  lemma FeedZeroesHalf0(n: bv32, bytes: seq<Byte>) returns (octets: seq<bv8>, r: bv32)
    requires n == 0xFFFF_FFFF && |bytes| == 16 && forall i :: 0 <= i < 16 ==> bytes[i] == 0
    ensures Feeds(n, octets, bytes, r) && r == 0xBD8F_6515
  {
    var a, x := FeedZeroes0(n, bytes[..8]);
    var b, y := FeedZeroes1(x, bytes[8..]);
    octets := FeedsBoth(n, a, b, 8, bytes, x, y);
    r := y;
  }

  lemma FeedZeroesHalf1(n: bv32, bytes: seq<Byte>) returns (octets: seq<bv8>, r: bv32)
    requires n == 0xBD8F_6515 && |bytes| == 16 && forall i :: 0 <= i < 16 ==> bytes[i] == 0
    ensures Feeds(n, octets, bytes, r) && r == 0x756E_C955
  {
    var a, x := FeedZeroes2(n, bytes[..8]);
    var b, y := FeedZeroes3(x, bytes[8..]);
    octets := FeedsBoth(n, a, b, 8, bytes, x, y);
    r := y;
  }

  /** The checksum of 32 bytes of zeroes (appendix B.4 of RFC 3720). */
  lemma ZeroesCheckValue(bytes: seq<Byte>, r: bv32)
    requires r == 0x8A91_36AA && |bytes| == 32 && forall i :: 0 <= i < 32 ==> bytes[i] == 0
    ensures Crc(bytes) == WordOf(r)
  {
    var a, x := FeedZeroesHalf0(0xFFFF_FFFF, bytes[..16]);
    var b, y := FeedZeroesHalf1(x, bytes[16..]);
    var octets := FeedsBoth(0xFFFF_FFFF, a, b, 16, bytes, x, y);
    CrcOfFed(octets, bytes, r);
  }

  lemma FeedOnes0(n: bv32, bytes: seq<Byte>) returns (octets: seq<bv8>, r: bv32)
    requires n == 0xFFFF_FFFF && |bytes| == 8 && forall i :: 0 <= i < 8 ==> bytes[i] == 0xFF
    ensures Feeds(n, octets, bytes, r) && r == 0xB798_B438
  {
    octets, r := [0xFF, 0xFF, 0xFF, 0xFF, 0xFF, 0xFF, 0xFF, 0xFF], 0xB798_B438;
    assert FeedBytes(0xFFFF_FFFF, [0xFF, 0xFF, 0xFF, 0xFF, 0xFF, 0xFF, 0xFF, 0xFF]) == 0xB798_B438;
  }

  lemma FeedOnes1(n: bv32, bytes: seq<Byte>) returns (octets: seq<bv8>, r: bv32)
    requires n == 0xB798_B438 && |bytes| == 8 && forall i :: 0 <= i < 8 ==> bytes[i] == 0xFF
    ensures Feeds(n, octets, bytes, r) && r == 0x10D0_B3EF
  {
    octets, r := [0xFF, 0xFF, 0xFF, 0xFF, 0xFF, 0xFF, 0xFF, 0xFF], 0x10D0_B3EF;
    assert FeedBytes(0xB798_B438, [0xFF, 0xFF, 0xFF, 0xFF, 0xFF, 0xFF, 0xFF, 0xFF]) == 0x10D0_B3EF;
  }

  lemma FeedOnes2(n: bv32, bytes: seq<Byte>) returns (octets: seq<bv8>, r: bv32)
    requires n == 0x10D0_B3EF && |bytes| == 8 && forall i :: 0 <= i < 8 ==> bytes[i] == 0xFF
    ensures Feeds(n, octets, bytes, r) && r == 0xEE65_7F3B
  {
    octets, r := [0xFF, 0xFF, 0xFF, 0xFF, 0xFF, 0xFF, 0xFF, 0xFF], 0xEE65_7F3B;
    assert FeedBytes(0x10D0_B3EF, [0xFF, 0xFF, 0xFF, 0xFF, 0xFF, 0xFF, 0xFF, 0xFF]) == 0xEE65_7F3B;
  }

  lemma FeedOnes3(n: bv32, bytes: seq<Byte>) returns (octets: seq<bv8>, r: bv32)
    requires n == 0xEE65_7F3B && |bytes| == 8 && forall i :: 0 <= i < 8 ==> bytes[i] == 0xFF
    ensures Feeds(n, octets, bytes, r) && r == 0x9D57_54BC
  {
    octets, r := [0xFF, 0xFF, 0xFF, 0xFF, 0xFF, 0xFF, 0xFF, 0xFF], 0x9D57_54BC;
    assert FeedBytes(0xEE65_7F3B, [0xFF, 0xFF, 0xFF, 0xFF, 0xFF, 0xFF, 0xFF, 0xFF]) == 0x9D57_54BC;
  }

  lemma FeedOnesHalf0(n: bv32, bytes: seq<Byte>) returns (octets: seq<bv8>, r: bv32)
    requires n == 0xFFFF_FFFF && |bytes| == 16 && forall i :: 0 <= i < 16 ==> bytes[i] == 0xFF
    ensures Feeds(n, octets, bytes, r) && r == 0x10D0_B3EF
  {
    var a, x := FeedOnes0(n, bytes[..8]);
    var b, y := FeedOnes1(x, bytes[8..]);
    octets := FeedsBoth(n, a, b, 8, bytes, x, y);
    r := y;
  }

  lemma FeedOnesHalf1(n: bv32, bytes: seq<Byte>) returns (octets: seq<bv8>, r: bv32)
    requires n == 0x10D0_B3EF && |bytes| == 16 && forall i :: 0 <= i < 16 ==> bytes[i] == 0xFF
    ensures Feeds(n, octets, bytes, r) && r == 0x9D57_54BC
  {
    var a, x := FeedOnes2(n, bytes[..8]);
    var b, y := FeedOnes3(x, bytes[8..]);
    octets := FeedsBoth(n, a, b, 8, bytes, x, y);
    r := y;
  }

  /** The checksum of 32 bytes of ones (appendix B.4 of RFC 3720). */
  lemma OnesCheckValue(bytes: seq<Byte>, r: bv32)
    requires r == 0x62A8_AB43 && |bytes| == 32 && forall i :: 0 <= i < 32 ==> bytes[i] == 0xFF
    ensures Crc(bytes) == WordOf(r)
  {
    var a, x := FeedOnesHalf0(0xFFFF_FFFF, bytes[..16]);
    var b, y := FeedOnesHalf1(x, bytes[16..]);
    var octets := FeedsBoth(0xFFFF_FFFF, a, b, 16, bytes, x, y);
    CrcOfFed(octets, bytes, r);
  }

  lemma FeedAscending0(n: bv32, bytes: seq<Byte>) returns (octets: seq<bv8>, r: bv32)
    requires n == 0xFFFF_FFFF && |bytes| == 8 && forall i :: 0 <= i < 8 ==> bytes[i] == i
    ensures Feeds(n, octets, bytes, r) && r == 0x75D3_43C4
  {
    octets, r := [0, 1, 2, 3, 4, 5, 6, 7], 0x75D3_43C4;
    assert FeedBytes(0xFFFF_FFFF, [0, 1, 2, 3, 4, 5, 6, 7]) == 0x75D3_43C4;
  }

  lemma FeedAscending1(n: bv32, bytes: seq<Byte>) returns (octets: seq<bv8>, r: bv32)
    requires n == 0x75D3_43C4 && |bytes| == 8 && forall i :: 0 <= i < 8 ==> bytes[i] == 8 + i
    ensures Feeds(n, octets, bytes, r) && r == 0x2636_F714
  {
    octets, r := [8, 9, 10, 11, 12, 13, 14, 15], 0x2636_F714;
    assert FeedBytes(0x75D3_43C4, [8, 9, 10, 11, 12, 13, 14, 15]) == 0x2636_F714;
  }

  lemma FeedAscending2(n: bv32, bytes: seq<Byte>) returns (octets: seq<bv8>, r: bv32)
    requires n == 0x2636_F714 && |bytes| == 8 && forall i :: 0 <= i < 8 ==> bytes[i] == 16 + i
    ensures Feeds(n, octets, bytes, r) && r == 0xD643_786A
  {
    octets, r := [16, 17, 18, 19, 20, 21, 22, 23], 0xD643_786A;
    assert FeedBytes(0x2636_F714, [16, 17, 18, 19, 20, 21, 22, 23]) == 0xD643_786A;
  }

  lemma FeedAscending3(n: bv32, bytes: seq<Byte>) returns (octets: seq<bv8>, r: bv32)
    requires n == 0xD643_786A && |bytes| == 8 && forall i :: 0 <= i < 8 ==> bytes[i] == 24 + i
    ensures Feeds(n, octets, bytes, r) && r == 0xB922_86B1
  {
    octets, r := [24, 25, 26, 27, 28, 29, 30, 31], 0xB922_86B1;
    assert FeedBytes(0xD643_786A, [24, 25, 26, 27, 28, 29, 30, 31]) == 0xB922_86B1;
  }

  lemma FeedAscendingHalf0(n: bv32, bytes: seq<Byte>) returns (octets: seq<bv8>, r: bv32)
    requires n == 0xFFFF_FFFF && |bytes| == 16 && forall i :: 0 <= i < 16 ==> bytes[i] == i
    ensures Feeds(n, octets, bytes, r) && r == 0x2636_F714
  {
    var a, x := FeedAscending0(n, bytes[..8]);
    var b, y := FeedAscending1(x, bytes[8..]);
    octets := FeedsBoth(n, a, b, 8, bytes, x, y);
    r := y;
  }

  lemma FeedAscendingHalf1(n: bv32, bytes: seq<Byte>) returns (octets: seq<bv8>, r: bv32)
    requires n == 0x2636_F714 && |bytes| == 16 && forall i :: 0 <= i < 16 ==> bytes[i] == 16 + i
    ensures Feeds(n, octets, bytes, r) && r == 0xB922_86B1
  {
    var a, x := FeedAscending2(n, bytes[..8]);
    var b, y := FeedAscending3(x, bytes[8..]);
    octets := FeedsBoth(n, a, b, 8, bytes, x, y);
    r := y;
  }

  /** The checksum of the bytes 0 to 31 (appendix B.4 of RFC 3720). */
  lemma AscendingCheckValue(bytes: seq<Byte>, r: bv32)
    requires r == 0x46DD_794E && |bytes| == 32 && forall i :: 0 <= i < 32 ==> bytes[i] == i
    ensures Crc(bytes) == WordOf(r)
  {
    var a, x := FeedAscendingHalf0(0xFFFF_FFFF, bytes[..16]);
    var b, y := FeedAscendingHalf1(x, bytes[16..]);
    var octets := FeedsBoth(0xFFFF_FFFF, a, b, 16, bytes, x, y);
    CrcOfFed(octets, bytes, r);
  }

  lemma FeedCheck(bytes: seq<Byte>) returns (octets: seq<bv8>, r: bv32)
    requires |bytes| == 9 && forall i :: 0 <= i < 9 ==> bytes[i] == 0x31 + i
    ensures Feeds(0xFFFF_FFFF, octets, bytes, r) && r == !0xE306_9283
  {
    octets, r := [0x31, 0x32, 0x33, 0x34, 0x35, 0x36, 0x37, 0x38, 0x39], !0xE306_9283;
    assert FeedBytes(0xFFFF_FFFF, [0x31, 0x32, 0x33, 0x34, 0x35, 0x36, 0x37, 0x38, 0x39]) == !0xE306_9283;
  }

  /** The checksum of the characters 123456789. */
  lemma CheckValue(bytes: seq<Byte>, r: bv32)
    requires r == 0xE306_9283 && bytes == [0x31, 0x32, 0x33, 0x34, 0x35, 0x36, 0x37, 0x38, 0x39]
    ensures Crc(bytes) == WordOf(r)
  {
    var octets, n := FeedCheck(bytes);
    CrcOfFed(octets, bytes, r);
  }

  // ----- Parity -----

  /** Whether an odd number of bits are set. */
  function Parity(bits: seq<bool>): bool {
    if bits == [] then false else bits[0] != Parity(bits[1..])
  }

  lemma {:induction false} ParityConcat(a: seq<bool>, b: seq<bool>)
    ensures Parity(a + b) == (Parity(a) != Parity(b))
  {
    if a == [] {
      assert a + b == b;
    } else {
      assert (a + b)[1..] == a[1..] + b;
      ParityConcat(a[1..], b);
    }
  }

  lemma {:induction false} ParityXor(a: seq<bool>, b: seq<bool>)
    requires |a| == |b|
    ensures Parity(Xor(a, b)) == (Parity(a) != Parity(b))
  {
    if a != [] {
      assert Xor(a, b)[1..] == Xor(a[1..], b[1..]);
      ParityXor(a[1..], b[1..]);
    }
  }

  lemma {:induction false} ParityAllTrue(w: seq<bool>)
    requires forall i :: 0 <= i < |w| ==> w[i]
    ensures Parity(w) <==> |w| % 2 == 1
  {
    if w != [] {
      ParityAllTrue(w[1..]);
    }
  }

  /** The generator has an odd number of coefficients besides the leading one: x + 1 divides it. */
  lemma GeneratorParity()
    ensures Parity(GENERATOR)
  {
    var a := [false, false, false, true, true, true, true, false];
    var b := [true, true, false, true, true, true, false, false];
    var c := [false, true, true, false, true, true, true, true];
    var d := [false, true, false, false, false, false, false, true];
    assert GENERATOR == a + (b + (c + d));
    ParityConcat(a, b + (c + d));
    ParityConcat(b, c + d);
    ParityConcat(c, d);
    EightParity(a);
    EightParity(b);
    EightParity(c);
    EightParity(d);
  }

  lemma EightParity(b: seq<bool>)
    requires |b| == 8
    ensures Parity(b) == (b[0] != (b[1] != (b[2] != (b[3] != (b[4] != (b[5] != (b[6] != b[7])))))))
  {
    FourParity(b);
    FourParity(b[4..]);
    assert b[4..][4..] == [];
  }

  lemma FourParity(b: seq<bool>)
    requires |b| >= 4
    ensures Parity(b) == (b[0] != (b[1] != (b[2] != (b[3] != Parity(b[4..])))))
  {
    TwoParity(b);
    TwoParity(b[2..]);
    assert b[2..][2..] == b[4..];
  }

  lemma TwoParity(b: seq<bool>)
    requires |b| >= 2
    ensures Parity(b) == (b[0] != (b[1] != Parity(b[2..])))
  {
    assert b[1..][1..] == b[2..];
  }

  lemma ShiftParity(r: Word)
    ensures Parity(r[1..] + [false]) == (Parity(r) != r[0])
  {
    ParityConcat(r[1..], [false]);
    assert [false][1..] == [];
  }

  lemma FeedParity(r: Word, bit: bool)
    ensures Parity(Feed(r, bit)) == (Parity(r) != bit)
  {
    GeneratorParity();
    ShiftParity(r);
    ParityXor(r[1..] + [false], GENERATOR);
  }

  lemma {:induction false} FeedAllParity(r: Word, bits: seq<bool>)
    ensures Parity(FeedAll(r, bits)) == (Parity(r) != Parity(bits))
    decreases bits
  {
    if bits != [] {
      FeedParity(r, bits[0]);
      FeedAllParity(Feed(r, bits[0]), bits[1..]);
    }
  }

  lemma NotParity(w: Word)
    ensures Parity(Not(w)) == Parity(w)
  {
    assert Not(w) == Xor(w, ONES);
    ParityXor(w, ONES);
    ParityAllTrue(ONES);
  }

  lemma {:induction false} ParityAllFalse(w: seq<bool>)
    requires forall i :: 0 <= i < |w| ==> !w[i]
    ensures !Parity(w)
  {
    if w != [] {
      ParityAllFalse(w[1..]);
    }
  }

  /** A message and its checksum have an odd number of bits set, or an even number, both alike. So two
      messages that differ in an odd number of bits never have the same checksum. */
  lemma CrcParity(bytes: seq<Byte>)
    ensures Parity(Crc(bytes)) == Parity(BitsOf(bytes))
  {
    NotParity(ZERO);
    ParityAllFalse(ZERO);
    FeedAllParity(Not(ZERO), BitsOf(bytes));
    NotParity(FeedAll(Not(ZERO), BitsOf(bytes)));
  }

  lemma OddErrorsAreDetected(a: seq<Byte>, b: seq<Byte>)
    requires |a| == |b| && Parity(Xor(BitsOf(a), BitsOf(b)))
    ensures Crc(a) != Crc(b)
  {
    CrcParity(a);
    CrcParity(b);
    ParityXor(BitsOf(a), BitsOf(b));
  }
}
