/** CRC32C (section 12.1 of RFC 3720): a register fed bit by bit, the laws of extending and of
    concatenating checksums, and the division of polynomials that the checksum stands for. */
module Crc32c {

  type Byte = b: int | 0 <= b < 256

  /** A polynomial of degree at most 31, the coefficient of x^31 first. As a checksum, the first bit is
      the least significant one of the 32-bit number. */
  type Word = w: seq<bool> | |w| == 32 witness Falses(32)

  const ZERO: Word := Falses(32)
  const ONES: Word := Not(ZERO)

  /** The generator polynomial 0x11EDC6F41 without its leading coefficient. */
  const GENERATOR: Word := [
    false, false, false, true,  true, true, true, false,  true, true, false, true,  true, true, false, false,
    false, true, true, false,  true, true, true, true,  false, true, false, false,  false, false, false, true]

  function Xor(a: seq<bool>, b: seq<bool>): (s: seq<bool>)
    requires |a| == |b|
    ensures |s| == |a|
    ensures forall i :: 0 <= i < |a| ==> s[i] == (a[i] != b[i])
  {
    seq(|a|, i requires 0 <= i < |a| => a[i] != b[i])
  }

  function Not(w: Word): (s: Word)
    ensures forall i :: 0 <= i < 32 ==> s[i] == !w[i]
  {
    seq(32, i requires 0 <= i < 32 => !w[i])
  }

  function Falses(n: nat): (s: seq<bool>)
    ensures |s| == n && forall i :: 0 <= i < n ==> !s[i]
  {
    seq(n, _ => false)
  }

  /** The bits of a byte, the least significant one first. */
  function BitsOfByte(b: Byte): (s: seq<bool>)
    ensures |s| == 8
  {
    [b % 2 == 1, b / 2 % 2 == 1, b / 4 % 2 == 1, b / 8 % 2 == 1,
     b / 16 % 2 == 1, b / 32 % 2 == 1, b / 64 % 2 == 1, b / 128 % 2 == 1]
  }

  function BitsOf(bytes: seq<Byte>): (s: seq<bool>)
    ensures |s| == 8 * |bytes|
  {
    if bytes == [] then [] else BitsOfByte(bytes[0]) + BitsOf(bytes[1..])
  }

  /** One step of the register: shift, and subtract the generator when the bit that falls out differs
      from the message bit. */
  function Feed(r: Word, bit: bool): Word {
    if r[0] != bit then Xor(r[1..] + [false], GENERATOR) else r[1..] + [false]
  }

  function FeedAll(r: Word, bits: seq<bool>): Word
    decreases bits
  {
    if bits == [] then r else FeedAll(Feed(r, bits[0]), bits[1..])
  }

  /** The checksum of some bytes with checksum `crc`, followed by `bytes`. */
  function Extend(crc: Word, bytes: seq<Byte>): Word {
    Not(FeedAll(Not(crc), BitsOf(bytes)))
  }

  function Crc(bytes: seq<Byte>): Word {
    Extend(ZERO, bytes)
  }

  /** The checksum of a concatenation, from the checksums of its parts and the length of the second. */
  function Concat(left: Word, right: Word, rightLength: nat): Word {
    Xor(FeedAll(left, Falses(8 * rightLength)), right)
  }

  // ----- Extending and concatenating -----

  lemma {:induction false} BitsOfConcat(a: seq<Byte>, b: seq<Byte>)
    ensures BitsOf(a + b) == BitsOf(a) + BitsOf(b)
  {
    if a == [] {
      assert a + b == b;
    } else {
      assert (a + b)[1..] == a[1..] + b;
      BitsOfConcat(a[1..], b);
    }
  }

  lemma {:induction false} FeedConcat(r: Word, a: seq<bool>, b: seq<bool>)
    ensures FeedAll(r, a + b) == FeedAll(FeedAll(r, a), b)
    decreases a
  {
    if a == [] {
      assert a + b == b;
    } else {
      assert (a + b)[1..] == a[1..] + b;
      FeedConcat(Feed(r, a[0]), a[1..], b);
    }
  }

  lemma NotNot(w: Word)
    ensures Not(Not(w)) == w
  {
    assert forall i :: 0 <= i < 32 ==> Not(Not(w))[i] == w[i];
  }

  /** Extending a checksum is checksumming the longer message. */
  lemma ExtendIsCrcOfConcat(a: seq<Byte>, b: seq<Byte>)
    ensures Extend(Crc(a), b) == Crc(a + b)
  {
    NotNot(FeedAll(Not(ZERO), BitsOf(a)));
    BitsOfConcat(a, b);
    FeedConcat(Not(ZERO), BitsOf(a), BitsOf(b));
  }

  lemma FeedIsLinear(a: Word, b: Word, x: bool, y: bool)
    ensures Feed(Xor(a, b), x != y) == Xor(Feed(a, x), Feed(b, y))
  {
    var l, r := Feed(Xor(a, b), x != y), Xor(Feed(a, x), Feed(b, y));
    forall i | 0 <= i < 32 ensures l[i] == r[i] {
      if i < 31 {
        assert (Xor(a, b)[1..] + [false])[i] == (a[i + 1] != b[i + 1]);
      }
    }
  }

  lemma {:induction false} FeedAllIsLinear(a: Word, b: Word, x: seq<bool>, y: seq<bool>)
    requires |x| == |y|
    ensures FeedAll(Xor(a, b), Xor(x, y)) == Xor(FeedAll(a, x), FeedAll(b, y))
    decreases x
  {
    if x != [] {
      FeedIsLinear(a, b, x[0], y[0]);
      assert Xor(x, y)[1..] == Xor(x[1..], y[1..]);
      FeedAllIsLinear(Feed(a, x[0]), Feed(b, y[0]), x[1..], y[1..]);
    }
  }

  /** The concatenation law. */
  lemma ConcatIsCrcOfConcat(a: seq<Byte>, b: seq<Byte>)
    ensures Concat(Crc(a), Crc(b), |b|) == Crc(a + b)
  {
    var bits := BitsOf(b);
    ExtendIsCrcOfConcat(a, b);
    assert Not(Crc(a)) == Xor(Crc(a), ONES);
    assert Xor(Falses(|bits|), bits) == bits;
    FeedAllIsLinear(Crc(a), ONES, Falses(|bits|), bits);
    var shifted, right := FeedAll(Crc(a), Falses(|bits|)), FeedAll(ONES, bits);
    assert Not(Xor(shifted, right)) == Xor(shifted, Not(right));
  }

  lemma CrcOfNothing()
    ensures Crc([]) == ZERO
  {
    NotNot(ZERO);
  }

  // ----- The polynomial division behind the register -----

  /** The remainder of a polynomial, highest coefficient first, modulo x^32 + GENERATOR, by long division. */
  function Remainder(p: seq<bool>): (r: seq<bool>)
    requires |p| >= 32
    ensures |r| == 32
    decreases |p|
  {
    if |p| == 32 then p
    else if p[0] then Remainder(Xor(p[1..], GENERATOR + Falses(|p| - 33)))
    else Remainder(p[1..])
  }

  function FlipFirst32(p: seq<bool>): (s: seq<bool>)
    ensures |s| == |p|
    ensures forall i :: 0 <= i < |p| ==> s[i] == if i < 32 then !p[i] else p[i]
  {
    seq(|p|, i requires 0 <= i < |p| => if i < 32 then !p[i] else p[i])
  }

  /** The checksum as the standard defines it: the message's first 32 bits are complemented, it is
      multiplied by x^32 and divided by the generator, and the remainder is complemented. */
  function CrcByDivision(bytes: seq<Byte>): Word {
    Not(Remainder(FlipFirst32(BitsOf(bytes) + Falses(32))))
  }

  /** The polynomial that a register and the bits still to be fed stand for. */
  function Pending(r: Word, bits: seq<bool>): (p: seq<bool>)
    ensures |p| == |bits| + 32
  {
    Xor(r + Falses(|bits|), bits + Falses(32))
  }

  lemma FeedDivides(r: Word, bits: seq<bool>)
    requires bits != []
    ensures Remainder(Pending(r, bits)) == Remainder(Pending(Feed(r, bits[0]), bits[1..]))
  {
    var p, p', n := Pending(r, bits), Pending(Feed(r, bits[0]), bits[1..]), |bits| + 31;
    var shifted := r[1..] + [false];
    assert p[0] == (r[0] != bits[0]);
    forall i | 0 <= i < n ensures p[1..][i] == ((i < 32 && shifted[i]) != (i < |bits| - 1 && bits[1..][i])) {
    }
    if p[0] {
      var q := Xor(p[1..], GENERATOR + Falses(|p| - 33));
      forall i | 0 <= i < n ensures q[i] == p'[i] {
        if i < 32 {
          assert Feed(r, bits[0])[i] == (shifted[i] != GENERATOR[i]);
        }
      }
      assert q == p';
    } else {
      forall i | 0 <= i < n ensures p[1..][i] == p'[i] {
      }
      assert p[1..] == p';
    }
  }

  lemma {:induction false} FeedAllIsRemainder(r: Word, bits: seq<bool>)
    ensures FeedAll(r, bits) == Remainder(Pending(r, bits))
    decreases bits
  {
    if bits == [] {
      assert Pending(r, bits) == r;
    } else {
      FeedDivides(r, bits);
      FeedAllIsRemainder(Feed(r, bits[0]), bits[1..]);
    }
  }

  /** The register computes the standard's checksum. */
  lemma CrcIsDivision(bytes: seq<Byte>)
    ensures Crc(bytes) == CrcByDivision(bytes)
  {
    var bits := BitsOf(bytes);
    FeedAllIsRemainder(ONES, bits);
    assert Pending(ONES, bits) == FlipFirst32(bits + Falses(32));
  }

  // ----- Checksums of fragmented data -----

  /** A cord holds its bytes in fragments. */
  type Cord = seq<seq<Byte>>

  function Flatten(cord: Cord): seq<Byte> {
    if cord == [] then [] else Flatten(cord[..|cord| - 1]) + cord[|cord| - 1]
  }

  /** The checksum of a cord depends on its bytes only, not on how they are fragmented. */
  method ComputeCrc32c(cord: Cord) returns (crc: Word)
    ensures crc == Crc(Flatten(cord))
  {
    crc := ZERO;
    CrcOfNothing();
    for i := 0 to |cord|
      invariant crc == Crc(Flatten(cord[..i]))
    {
      assert cord[..i + 1][..i] == cord[..i];
      ExtendIsCrcOfConcat(Flatten(cord[..i]), cord[i]);
      crc := Extend(crc, cord[i]);
    }
    assert cord[..|cord|] == cord;
  }
}
