/** Bit-order reversal of the bytes read back from the tuner (r820t.rs `bit_reverse`).
    The USB-to-I2C bridge delivers every byte with its bits in reverse order, so every
    register read is passed through `BitReverse` before it is interpreted. */
module Bits {

  /** The 16-entry nibble table: entry n is the 4-bit reversal of n. */
  const NibbleLut: seq<bv8> := [0x0, 0x8, 0x4, 0xc, 0x2, 0xa, 0x6, 0xe,
                                0x1, 0x9, 0x5, 0xd, 0x3, 0xb, 0x7, 0xf]

  /** Bit i (0 = least significant) of a byte, as 0 or 1. */
  function Bit(b: bv8, i: nat): bv8
    requires i < 8
  {
    (b >> i) & 1
  }

  function Lut(n: bv8): (r: bv8)
    requires n < 16
    ensures r < 16
  {
    NibbleLut[n as int]
  }

  /** A value below 256 survives the conversion to a byte and back. */
  lemma ByteRoundTrip(x: nat)
    requires x < 256
    ensures (x as bv8) as int == x
  {
    var w := x as bv16;
    assert w < 256;
  }

  /** The low nibble is looked up and moved high, the high nibble looked up and kept
      low; bit i of the result is bit 7 - i of the input. */
  function BitReverse(b: bv8): (r: bv8)
    ensures forall i :: 0 <= i < 8 ==> Bit(r, i) == Bit(b, 7 - i)
  {
    var lo, hi := Lut(b & 0xf), Lut(b >> 4);
    LutBits(b & 0xf);
    LutBits(b >> 4);
    NibbleBits(b);
    PackBits(lo, hi);
    AllBits((lo << 4) | hi, b);
    (lo << 4) | hi
  }

  /** Bit i of r is bit 7 - i of b for all i once it is for each i in turn. */
  lemma AllBits(r: bv8, b: bv8)
    requires Bit(r, 0) == Bit(b, 7) && Bit(r, 1) == Bit(b, 6) && Bit(r, 2) == Bit(b, 5) && Bit(r, 3) == Bit(b, 4)
    requires Bit(r, 4) == Bit(b, 3) && Bit(r, 5) == Bit(b, 2) && Bit(r, 6) == Bit(b, 1) && Bit(r, 7) == Bit(b, 0)
    ensures forall i :: 0 <= i < 8 ==> Bit(r, i) == Bit(b, 7 - i)
  {
    forall i | 0 <= i < 8
      ensures Bit(r, i) == Bit(b, 7 - i)
    {
      if i == 0 {} else if i == 1 {} else if i == 2 {} else if i == 3 {}
      else if i == 4 {} else if i == 5 {} else if i == 6 {} else {}
    }
  }

  /** The bits of the two nibbles of a byte. */
  lemma NibbleBits(b: bv8)
    ensures Bit(b & 0xf, 0) == Bit(b, 0) && Bit(b & 0xf, 1) == Bit(b, 1)
         && Bit(b & 0xf, 2) == Bit(b, 2) && Bit(b & 0xf, 3) == Bit(b, 3)
    ensures Bit(b >> 4, 0) == Bit(b, 4) && Bit(b >> 4, 1) == Bit(b, 5)
         && Bit(b >> 4, 2) == Bit(b, 6) && Bit(b >> 4, 3) == Bit(b, 7)
  {
  }

  /** The bits of a byte packed from a high and a low nibble. */
  lemma PackBits(lo: bv8, hi: bv8)
    requires lo < 16 && hi < 16
    ensures var r := (lo << 4) | hi;
      && Bit(r, 0) == Bit(hi, 0) && Bit(r, 1) == Bit(hi, 1) && Bit(r, 2) == Bit(hi, 2) && Bit(r, 3) == Bit(hi, 3)
      && Bit(r, 4) == Bit(lo, 0) && Bit(r, 5) == Bit(lo, 1) && Bit(r, 6) == Bit(lo, 2) && Bit(r, 7) == Bit(lo, 3)
  {
  }

  /** The nibble table reverses the four bits of its index. */
  lemma LutBits(n: bv8)
    requires n < 16
    ensures forall j :: 0 <= j < 4 ==> Bit(Lut(n), j) == Bit(n, 3 - j)
  {
    if n == 0 {} else if n == 1 {} else if n == 2 {} else if n == 3 {}
    else if n == 4 {} else if n == 5 {} else if n == 6 {} else if n == 7 {}
    else if n == 8 {} else if n == 9 {} else if n == 10 {} else if n == 11 {}
    else if n == 12 {} else if n == 13 {} else if n == 14 {} else {}
  }

  /** Reversing twice gives back every one of the 256 byte values. */
  lemma BitReverseInvolution(b: bv8)
    ensures BitReverse(BitReverse(b)) == b
  {
    var r := BitReverse(BitReverse(b));
    assert forall i :: 0 <= i < 8 ==> Bit(r, i) == Bit(b, i);
    assert Bit(r, 0) == Bit(b, 0) && Bit(r, 1) == Bit(b, 1) && Bit(r, 2) == Bit(b, 2)
        && Bit(r, 3) == Bit(b, 3) && Bit(r, 4) == Bit(b, 4) && Bit(r, 5) == Bit(b, 5)
        && Bit(r, 6) == Bit(b, 6) && Bit(r, 7) == Bit(b, 7);
  }

  /** `BitReverse` is its own inverse, for all bytes at once. */
  lemma BitReverseInvolutive()
    ensures forall b :: BitReverse(BitReverse(b)) == b
  {
    forall b {
      BitReverseInvolution(b);
    }
  }
}
