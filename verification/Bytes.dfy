/** Bytes as bounded integers, bitwise exclusive-or on them, and big-endian words. */
module Bytes {

  type byte = x: int | 0 <= x < 256

  function Pow2(k: nat): (r: nat)
    ensures r >= 1
  {
    if k == 0 then 1 else 2 * Pow2(k - 1)
  }

  lemma EightBits()
    ensures Pow2(8) == 256
  {
  }

  /** The exclusive-or of the lowest bits. */
  function LowBit(a: nat, b: nat): (r: nat)
    ensures r < 2
  {
    if a % 2 == b % 2 then 0 else 1
  }

  /** Exclusive-or of two k-bit numbers, low bit last. */
  function XorBits(k: nat, a: nat, b: nat): (r: nat)
    requires a < Pow2(k) && b < Pow2(k)
    ensures r < Pow2(k)
  {
    if k == 0 then 0 else 2 * XorBits(k - 1, a / 2, b / 2) + LowBit(a, b)
  }

  function Xor(a: byte, b: byte): (r: byte) {
    EightBits();
    XorBits(8, a, b)
  }

  lemma XorBitsParts(k: nat, a: nat, b: nat)
    requires k > 0 && a < Pow2(k) && b < Pow2(k)
    ensures XorBits(k, a, b) / 2 == XorBits(k - 1, a / 2, b / 2)
    ensures XorBits(k, a, b) % 2 == LowBit(a, b)
  {
  }

  lemma {:induction false} XorBitsSymmetric(k: nat, a: nat, b: nat)
    requires a < Pow2(k) && b < Pow2(k)
    ensures XorBits(k, a, b) == XorBits(k, b, a)
    ensures XorBits(k, a, 0) == a && XorBits(k, a, a) == 0
  {
    if k > 0 {
      XorBitsSymmetric(k - 1, a / 2, b / 2);
    }
  }

  lemma {:induction false} XorBitsAssociative(k: nat, a: nat, b: nat, c: nat)
    requires a < Pow2(k) && b < Pow2(k) && c < Pow2(k)
    ensures XorBits(k, XorBits(k, a, b), c) == XorBits(k, a, XorBits(k, b, c))
  {
    if k > 0 {
      var ab, bc := XorBits(k, a, b), XorBits(k, b, c);
      XorBitsAssociative(k - 1, a / 2, b / 2, c / 2);
      XorBitsParts(k, a, b);
      XorBitsParts(k, b, c);
      assert LowBit(ab, c) == LowBit(a, bc);
    }
  }

  /** Exclusive-or is a group operation in which every byte is its own inverse. */
  lemma XorLaws(a: byte, b: byte, c: byte)
    ensures Xor(a, b) == Xor(b, a)
    ensures Xor(Xor(a, b), c) == Xor(a, Xor(b, c))
    ensures Xor(a, 0) == a && Xor(a, a) == 0
  {
    EightBits();
    XorBitsSymmetric(8, a, b);
    XorBitsAssociative(8, a, b, c);
  }

  /** Bit i, counted from the lowest. */
  predicate Bit(a: nat, i: nat) {
    if i == 0 then a % 2 == 1 else Bit(a / 2, i - 1)
  }

  lemma {:induction false} XorBitsByBit(k: nat, a: nat, b: nat, i: nat)
    requires a < Pow2(k) && b < Pow2(k) && i < k
    ensures Bit(XorBits(k, a, b), i) <==> Bit(a, i) != Bit(b, i)
  {
    XorBitsParts(k, a, b);
    if i > 0 {
      XorBitsByBit(k - 1, a / 2, b / 2, i - 1);
    }
  }

  /** A bit of the exclusive-or is set exactly when the two bits differ. */
  lemma XorByBit(a: byte, b: byte, i: nat)
    requires i < 8
    ensures Bit(Xor(a, b), i) <==> Bit(a, i) != Bit(b, i)
  {
    EightBits();
    XorBitsByBit(8, a, b, i);
  }

  lemma XorUndoesItself(a: byte, b: byte)
    ensures Xor(Xor(a, b), b) == a
  {
    XorLaws(a, b, b);
    XorLaws(b, 0, 0);
    XorLaws(a, 0, 0);
  }

  /** Equal masks hide equal bytes only. */
  lemma XorInjective(a: byte, a': byte, b: byte)
    ensures Xor(a, b) == Xor(a', b) <==> a == a'
  {
    XorUndoesItself(a, b);
    XorUndoesItself(a', b);
  }

  type uint16 = x: int | 0 <= x < 0x1_0000
  type uint32 = x: int | 0 <= x < 0x1_0000_0000

  function PutUint16(x: uint16): (r: seq<byte>)
    ensures |r| == 2
  {
    [x / 256, x % 256]
  }

  function Uint16(b: seq<byte>): uint16
    requires |b| == 2
  {
    (b[0] as int) * 256 + b[1]
  }

  function PutUint32(x: uint32): (r: seq<byte>)
    ensures |r| == 4
  {
    PutUint16(x / 0x1_0000) + PutUint16(x % 0x1_0000)
  }

  function Uint32(b: seq<byte>): uint32
    requires |b| == 4
  {
    Uint16(b[..2]) * 0x1_0000 + Uint16(b[2..])
  }

  lemma Uint16RoundTrip(x: uint16)
    ensures Uint16(PutUint16(x)) == x
  {
  }

  function Zeros(n: nat): (r: seq<byte>)
    ensures |r| == n && forall i :: 0 <= i < n ==> r[i] == 0
  {
    seq(n, i => 0)
  }
}
