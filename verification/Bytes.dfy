/** Bytes, 16-byte blocks and the XOR algebra that every other module builds on. */
module Bytes {
  import opened Binary

  type byte = n: nat | n < 256

  const BLOCK_SIZE: nat := 16

  /** A cipher block. Byte 0 in memory is the most significant byte, a_15 in RFC 7801. */
  type Block = b: seq<byte> | |b| == BLOCK_SIZE witness Zeros(BLOCK_SIZE)

  lemma Pow2Byte()
    ensures Pow2(8) == 256
  {
    assert Pow2(4) == 16;
  }

  /** Go's `a ^ b` on bytes. */
  function XorByte(a: byte, b: byte): byte {
    Pow2Byte();
    XorBits(a, b, 8)
  }

  function Zeros(n: nat): (z: seq<byte>)
    ensures |z| == n
  {
    seq(n, _ => 0)
  }

  const ZERO: Block := Zeros(BLOCK_SIZE)

  function Xor(a: seq<byte>, b: seq<byte>): (c: seq<byte>)
    requires |a| == |b|
    ensures |c| == |a|
  {
    seq(|a|, i requires 0 <= i < |a| => XorByte(a[i], b[i]))
  }

  /** The block that is zero except for byte `i`. */
  function Place(i: nat, v: byte): (b: Block)
    requires i < BLOCK_SIZE
  {
    ZERO[i := v]
  }

  lemma XorByteSelf(a: byte)
    ensures XorByte(a, a) == 0
  {
    XorBitsSelf(a, 8);
  }

  lemma XorByteComm(a: byte, b: byte)
    ensures XorByte(a, b) == XorByte(b, a)
  {
    XorBitsComm(a, b, 8);
  }

  lemma XorByteZero(a: byte)
    ensures XorByte(a, 0) == a && XorByte(0, a) == a
  {
    Pow2Byte();
    XorBitsZero(a, 8);
    XorBitsComm(a, 0, 8);
  }

  lemma XorByteAssoc(a: byte, b: byte, c: byte)
    ensures XorByte(XorByte(a, b), c) == XorByte(a, XorByte(b, c))
  {
    XorBitsAssoc(a, b, c, 8);
  }

  lemma XorByteTwice(a: byte, b: byte)
    ensures XorByte(XorByte(a, b), b) == a
    ensures XorByte(a, XorByte(a, b)) == b
  {
    hide XorByte;
    XorByteAssoc(a, b, b);
    XorByteAssoc(a, a, b);
    XorByteSelf(a);
    XorByteSelf(b);
    XorByteZero(a);
    XorByteZero(b);
  }

  lemma XorByteRegroup(p: byte, q: byte, r: byte, s: byte)
    ensures XorByte(XorByte(p, q), XorByte(r, s)) == XorByte(XorByte(p, r), XorByte(q, s))
  {
    hide XorByte;
    XorByteAssoc(p, q, XorByte(r, s));
    XorByteAssoc(q, r, s);
    XorByteComm(q, r);
    XorByteAssoc(r, q, s);
    XorByteAssoc(p, r, XorByte(q, s));
  }

  lemma XorSelf(a: seq<byte>)
    ensures Xor(a, a) == Zeros(|a|)
  {
    hide XorByte;
    forall i | 0 <= i < |a| ensures Xor(a, a)[i] == 0 { XorByteSelf(a[i]); }
  }

  lemma XorZero(a: seq<byte>)
    ensures Xor(a, Zeros(|a|)) == a
    ensures Xor(Zeros(|a|), a) == a
  {
    hide XorByte;
    forall i | 0 <= i < |a|
      ensures Xor(a, Zeros(|a|))[i] == a[i] && Xor(Zeros(|a|), a)[i] == a[i]
    {
      XorByteZero(a[i]);
    }
  }

  lemma XorComm(a: seq<byte>, b: seq<byte>)
    requires |a| == |b|
    ensures Xor(a, b) == Xor(b, a)
  {
    hide XorByte;
    forall i | 0 <= i < |a| ensures Xor(a, b)[i] == Xor(b, a)[i] { XorByteComm(a[i], b[i]); }
  }

  lemma XorAssoc(a: seq<byte>, b: seq<byte>, c: seq<byte>)
    requires |a| == |b| == |c|
    ensures Xor(Xor(a, b), c) == Xor(a, Xor(b, c))
  {
    hide XorByte;
    forall i | 0 <= i < |a| ensures Xor(Xor(a, b), c)[i] == Xor(a, Xor(b, c))[i] {
      XorByteAssoc(a[i], b[i], c[i]);
    }
  }

  /** XOR with the same value twice is the identity. */
  lemma XorTwice(a: seq<byte>, b: seq<byte>)
    requires |a| == |b|
    ensures Xor(Xor(a, b), b) == a
    ensures Xor(b, Xor(b, a)) == a
    ensures Xor(b, Xor(a, b)) == a
  {
    hide XorByte, Xor, Zeros;
    XorAssoc(a, b, b);
    XorSelf(b);
    XorZero(a);
    XorComm(a, b);
    XorComm(b, Xor(a, b));
  }

  /** XOR with a fixed value is injective. */
  lemma XorCancel(a: seq<byte>, b: seq<byte>, k: seq<byte>)
    requires |a| == |b| == |k|
    ensures Xor(a, k) == Xor(b, k) ==> a == b
    ensures Xor(k, a) == Xor(k, b) ==> a == b
  {
    hide XorByte, Xor;
    XorTwice(a, k);
    XorTwice(b, k);
    XorComm(a, k);
    XorComm(b, k);
  }

  lemma XorConcat(a: seq<byte>, b: seq<byte>, c: seq<byte>, d: seq<byte>)
    requires |a| == |b| && |c| == |d|
    ensures Xor(a + c, b + d) == Xor(a, b) + Xor(c, d)
  {
    hide XorByte;
  }

  /** Exclusive or splits into the lowest byte and the rest. */
  lemma XorLowByte(v: nat, a: byte, x: nat, w: nat, b: byte, y: nat, k: nat, n: nat)
    requires v == a + 256 * x && w == b + 256 * y && n == 8 + k
    ensures XorBits(v, w, n) == XorBits(a, b, 8) + 256 * XorBits(x, y, k)
  {
    Pow2Byte();
    hide XorBits;
    XorBitsAbove(a, x, b, y, 8, k);
  }
}
