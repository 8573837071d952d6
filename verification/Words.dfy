/** A block held as two little-endian 64-bit words, the representation the cipher computes on. */
module Words {
  import opened Binary
  import opened Bytes

  const WORD_BITS: nat := 64

  type uint64 = n: nat | n < 0x1_0000_0000_0000_0000

  datatype Words = Words(lo: uint64, hi: uint64)

  const ZERO_WORDS := Words(0, 0)

  /** The value of a little-endian byte string. */
  function LittleEndian(b: seq<byte>): nat {
    if b == [] then 0 else b[0] + 256 * LittleEndian(b[1..])
  }

  /** The `n` low-order bytes of a number; byte i is Go's `uint8(x >> (8 * i))`. */
  function LowBytes(x: nat, n: nat): (b: seq<byte>)
    ensures |b| == n
  {
    if n == 0 then [] else [x % 256] + LowBytes(x / 256, n - 1)
  }

  lemma {:induction false} LowBytesLittleEndian(b: seq<byte>)
    ensures LowBytes(LittleEndian(b), |b|) == b
  {
    if b == [] {
    } else {
      LowBytesLittleEndian(b[1..]);
      QuotientAndRemainder(b[0], LittleEndian(b[1..]));
    }
  }

  lemma QuotientAndRemainder(v: byte, rest: nat)
    ensures (v + 256 * rest) % 256 == v && (v + 256 * rest) / 256 == rest
  {
  }

  lemma {:induction false} LittleEndianBound(b: seq<byte>)
    ensures LittleEndian(b) < Pow2(8 * |b|)
  {
    if b == [] {
    } else {
      LittleEndianBound(b[1..]);
      Pow2Byte();
      Pow2Add(8, 8 * |b[1..]|);
      assert 8 + 8 * |b[1..]| == 8 * |b|;
    }
  }

  lemma {:induction false} LittleEndianLowBytes(x: nat, n: nat)
    requires x < Pow2(8 * n)
    ensures LittleEndian(LowBytes(x, n)) == x
  {
    if n == 0 {
    } else {
      Pow2Byte();
      Pow2Add(8, 8 * (n - 1));
      assert x / 256 < Pow2(8 * (n - 1));
      LittleEndianLowBytes(x / 256, n - 1);
      assert LowBytes(x, n)[1..] == LowBytes(x / 256, n - 1);
    }
  }

  lemma XorTail(a: seq<byte>, b: seq<byte>)
    requires |a| == |b| > 0
    ensures Xor(a, b)[0] == XorBits(a[0], b[0], 8) && Xor(a, b)[1..] == Xor(a[1..], b[1..])
  {
    hide XorBits;
  }

  /** Exclusive or of the values is exclusive or of the bytes. */
  lemma {:induction false} LittleEndianXor(a: seq<byte>, b: seq<byte>)
    requires |a| == |b|
    ensures LittleEndian(Xor(a, b)) == XorBits(LittleEndian(a), LittleEndian(b), 8 * |a|)
  {
    if a == [] {
      XorBitsSelf(0, 0);
    } else {
      var k := 8 * (|a| - 1);
      XorTail(a, b);
      LittleEndianXor(a[1..], b[1..]);
      LittleEndianCons(a);
      LittleEndianCons(b);
      LittleEndianCons(Xor(a, b));
      hide XorBits, Xor, LittleEndian;
      XorLowByte(LittleEndian(a), a[0], LittleEndian(a[1..]),
                 LittleEndian(b), b[0], LittleEndian(b[1..]), k, 8 * |a|);
    }
  }

  lemma LittleEndianCons(b: seq<byte>)
    requires b != []
    ensures LittleEndian(b) == b[0] + 256 * LittleEndian(b[1..])
  {
  }

  lemma Pow2Word()
    ensures Pow2(64) == 0x1_0000_0000_0000_0000
  {
    hide Pow2;
    Pow2Byte();
    Pow2Add(8, 8);
    Pow2Add(16, 16);
    Pow2Add(32, 32);
  }

  /** `binary.LittleEndian.Uint64`. */
  function LoadWord(b: seq<byte>): uint64
    requires |b| == 8
  {
    LittleEndianBound(b);
    Pow2Word();
    LittleEndian(b)
  }

  /** `binary.LittleEndian.PutUint64`. */
  function StoreWord(x: uint64): (b: seq<byte>)
    ensures |b| == 8
  {
    LowBytes(x, 8)
  }

  /** Go's `x ^ y` on uint64. */
  function XorWord(x: uint64, y: uint64): uint64 {
    Pow2Word();
    XorBits(x, y, WORD_BITS)
  }

  function Load(b: Block): Words { Words(LoadWord(b[..8]), LoadWord(b[8..])) }

  function Store(w: Words): Block { StoreWord(w.lo) + StoreWord(w.hi) }

  function XorWords(a: Words, b: Words): Words { Words(XorWord(a.lo, b.lo), XorWord(a.hi, b.hi)) }

  lemma StoreLoadWord(b: seq<byte>, x: uint64)
    requires |b| == 8
    ensures StoreWord(LoadWord(b)) == b && LoadWord(StoreWord(x)) == x
  {
    hide LittleEndian, LowBytes;
    LowBytesLittleEndian(b);
    Pow2Word();
    LittleEndianLowBytes(x, 8);
  }

  /** The two representations of a block are in one-to-one correspondence. */
  lemma StoreLoad(b: Block, w: Words)
    ensures Store(Load(b)) == b && Load(Store(w)) == w
  {
    hide LoadWord, StoreWord;
    StoreLoadWord(b[..8], w.lo);
    StoreLoadWord(b[8..], w.hi);
  }

  lemma StoreXorWord(x: uint64, y: uint64)
    ensures StoreWord(XorWord(x, y)) == Xor(StoreWord(x), StoreWord(y))
  {
    hide LittleEndian, LowBytes, Xor, XorBits;
    Pow2Word();
    LittleEndianLowBytes(x, 8);
    LittleEndianLowBytes(y, 8);
    LittleEndianXor(StoreWord(x), StoreWord(y));
    LowBytesLittleEndian(Xor(StoreWord(x), StoreWord(y)));
  }

  /** XOR of words is XOR of the blocks they hold. */
  lemma StoreXor(a: Words, b: Words)
    ensures Store(XorWords(a, b)) == Xor(Store(a), Store(b))
  {
    hide StoreWord, Xor, XorWord;
    StoreXorWord(a.lo, b.lo);
    StoreXorWord(a.hi, b.hi);
    XorConcat(StoreWord(a.lo), StoreWord(b.lo), StoreWord(a.hi), StoreWord(b.hi));
  }

  lemma EmptyLittleEndian(b: seq<byte>)
    requires b == []
    ensures LittleEndian(b) == 0
  {
  }

  /** Putting one more byte into the free bits above a little-endian value. */
  lemma {:induction false} LittleEndianAppend(b: seq<byte>, v: byte)
    ensures LittleEndian(b + [v]) == LittleEndian(b) + Pow2(8 * |b|) * v
  {
    if b == [] {
      assert LittleEndian([v]) == v;
    } else {
      LittleEndianAppend(b[1..], v);
      assert (b + [v])[1..] == b[1..] + [v];
      Pow2Byte();
      Pow2Add(8, 8 * |b[1..]|);
      assert 8 + 8 * |b[1..]| == 8 * |b|;
      var p := Pow2(8 * |b[1..]|);
      assert Pow2(8 * |b|) * v == 256 * (p * v);
    }
  }

  lemma StoreZero()
    ensures Store(ZERO_WORDS) == ZERO
  {
    assert LowBytes(0, 4) == [0, 0, 0, 0];
    assert LowBytes(0, 8) == [0, 0, 0, 0] + LowBytes(0, 4);
  }

  /** The first byte is the lowest. */
  lemma LoadWordValue(b: seq<byte>)
    requires |b| == 8
    ensures LoadWord(b) ==
            b[0] as int + 0x100 * (b[1] as int + 0x100 * (b[2] as int + 0x100 * (b[3] as int + 0x100 *
            (b[4] as int + 0x100 * (b[5] as int + 0x100 * (b[6] as int + 0x100 * b[7] as int))))))
  {
    hide LittleEndian;
    FromByte(b, 7);
    FromByte(b, 6);
    FromByte(b, 5);
    FromByte(b, 4);
    FromByte(b, 3);
    FromByte(b, 2);
    FromByte(b, 1);
    FromByte(b, 0);
    assert b[0..] == b && b[8..] == [];
    EmptyLittleEndian(b[8..]);
  }

  lemma FromByte(b: seq<byte>, i: nat)
    requires i < |b|
    ensures LittleEndian(b[i..]) == b[i] as int + 0x100 * LittleEndian(b[i + 1..])
  {
    assert b[i..][1..] == b[i + 1..];
  }
}
