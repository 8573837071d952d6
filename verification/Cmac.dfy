/** CMAC over any 16-byte block cipher, after section 6.2 of NIST SP 800-38B. */
module Cmac {
  import opened Binary
  import opened Bytes
  import opened BigEndian
  import opened CtrMode
  import opened Subkeys

  /** The number of blocks; the empty message has one. */
  function NumBlocks(length: nat): (n: nat)
    ensures n > 0 && 16 * (n - 1) <= length <= 16 * n
    ensures length > 0 ==> 16 * (n - 1) < length
  {
    if length == 0 then 1 else (length + 15) / 16
  }

  /** Bytes 16i to 16i + 15 of the message, fewer at its end. */
  function Segment(msg: seq<byte>, i: nat): (s: seq<byte>)
    requires i < NumBlocks(|msg|)
    ensures |s| <= 16
  {
    if 16 * i + 16 <= |msg| then msg[16 * i..16 * i + 16] else msg[16 * i..]
  }

  /** A short block is completed by a one bit and zeros. */
  function Pad(s: seq<byte>): Block
    requires |s| < 16
  {
    s + [0x80] + Zeros(15 - |s|)
  }

  /** Block i as it enters the chain: the last one is masked with a subkey, after padding if short. */
  function MacBlock(e: Block -> Block, msg: seq<byte>, i: nat): Block
    requires i < NumBlocks(|msg|)
  {
    var s := Segment(msg, i);
    if i + 1 < NumBlocks(|msg|) then s
    else if |s| == 16 then Xor(s, K1(e))
    else Xor(Pad(s), K2(e))
  }

  /** The chaining value after `i` blocks: C_0 = 0, C_i = CIPH(C_(i-1) xor M_i). */
  function Chain(e: Block -> Block, msg: seq<byte>, i: nat): Block
    requires i <= NumBlocks(|msg|)
  {
    if i == 0 then ZERO else e(Xor(Chain(e, msg, i - 1), MacBlock(e, msg, i - 1)))
  }

  function Tag(e: Block -> Block, msg: seq<byte>): Block {
    Chain(e, msg, NumBlocks(|msg|))
  }

  lemma PadAt(s: seq<byte>, i: nat)
    requires |s| < 16 && i < 16
    ensures Pad(s)[i] == if i < |s| then s[i] else if i == |s| then 0x80 else 0
  {
  }

  /** The padded block determines the bytes and how many there were. */
  lemma PadInjective(s: seq<byte>, t: seq<byte>)
    requires |s| < 16 && |t| < 16
    ensures Pad(s) == Pad(t) <==> s == t
  {
    if Pad(s) == Pad(t) {
      PadAt(s, |s|);
      PadAt(t, |s|);
      PadAt(s, |t|);
      PadAt(t, |t|);
      assert s == Pad(s)[..|s|] && t == Pad(t)[..|s|];
    }
  }

  lemma {:induction false} ValueZerosAfter(s: seq<byte>, n: nat)
    ensures Value(s + Zeros(n)) == Value(s) * Pow2(8 * n)
  {
    hide Value;
    if n == 0 {
      assert s + Zeros(0) == s;
    } else {
      var t := s + Zeros(n - 1);
      assert s + Zeros(n) == t + [0];
      ValueZerosAfter(s, n - 1);
      ValueAppend(t, 0);
      Pow2Byte();
      Pow2Add(8, 8 * (n - 1));
      Scaled(Value(s), Pow2(8 * (n - 1)), Pow2(8 * n));
    }
  }

  lemma Scaled(v: nat, p: nat, q: nat)
    requires q == 256 * p
    ensures 256 * (v * p) == v * q
  {
  }

  /** As a number, the padded block is the bytes, then a one bit, then zero bits. */
  lemma PadValue(s: seq<byte>)
    requires |s| < 16
    ensures Value(Pad(s)) == (2 * Value(s) + 1) * Pow2(8 * (16 - |s|) - 1)
  {
    hide Value, Pow2, Pad;
    var marked, n, k := s + [0x80], 15 - |s|, 8 * (16 - |s|) - 1;
    PadIs(s, marked, n);
    PadNumber(s, marked, n, k);
  }

  lemma PadIs(s: seq<byte>, marked: seq<byte>, n: nat)
    requires |s| < 16 && marked == s + [0x80] && n == 15 - |s|
    ensures Pad(s) == marked + Zeros(n)
  {
  }

  lemma PadNumber(s: seq<byte>, marked: seq<byte>, n: nat, k: nat)
    requires marked == s + [0x80] && k == 8 * n + 7
    ensures Value(marked + Zeros(n)) == (2 * Value(s) + 1) * Pow2(k)
  {
    hide Value, Pow2;
    ValueAppend(s, 0x80);
    ValueZerosAfter(marked, n);
    OneBitMore(n, k);
    var v, u, p, q := Value(s), Value(marked), Pow2(8 * n), Pow2(k);
    assert u == 256 * v + 128;
    Regrouped(v, u, p, q);
  }

  lemma OneBitMore(n: nat, k: nat)
    requires k == 8 * n + 7
    ensures Pow2(k) == 128 * Pow2(8 * n)
  {
    hide Pow2;
    Pow2Seven();
    Pow2Add(7, 8 * n);
    assert 7 + 8 * n == k;
  }

  lemma Pow2Seven()
    ensures Pow2(7) == 128
  {
    Pow2Byte();
  }

  lemma Regrouped(v: nat, u: nat, p: nat, q: nat)
    requires u == 256 * v + 128 && q == 128 * p
    ensures u * p == (2 * v + 1) * q
  {
    assert u == (2 * v + 1) * 128;
    assert ((2 * v + 1) * 128) * p == (2 * v + 1) * (128 * p);
  }

  /** For messages of one length, a block of the chain determines the bytes it was made of. */
  lemma MacBlockInjective(e: Block -> Block, a: seq<byte>, b: seq<byte>, i: nat)
    requires |a| == |b| && i < NumBlocks(|a|)
    ensures MacBlock(e, a, i) == MacBlock(e, b, i) <==> Segment(a, i) == Segment(b, i)
  {
    hide Xor, Pad, K1, K2, NumBlocks;
    var s, t := Segment(a, i), Segment(b, i);
    if MacBlock(e, a, i) == MacBlock(e, b, i) && i + 1 >= NumBlocks(|a|) {
      if |s| == 16 {
        XorCancel(s, t, K1(e));
      } else {
        XorCancel(Pad(s), Pad(t), K2(e));
        PadInjective(s, t);
      }
    }
  }

  /** A block difference survives every later step: the cipher is injective, the rest equal. */
  lemma {:induction false} ChainDiffers(e: Block -> Block, d: Block -> Block, a: seq<byte>, b: seq<byte>, i: nat, n: nat)
    requires Undoes(d, e) && |a| == |b| && i < NumBlocks(|a|) && n <= NumBlocks(|a|)
    requires Segment(a, i) != Segment(b, i)
    requires forall j | 0 <= j < NumBlocks(|a|) && j != i :: Segment(a, j) == Segment(b, j)
    ensures Chain(e, a, n) == Chain(e, b, n) <==> n <= i
  {
    hide Xor, MacBlock, Segment, NumBlocks;
    if n == 0 {
    } else {
      ChainDiffers(e, d, a, b, i, n - 1);
      MacBlockInjective(e, a, b, n - 1);
      var c, c' := Chain(e, a, n - 1), Chain(e, b, n - 1);
      var m, m' := MacBlock(e, a, n - 1), MacBlock(e, b, n - 1);
      assert d(Chain(e, a, n)) == Xor(c, m) && d(Chain(e, b, n)) == Xor(c', m');
      XorCancel(c, c', m);
      XorCancel(m, m', c);
    }
  }

  /** Two messages of one length that agree outside block i. */
  ghost predicate AgreeOutside(a: seq<byte>, b: seq<byte>, i: nat) {
    && |a| == |b|
    && forall k | 0 <= k < |a| && k / 16 != i :: a[k] == b[k]
  }

  lemma SegmentsOutside(a: seq<byte>, b: seq<byte>, i: nat, j: nat)
    requires AgreeOutside(a, b, i) && j < NumBlocks(|a|) && j != i
    ensures Segment(a, j) == Segment(b, j)
  {
    var s, t := Segment(a, j), Segment(b, j);
    forall k | 0 <= k < |s| ensures s[k] == t[k] {
      assert (16 * j + k) / 16 == j;
    }
  }

  lemma SegmentInside(a: seq<byte>, b: seq<byte>, i: nat)
    requires AgreeOutside(a, b, i) && a != b
    ensures i < NumBlocks(|a|) && Segment(a, i) != Segment(b, i)
  {
    var k :| 0 <= k < |a| && a[k] != b[k];
    assert k / 16 == i;
    var r := k - 16 * i;
    assert Segment(a, i)[r] == a[k] && Segment(b, i)[r] == b[k];
  }

  /** Changing one aligned block of a message always changes its tag. */
  lemma TagDetectsBlockChange(e: Block -> Block, d: Block -> Block, a: seq<byte>, b: seq<byte>, i: nat)
    requires Undoes(d, e) && AgreeOutside(a, b, i) && a != b
    ensures Tag(e, a) != Tag(e, b)
  {
    hide Chain, Segment, NumBlocks;
    SegmentInside(a, b, i);
    forall j | 0 <= j < NumBlocks(|a|) && j != i ensures Segment(a, j) == Segment(b, j) {
      SegmentsOutside(a, b, i, j);
    }
    ChainDiffers(e, d, a, b, i, NumBlocks(|a|));
  }

  // Short last blocks, of different lengths too.

  /** The last block is not whole. */
  predicate EndsShort(msg: seq<byte>) {
    msg == [] || |msg| % 16 != 0
  }

  /** What comes before the last block. */
  function Front(msg: seq<byte>): (front: seq<byte>)
    ensures |front| <= |msg|
  {
    msg[..16 * (NumBlocks(|msg|) - 1)]
  }

  lemma SameFront(e: Block -> Block, a: seq<byte>, b: seq<byte>, i: nat)
    requires NumBlocks(|a|) == NumBlocks(|b|) && Front(a) == Front(b) && i + 1 < NumBlocks(|a|)
    ensures MacBlock(e, a, i) == MacBlock(e, b, i)
  {
    var n := 16 * (NumBlocks(|a|) - 1);
    assert a[16 * i..16 * i + 16] == Front(a)[16 * i..16 * i + 16];
    assert b[16 * i..16 * i + 16] == Front(b)[16 * i..16 * i + 16];
  }

  lemma {:induction false} SameChain(e: Block -> Block, a: seq<byte>, b: seq<byte>, i: nat)
    requires NumBlocks(|a|) == NumBlocks(|b|) && Front(a) == Front(b) && i < NumBlocks(|a|)
    ensures Chain(e, a, i) == Chain(e, b, i)
  {
    hide MacBlock, NumBlocks, Xor, Front;
    if i == 0 {
    } else {
      SameChain(e, a, b, i - 1);
      SameFront(e, a, b, i - 1);
    }
  }

  lemma LastOfShort(e: Block -> Block, msg: seq<byte>)
    requires EndsShort(msg)
    ensures var s := msg[|Front(msg)|..];
      |s| < 16 && MacBlock(e, msg, NumBlocks(|msg|) - 1) == Xor(Pad(s), K2(e)) && msg == Front(msg) + s
  {
    hide Xor, Pad, K2;
  }

  /**
   * Two messages with as many blocks and equal but for their short last blocks have the same tag only if they are
   * the same: the padding tells the last blocks apart even when their lengths differ.
   */
  lemma ShortEndsDiffer(e: Block -> Block, d: Block -> Block, a: seq<byte>, b: seq<byte>)
    requires Undoes(d, e) && NumBlocks(|a|) == NumBlocks(|b|) && Front(a) == Front(b)
    requires EndsShort(a) && EndsShort(b)
    ensures Tag(e, a) == Tag(e, b) <==> a == b
  {
    hide Tag, Chain, MacBlock, Front, EndsShort, NumBlocks, Xor, Pad, K2;
    var n := NumBlocks(|a|) - 1;
    var s, t := a[|Front(a)|..], b[|Front(b)|..];
    LastOfShort(e, a);
    LastOfShort(e, b);
    SameChain(e, a, b, n);
    TagUnfolds(e, a);
    TagUnfolds(e, b);
    if Tag(e, a) == Tag(e, b) {
      var c := Chain(e, a, n);
      assert d(Tag(e, a)) == Xor(c, Xor(Pad(s), K2(e))) && d(Tag(e, b)) == Xor(c, Xor(Pad(t), K2(e)));
      XorCancel(Xor(Pad(s), K2(e)), Xor(Pad(t), K2(e)), c);
      XorCancel(Pad(s), Pad(t), K2(e));
      PadInjective(s, t);
    }
  }

  lemma TagUnfolds(e: Block -> Block, msg: seq<byte>)
    ensures var n := NumBlocks(|msg|) - 1;
      Tag(e, msg) == e(Xor(Chain(e, msg, n), MacBlock(e, msg, n)))
  {
    hide MacBlock, NumBlocks, Xor;
  }

  // The definition spelled out.

  /** The tag of at most one block: whole with the first subkey, short or empty with the second. */
  lemma TagOfOneBlock(e: Block -> Block, s: seq<byte>)
    requires |s| <= 16
    ensures |s| == 16 ==> Tag(e, s) == e(Xor(s, Double(e(ZERO))))
    ensures |s| < 16 ==> Tag(e, s) == e(Xor(s + [0x80] + Zeros(15 - |s|), Double(Double(e(ZERO)))))
  {
    TagUnfolds(e, s);
    assert NumBlocks(|s|) == 1 && Chain(e, s, 0) == ZERO;
    assert Segment(s, 0) == s;
    hide Xor, Double;
    ZeroFirst(MacBlock(e, s, 0));
  }

  lemma ZeroFirst(b: Block)
    ensures Xor(ZERO, b) == b
  {
    forall i | 0 <= i < 16 ensures Xor(ZERO, b)[i] == b[i] {
      XorByteZero(b[i]);
    }
  }

  /** One whole block before a short one. */
  lemma TagOfBlockAndShort(e: Block -> Block, b: Block, s: seq<byte>)
    requires 0 < |s| < 16
    ensures Tag(e, b + s) == e(Xor(Xor(e(b), s + [0x80] + Zeros(15 - |s|)), Double(Double(e(ZERO)))))
  {
    var msg := b + s;
    assert NumBlocks(|msg|) == 2;
    assert Segment(msg, 0) == b && Segment(msg, 1) == s;
    TagUnfolds(e, msg);
    ChainOne(e, msg, b);
    assert MacBlock(e, msg, 1) == Xor(Pad(s), K2(e));
    hide Xor, Double, MacBlock, Segment, NumBlocks, Tag, Chain;
    XorAssoc(e(b), Pad(s), K2(e));
  }

  lemma ChainOne(e: Block -> Block, msg: seq<byte>, b: Block)
    requires NumBlocks(|msg|) > 1 && Segment(msg, 0) == b
    ensures Chain(e, msg, 1) == e(b)
  {
    hide Xor, Segment, NumBlocks;
    ZeroFirst(b);
    assert Chain(e, msg, 0) == ZERO;
  }

  /** Every later block is a block of the shortened message. */
  lemma LaterBlock(e: Block -> Block, b: Block, c: Block, x: Block, rest: seq<byte>, i: nat)
    requires 0 < i < NumBlocks(|x + rest|)
    ensures NumBlocks(|b + c + rest|) == NumBlocks(|x + rest|) + 1
    ensures MacBlock(e, b + c + rest, i + 1) == MacBlock(e, x + rest, i)
  {
    hide Xor, Pad, K1, K2;
    var m, n := b + c + rest, x + rest;
    if 16 * i + 16 <= |n| {
      assert m[16 * i + 16..16 * i + 32] == n[16 * i..16 * i + 16];
    } else {
      assert m[16 * i + 16..] == n[16 * i..];
    }
    assert Segment(m, i + 1) == Segment(n, i);
  }

  lemma {:induction false} LaterChain(e: Block -> Block, b: Block, c: Block, rest: seq<byte>, i: nat)
    requires 0 < i <= NumBlocks(|Xor(e(b), c) + rest|)
    ensures NumBlocks(|b + c + rest|) == NumBlocks(|Xor(e(b), c) + rest|) + 1
    ensures Chain(e, b + c + rest, i + 1) == Chain(e, Xor(e(b), c) + rest, i)
  {
    var x: Block := Xor(e(b), c);
    if i == 1 {
      SecondBlock(e, b, c, rest);
    } else {
      LaterChain(e, b, c, rest, i - 1);
      LaterBlock(e, b, c, x, rest, i - 1);
      hide Xor, MacBlock, NumBlocks;
    }
  }

  lemma SecondBlock(e: Block -> Block, b: Block, c: Block, rest: seq<byte>)
    ensures NumBlocks(|b + c + rest|) == NumBlocks(|Xor(e(b), c) + rest|) + 1
    ensures Chain(e, b + c + rest, 2) == Chain(e, Xor(e(b), c) + rest, 1)
  {
    var x: Block := Xor(e(b), c);
    var m, n := b + c + rest, x + rest;
    assert m[0..16] == b && m[16..32] == c && n[0..16] == x;
    assert Segment(m, 0) == b && Segment(m, 1) == c && Segment(n, 0) == x;
    ChainOne(e, m, b);
    var mask := if rest == [] then K1(e) else ZERO;
    assert rest == [] ==> MacBlock(e, m, 1) == Xor(c, mask) && MacBlock(e, n, 0) == Xor(x, mask);
    assert rest != [] ==> MacBlock(e, m, 1) == c && MacBlock(e, n, 0) == x;
    assert Chain(e, m, 2) == e(Xor(Chain(e, m, 1), MacBlock(e, m, 1)));
    assert Chain(e, n, 0) == ZERO && Chain(e, n, 1) == e(Xor(Chain(e, n, 0), MacBlock(e, n, 0)));
    hide Xor, Chain, MacBlock, Segment, NumBlocks, K1;
    XorAssoc(e(b), c, mask);
    ZeroFirst(MacBlock(e, n, 0));
  }

  /**
   * Two whole blocks at the front fold into one: the first, enciphered, is added to the second. With the two lemmas
   * before, this determines the tag of every message.
   */
  lemma TagFolds(e: Block -> Block, b: Block, c: Block, rest: seq<byte>)
    ensures Tag(e, b + c + rest) == Tag(e, Xor(e(b), c) + rest)
  {
    hide Xor, Chain;
    LaterChain(e, b, c, rest, NumBlocks(|Xor(e(b), c) + rest|));
  }
}
