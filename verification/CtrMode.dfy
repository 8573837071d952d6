/** Counter mode over any 16-byte block cipher: what the encryption loop has to compute. */
module CtrMode {
  import opened Bytes
  import opened BigEndian

  /** `d` undoes the block transformation `e`, so `e` is injective. */
  ghost predicate Undoes(d: Block -> Block, e: Block -> Block) {
    forall b: Block :: d(e(b)) == b
  }

  /** One more in the last eight bytes; the first eight stay. */
  function Increment(c: Block): Block {
    c[..8] + Successor(c[8..])
  }

  /** The counter block of gamma block `k`. */
  function CounterAt(iv: Block, k: nat): Block {
    if k == 0 then iv else Increment(CounterAt(iv, k - 1))
  }

  const TWO_64: nat := 0x1_0000_0000_0000_0000

  lemma RangeOfHalf()
    ensures Range(8) == TWO_64
  {
    hide Range;
    RangeStep(0);
    RangeStep(1);
    RangeStep(2);
    RangeStep(3);
    RangeStep(4);
    RangeStep(5);
    RangeStep(6);
    RangeStep(7);
  }

  /** After `k` increments the low half is the start plus k modulo 2^64, the high half untouched. */
  lemma {:induction false} CounterValue(iv: Block, k: nat)
    ensures CounterAt(iv, k)[..8] == iv[..8]
    ensures Value(CounterAt(iv, k)[8..]) == (Value(iv[8..]) + k) % TWO_64
  {
    hide Range, Value, Successor;
    RangeOfHalf();
    if k == 0 {
      ValueBound(iv[8..]);
    } else {
      var c := CounterAt(iv, k - 1);
      CounterValue(iv, k - 1);
      ValueSuccessor(c[8..]);
      assert CounterAt(iv, k)[8..] == Successor(c[8..]);
      Modulo(Value(iv[8..]) + k - 1, Value(c[8..]));
    }
  }

  lemma Modulo(n: nat, v: nat)
    requires v == n % TWO_64
    ensures (if v + 1 == TWO_64 then 0 else v + 1) == (n + 1) % TWO_64
  {
  }

  /** Two counters of one stream coincide exactly when they lie a multiple of 2^64 apart. */
  lemma CountersCoincide(iv: Block, i: nat, j: nat)
    ensures CounterAt(iv, i) == CounterAt(iv, j) <==> i % TWO_64 == j % TWO_64
  {
    hide CounterAt, Value;
    CounterValue(iv, i);
    CounterValue(iv, j);
    var v := Value(iv[8..]);
    SameResidue(v, i, j);
    var a, b := CounterAt(iv, i), CounterAt(iv, j);
    if i % TWO_64 == j % TWO_64 {
      ValueInjective(a[8..], b[8..]);
      assert a == a[..8] + a[8..] && b == b[..8] + b[8..];
    }
  }

  lemma SameResidue(v: nat, i: nat, j: nat)
    ensures (v + i) % TWO_64 == (v + j) % TWO_64 <==> i % TWO_64 == j % TWO_64
  {
  }

  /** The key stream block number `k`. */
  function Gamma(e: Block -> Block, iv: Block, k: nat): Block { e(CounterAt(iv, k)) }

  /** No two of the first 2^64 key stream blocks of a message are equal. */
  lemma GammaBlocksDistinct(e: Block -> Block, d: Block -> Block, iv: Block, i: nat, j: nat)
    requires Undoes(d, e)
    requires i < j < TWO_64
    ensures Gamma(e, iv, i) != Gamma(e, iv, j)
  {
    hide CounterAt;
    CountersCoincide(iv, i, j);
    assert d(Gamma(e, iv, i)) == CounterAt(iv, i) && d(Gamma(e, iv, j)) == CounterAt(iv, j);
  }

  /** Byte j of the output is byte j of the input plus byte j mod 16 of gamma block j / 16. */
  function Ctr(e: Block -> Block, iv: Block, src: seq<byte>): (dst: seq<byte>)
    ensures |dst| == |src|
  {
    seq(|src|, j requires 0 <= j < |src| => XorByte(src[j], Gamma(e, iv, j / BLOCK_SIZE)[j % BLOCK_SIZE]))
  }

  /** Encryption and decryption are the same operation, for every length. */
  lemma CtrInvolution(e: Block -> Block, iv: Block, src: seq<byte>)
    ensures Ctr(e, iv, Ctr(e, iv, src)) == src
  {
    hide XorByte, Gamma;
    var once := Ctr(e, iv, src);
    forall j | 0 <= j < |src| ensures Ctr(e, iv, once)[j] == src[j] {
      XorByteTwice(src[j], Gamma(e, iv, j / BLOCK_SIZE)[j % BLOCK_SIZE]);
    }
  }

  lemma {:induction false} CounterFromNext(iv: Block, k: nat)
    ensures CounterAt(Increment(iv), k) == CounterAt(iv, k + 1)
  {
    hide Increment;
    if k == 0 {
      assert CounterAt(iv, 1) == Increment(CounterAt(iv, 0));
    } else {
      CounterFromNext(iv, k - 1);
    }
  }

  /** A message of at most one block is added to the enciphered vector. */
  lemma CtrOfOneBlock(e: Block -> Block, iv: Block, src: seq<byte>)
    requires |src| <= 16
    ensures Ctr(e, iv, src) == Xor(src, e(iv)[..|src|])
  {
    hide XorByte;
  }

  /** A longer one: the first block so, and the rest from the next counter on, which is one more in its low half. */
  lemma CtrOfMore(e: Block -> Block, iv: Block, b: Block, rest: seq<byte>, next: Block)
    requires next[..8] == iv[..8] && Value(next[8..]) == (Value(iv[8..]) + 1) % 0x1_0000_0000_0000_0000
    ensures Ctr(e, iv, b + rest) == Xor(b, e(iv)) + Ctr(e, next, rest)
  {
    hide XorByte, Increment, Value, CounterAt, Ctr, Gamma;
    NextIsIncrement(iv, next);
    var src, whole := b + rest, Xor(b, e(iv)) + Ctr(e, next, rest);
    forall j | 0 <= j < |src| ensures Ctr(e, iv, src)[j] == whole[j] {
      if j < 16 {
        CtrHead(e, iv, src, b, j);
      } else {
        CtrTail(e, iv, src, next, rest, j - 16);
      }
    }
  }

  lemma CtrHead(e: Block -> Block, iv: Block, src: seq<byte>, b: Block, j: nat)
    requires j < 16 <= |src| && src[..16] == b
    ensures Ctr(e, iv, src)[j] == XorByte(b[j], e(iv)[j])
  {
    hide XorByte, Increment;
    assert j / 16 == 0 && j % 16 == j && b[j] == src[j];
    assert Gamma(e, iv, 0) == e(iv);
  }

  lemma CtrTail(e: Block -> Block, iv: Block, src: seq<byte>, next: Block, rest: seq<byte>, j: nat)
    requires next == Increment(iv) && 16 <= |src| && rest == src[16..] && j < |rest|
    ensures Ctr(e, iv, src)[16 + j] == Ctr(e, next, rest)[j]
  {
    hide XorByte, Increment, CounterAt;
    BlockOf(j);
    CounterFromNext(iv, j / 16);
    assert Gamma(e, iv, j / 16 + 1) == Gamma(e, next, j / 16);
  }

  lemma BlockOf(j: nat)
    ensures (16 + j) / 16 == j / 16 + 1 && (16 + j) % 16 == j % 16
  {
  }

  lemma NextIsIncrement(iv: Block, next: Block)
    requires next[..8] == iv[..8] && Value(next[8..]) == (Value(iv[8..]) + 1) % TWO_64
    ensures next == Increment(iv)
  {
    hide Value, Increment;
    CounterValue(iv, 1);
    assert CounterAt(iv, 1) == Increment(CounterAt(iv, 0)) == Increment(iv);
    var c := Increment(iv);
    ValueInjective(next[8..], c[8..]);
    assert next == next[..8] + next[8..] && c == c[..8] + c[8..];
  }
}
