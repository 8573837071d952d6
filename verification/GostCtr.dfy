/** `gostCTR`: the in-place counter mode loop, run on the Kuznyechik cipher object. */
module GostCounter {
  import opened Bytes
  import opened CtrMode
  import opened Slices
  import opened KuznyechikCipher
  import Rfc = Rfc7801

  /** Kuznyechik is a permutation of the blocks, with `Dec` as its inverse. */
  lemma KuznyechikPermutes(k: Rfc.RoundKeys)
    ensures Undoes(Rfc.Dec(k), Rfc.Enc(k)) && Undoes(Rfc.Enc(k), Rfc.Dec(k))
  {
    hide Rfc.Encrypt, Rfc.Decrypt;
    forall b: Block ensures Rfc.Dec(k)(Rfc.Enc(k)(b)) == b && Rfc.Enc(k)(Rfc.Dec(k)(b)) == b {
      Rfc.EncryptDecrypt(k, b);
    }
  }

  /** The starting counter: the vector cut or zero-filled to a block. */
  function Start(iv: seq<byte>): Block {
    if |iv| >= 16 then iv[..16] else iv + Zeros(16 - |iv|)
  }

  lemma StartIsCounter(iv: seq<byte>, counter: Block)
    requires forall i | 0 <= i < 16 :: counter[i] == if i < |iv| then iv[i] else 0
    ensures counter == CounterAt(Start(iv), 0)
  {
  }

  lemma CtrNext(e: Block -> Block, iv: Block, src: seq<byte>, k: nat, done: nat, n: nat)
    requires done == 16 * k && done + n <= |src| && n <= 16
    ensures Ctr(e, iv, src[..done + n]) ==
            Ctr(e, iv, src[..done]) + Xor(src[done..done + n], e(CounterAt(iv, k))[..n])
  {
    hide XorByte, CounterAt;
    var l, r := Ctr(e, iv, src[..done + n]),
                Ctr(e, iv, src[..done]) + Xor(src[done..done + n], e(CounterAt(iv, k))[..n]);
    forall j | 0 <= j < |l| ensures l[j] == r[j] {
      if j >= done { assert j / 16 == k && j % 16 == j - done; }
    }
  }

  /** `buf` is `was` with the first `done` output bytes written from `off` on. */
  ghost predicate Written(buf: seq<byte>, was: seq<byte>, off: nat, e: Block -> Block, iv: Block, src: seq<byte>, done: nat) {
    && done <= |src| && off + |src| <= |was| == |buf|
    && buf == Patch(was, off, Ctr(e, iv, src[..done]))
  }

  lemma WrittenNone(was: seq<byte>, off: nat, e: Block -> Block, iv: Block, src: seq<byte>)
    requires off + |src| <= |was|
    ensures Written(was, was, off, e, iv, src, 0)
  {
  }

  lemma WrittenAll(buf: seq<byte>, was: seq<byte>, off: nat, e: Block -> Block, iv: Block, src: seq<byte>)
    requires Written(buf, was, off, e, iv, src, |src|)
    ensures buf == Patch(was, off, Ctr(e, iv, src))
  {
    hide Ctr, Patch;
    assert src[..|src|] == src;
  }

  /** One more block, the last one possibly short. */
  lemma WrittenNext(buf: seq<byte>, was: seq<byte>, off: nat, e: Block -> Block, iv: Block, src: seq<byte>,
                    k: nat, done: nat, n: nat, piece: seq<byte>, gamma: seq<byte>)
    requires Written(buf, was, off, e, iv, src, done)
    requires done == 16 * k && done + n <= |src| && n <= 16
    requires piece == src[done..done + n] && gamma == e(CounterAt(iv, k))[..n]
    ensures off + done + n <= |buf|
    ensures Written(Patch(buf, off + done, Xor(piece, gamma)), was, off, e, iv, src, done + n)
  {
    CtrNext(e, iv, src, k, done, n);
    hide Ctr, Xor, CounterAt;
    PatchAppend(was, off, Ctr(e, iv, src[..done]), Xor(piece, gamma));
  }

  lemma PatchAppend(whole: seq<byte>, off: nat, p: seq<byte>, q: seq<byte>)
    requires off + |p| + |q| <= |whole|
    ensures Patch(Patch(whole, off, p), off + |p|, q) == Patch(whole, off, p + q)
  {
  }

  lemma PatchBeyond(whole: seq<byte>, off: nat, p: seq<byte>)
    requires off + |p| <= |whole|
    ensures Patch(whole, off, p)[off + |p|..] == whole[off + |p|..]
  {
  }

  /** What a slice shows, told from the contents of its buffer. */
  lemma ViewRest(s: Slice, content: seq<byte>, n: nat)
    requires s.Valid() && content == s.buf[..] && n <= s.len
    ensures View(s)[n..] == content[s.off + n..][..s.len - n]
  {
  }

  /** The first `n` bytes combined with the gamma; the rest of the source keeps its bytes. */
  method XorGamma(dst: Slice, src: Slice, gamma: array<byte>, n: nat)
    requires dst.Valid() && src.Valid() && src.len <= dst.len && Aligned(dst, src)
    requires gamma.Length == 16 && gamma != dst.buf && gamma != src.buf && n == Min(16, src.len)
    modifies dst.buf
    ensures dst.buf[..] == Patch(old(dst.buf[..]), dst.off, Xor(old(View(src)[..n]), gamma[..n]))
    ensures View(src)[n..] == old(View(src)[n..])
  {
    hide Patch, Xor, View;
    ghost var was, wasSrc := dst.buf[..], src.buf[..];
    ghost var x := Xor(View(src)[..n], gamma[..n]);
    ViewTo(src, n);
    ViewAll(gamma);
    ViewTo(All(gamma), n);
    ViewRest(src, wasSrc, n);
    XorBytes(dst.To(n), src.To(n), All(gamma).To(n));
    PatchBeyond(was, dst.off, x);
    ViewRest(src, src.buf[..], n);
  }

  /** One turn of the loop: encrypt the counter, combine, and step the counter. */
  method CtrBlock(block: Cipher, ghost e: Block -> Block, dst: Slice, src: Slice, counter: array<byte>,
                  gamma: array<byte>) returns (n: nat)
    requires block.Valid() && e == block.E()
    requires dst.Valid() && src.Valid() && src.len <= dst.len && Aligned(dst, src)
    requires counter.Length == gamma.Length == 16
    requires counter != gamma && counter != dst.buf && counter != src.buf && gamma != dst.buf && gamma != src.buf
    modifies dst.buf, counter, gamma
    ensures n == Min(16, src.len)
    ensures counter[..] == Increment(old(counter[..]))
    ensures dst.buf[..] ==
            Patch(old(dst.buf[..]), dst.off, Xor(old(View(src)[..n]), e(old(counter[..]))[..n]))
    ensures View(src)[n..] == old(View(src)[n..])
  {
    hide Cipher.Valid, Cipher.E, Cipher.Keys, Increment, Patch, Xor, View, Aligned;
    block.Encrypt(gamma, counter);
    n := 16;
    if src.len < n { n := src.len; }
    XorGamma(dst, src, gamma, n);
    CtrIncrement(counter);
  }

  lemma Pieces(s: seq<byte>, i: nat, n: nat)
    requires i + n <= |s|
    ensures s[i..][..n] == s[i..i + n] && s[i..][n..] == s[i + n..]
  {
  }

  lemma ViewTo(s: Slice, n: nat)
    requires s.Valid() && n <= s.len
    ensures View(s.To(n)) == View(s)[..n] == View(s.To(n))[..n]
  {
  }

  lemma ViewFrom(s: Slice, n: nat)
    requires s.Valid() && n <= s.len
    ensures View(s.From(n)) == View(s)[n..]
  {
  }

  /** The loop of `gostCTR`: dst and src advance together one block at a time, the last possibly short. */
  method CtrLoop(block: Cipher, ghost e: Block -> Block, ghost start: Block,
                 dst0: Slice, src0: Slice, counter: array<byte>, gamma: array<byte>)
    requires block.Valid() && e == block.E()
    requires dst0.Valid() && src0.Valid() && src0.len <= dst0.len && Aligned(dst0, src0)
    requires counter.Length == gamma.Length == 16 && counter[..] == start
    requires counter != gamma && {counter, gamma} !! {dst0.buf, src0.buf}
    modifies dst0.buf, counter, gamma
    ensures Written(dst0.buf[..], old(dst0.buf[..]), dst0.off, e, start, old(View(src0)), src0.len)
  {
    hide Cipher.Valid, Cipher.E, Cipher.Keys, Ctr, Xor, Increment, Patch, Aligned, View, Written;
    ghost var was, input := dst0.buf[..], View(src0);
    var dst, src := dst0, src0;
    ghost var k, done := 0, 0;
    WrittenNone(was, dst0.off, e, start, input);
    assert input[0..] == input;
    while src.len > 0
      invariant done + src.len == |input|
      invariant src == src0.From(done) && dst == dst0.From(done)
      invariant src.len == 0 || done == 16 * k
      invariant counter[..] == CounterAt(start, k)
      invariant Written(dst0.buf[..], was, dst0.off, e, start, input, done)
      invariant View(src) == input[done..]
      decreases src.len
    {
      ghost var m := Min(16, src.len);
      Pieces(input, done, m);
      WrittenNext(dst0.buf[..], was, dst0.off, e, start, input, k, done, m,
                  View(src)[..m], e(counter[..])[..m]);
      AlignedFrom(dst0, src0, done);
      CounterNext(start, k);
      var n := CtrBlock(block, e, dst, src, counter, gamma);
      ViewFrom(src, n);
      dst, src := dst.From(n), src.From(n);
      done, k := done + n, k + 1;
    }
  }

  /** `gostCTR`; the output may overwrite the input. */
  method GostCtr(block: Cipher, ghost e: Block -> Block, dst: Slice, src: Slice, iv: seq<byte>)
    requires block.Valid() && e == block.E()
    requires dst.Valid() && src.Valid() && src.len <= dst.len && Aligned(dst, src)
    modifies dst.buf
    ensures dst.buf[..] == Patch(old(dst.buf[..]), dst.off, Ctr(e, Start(iv), old(View(src))))
  {
    hide Cipher.Valid, Cipher.E, Cipher.Keys, Ctr, Patch, Start, Written;
    ghost var was, input := dst.buf[..], View(src);
    var counter := new byte[16](_ => 0);
    forall i | 0 <= i < Min(16, |iv|) { counter[i] := iv[i]; }
    StartIsCounter(iv, counter[..]);
    var gamma := new byte[16](_ => 0);
    assert dst.buf[..] == was && View(src) == input;
    CtrLoop(block, e, Start(iv), dst, src, counter, gamma);
    WrittenAll(dst.buf[..], was, dst.off, e, Start(iv), input);
  }

  lemma CounterNext(iv: Block, k: nat)
    ensures CounterAt(iv, k + 1) == Increment(CounterAt(iv, k))
  {
  }

  lemma AlignedFrom(dst: Slice, src: Slice, n: nat)
    requires Aligned(dst, src) && n <= dst.len && n <= src.len
    ensures Aligned(dst.From(n), src.From(n))
  {
  }
}
