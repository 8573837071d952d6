/** `gostCMAC`: the tag of a list of slices, read through a moving cursor. */
module GostMac {
  import opened Binary
  import opened Bytes
  import opened BigEndian
  import opened Doubling
  import opened Subkeys
  import opened Cmac
  import opened Slices
  import opened KuznyechikCipher

  /** The bytes of all parts, one after the other. */
  function Flatten(v: seq<seq<byte>>): seq<byte> {
    if v == [] then [] else v[0] + Flatten(v[1..])
  }

  ghost predicate CursorValid(v: seq<seq<byte>>, idx: nat, off: nat) {
    idx <= |v| && (idx < |v| ==> off <= |v[idx]|)
  }

  /** What a cursor at byte `off` of part `idx` has still to read. */
  function Rest(v: seq<seq<byte>>, idx: nat, off: nat): seq<byte>
    requires CursorValid(v, idx, off)
  {
    if idx == |v| then [] else v[idx][off..] + Flatten(v[idx + 1..])
  }

  lemma RestStart(v: seq<seq<byte>>)
    ensures Rest(v, 0, 0) == Flatten(v)
  {
    if v != [] { assert v[0][0..] == v[0]; }
  }

  /** Finishing a part: the cursor moves to the next one, however many are empty. */
  lemma RestNextPart(v: seq<seq<byte>>, idx: nat, off: nat)
    requires idx < |v| && CursorValid(v, idx, off)
    ensures |v[idx]| - off <= |Rest(v, idx, off)|
    ensures Rest(v, idx, off)[|v[idx]| - off..] == Rest(v, idx + 1, 0)
    ensures Rest(v, idx, off)[..|v[idx]| - off] == v[idx][off..]
  {
    if idx + 1 < |v| {
      assert v[idx + 1..][0] == v[idx + 1] && v[idx + 1..][1..] == v[idx + 2..];
      assert v[idx + 1][0..] == v[idx + 1];
    } else {
      assert v[idx + 1..] == [];
    }
  }

  lemma RestWithinPart(v: seq<seq<byte>>, idx: nat, off: nat, n: nat)
    requires idx < |v| && off + n <= |v[idx]|
    ensures n <= |Rest(v, idx, off)|
    ensures Rest(v, idx, off)[n..] == Rest(v, idx, off + n)
    ensures Rest(v, idx, off)[..n] == v[idx][off..off + n]
  {
    var rest := Flatten(v[idx + 1..]);
    hide Flatten;
    assert v[idx][off..][n..] == v[idx][off + n..];
    assert v[idx][off..][..n] == v[idx][off..off + n];
    assert (v[idx][off..] + rest)[n..] == v[idx][off..][n..] + rest;
  }

  /** `v` shows the parts, none of which lives in `buf`. */
  ghost predicate Shows(parts: seq<Slice>, v: seq<seq<byte>>)
    reads set p | p in parts :: p.buf
  {
    && |parts| == |v|
    && forall i | 0 <= i < |parts| :: parts[i].Valid() && View(parts[i]) == v[i]
  }

  ghost predicate Apart(parts: seq<Slice>, buf: array<byte>) {
    forall i | 0 <= i < |parts| :: parts[i].buf != buf
  }

  /** `buf` is `was` with the first `n` bytes of the stream `r` at its front. */
  ghost predicate Filled(buf: seq<byte>, was: seq<byte>, r: seq<byte>, n: nat) {
    n <= |r| && n <= |was| == |buf| && buf == Patch(was, 0, r[..n])
  }

  lemma FilledMore(buf: seq<byte>, was: seq<byte>, r: seq<byte>, n: nat, piece: seq<byte>)
    requires Filled(buf, was, r, n) && n + |piece| <= |r| && n + |piece| <= |buf|
    requires piece == r[n..][..|piece|]
    ensures Filled(Patch(buf, n, piece), was, r, n + |piece|)
  {
    assert r[..n + |piece|] == r[..n] + piece;
  }

  lemma ViewPart(s: Slice, off: nat, m: nat)
    requires s.Valid() && off + m <= s.len
    ensures View(s.From(off).To(m)) == View(s.From(off).To(m))[..m] == View(s)[off..off + m]
  {
    var part, whole := View(s.From(off).To(m)), View(s);
    assert part == s.buf[s.off + off..s.off + off + m];
    forall i | 0 <= i < m ensures part[i] == whole[off + i] {
      assert part[i] == s.buf[s.off + off + i];
    }
  }

  /** One copy into the block: `m` bytes of the current part. */
  method FillPiece(buf: array<byte>, n: nat, part: Slice, off: nat, m: nat)
    requires part.Valid() && off + m <= part.len && n + m <= buf.Length && part.buf != buf
    modifies buf
    ensures buf[..] == Patch(old(buf[..]), n, old(View(part)[off..off + m]))
  {
    var dst, src := All(buf).From(n), part.From(off).To(m);
    ghost var was, piece := buf[..], View(part)[off..off + m];
    ViewPart(part, off, m);
    assert dst.buf == buf && dst.off == n && View(src)[..m] == piece;
    hide Patch, View;
    var k := Copy(dst, src);
    assert k == m;
    assert buf[..] == Patch(was, n, piece);
  }

  /** `fillBlockPartial`: up to `remaining` bytes of the stream, the cursor left behind them. */
  method FillBlockPartial(buf: array<byte>, parts: seq<Slice>, partIdx0: nat, partOff0: nat, remaining: nat,
                          ghost v: seq<seq<byte>>) returns (partIdx: nat, partOff: nat)
    requires Shows(parts, v) && Apart(parts, buf) && CursorValid(v, partIdx0, partOff0)
    requires remaining <= buf.Length
    modifies buf
    ensures Shows(parts, v) && CursorValid(v, partIdx, partOff)
    ensures var r := Rest(v, partIdx0, partOff0);
      var n := Min(remaining, |r|);
      Filled(buf[..], old(buf[..]), r, n) && Rest(v, partIdx, partOff) == r[n..]
  {
    hide Rest, Filled, Patch;
    partIdx, partOff := partIdx0, partOff0;
    ghost var r, was := Rest(v, partIdx0, partOff0), buf[..];
    var n := 0;
    FilledNone(was, r);
    while n < remaining && partIdx < |parts|
      invariant Shows(parts, v) && CursorValid(v, partIdx, partOff)
      invariant 0 <= n <= remaining
      invariant n <= |r| && Rest(v, partIdx, partOff) == r[n..]
      invariant Filled(buf[..], was, r, n)
      decreases |parts| - partIdx, remaining - n
    {
      var avail := parts[partIdx].len - partOff;
      var need := remaining - n;
      if avail <= need {
        RestNextPart(v, partIdx, partOff);
        assert v[partIdx][partOff..] == v[partIdx][partOff..partOff + avail];
        FilledMore(buf[..], was, r, n, v[partIdx][partOff..partOff + avail]);
        FillPiece(buf, n, parts[partIdx], partOff, avail);
        n := n + avail;
        partIdx := partIdx + 1;
        partOff := 0;
      } else {
        RestWithinPart(v, partIdx, partOff, need);
        FilledMore(buf[..], was, r, n, v[partIdx][partOff..partOff + need]);
        FillPiece(buf, n, parts[partIdx], partOff, need);
        n := n + need;
        partOff := partOff + need;
      }
    }
    RestEnd(v, partIdx, partOff);
  }

  lemma FilledNone(was: seq<byte>, r: seq<byte>)
    ensures Filled(was, was, r, 0)
  {
  }

  lemma RestEnd(v: seq<seq<byte>>, idx: nat, off: nat)
    requires CursorValid(v, idx, off)
    ensures idx == |v| ==> Rest(v, idx, off) == []
  {
  }

  /** `fillBlock`: the same with a whole block asked for; near the end of the stream it fills less. */
  method FillBlock(buf: array<byte>, parts: seq<Slice>, partIdx0: nat, partOff0: nat, ghost v: seq<seq<byte>>)
    returns (partIdx: nat, partOff: nat)
    requires Shows(parts, v) && Apart(parts, buf) && CursorValid(v, partIdx0, partOff0)
    requires buf.Length == 16
    modifies buf
    ensures Shows(parts, v) && CursorValid(v, partIdx, partOff)
    ensures var r := Rest(v, partIdx0, partOff0);
      var n := Min(16, |r|);
      Filled(buf[..], old(buf[..]), r, n) && Rest(v, partIdx, partOff) == r[n..]
  {
    hide Rest, Shows, Apart, Filled;
    partIdx, partOff := FillBlockPartial(buf, parts, partIdx0, partOff0, 16, v);
  }

  lemma FilledWhole(buf: seq<byte>, was: seq<byte>, r: seq<byte>)
    requires Filled(buf, was, r, 16) && |buf| == 16
    ensures |r| >= 16 && buf == r[..16]
  {
  }

  /** `x = x xor y` on two blocks. */
  method XorInto(x: array<byte>, y: array<byte>)
    requires x.Length == y.Length == 16 && x != y
    modifies x
    ensures x[..] == Xor(old(x[..]), old(y[..]))
  {
    hide Xor;
    ghost var a, b := x[..], y[..];
    XorBytes(All(x), All(x), All(y));
    WholePatch(a, Xor(a, b));
    assert View(All(x))[..16] == x[..];
    assert a[..16] == a && b[..16] == b;
  }

  lemma WholePatch(whole: seq<byte>, part: seq<byte>)
    requires |part| == |whole|
    ensures Patch(whole, 0, part) == part
  {
  }

  /** Doubling a block in place of a fresh one: a shift, and the low polynomial when a bit is lost. */
  method DoubleInto(dst: array<byte>, src: array<byte>)
    requires dst.Length == src.Length == 16 && dst != src
    modifies dst
    ensures dst[..] == Double(src[..])
  {
    hide Xor, ShiftLeft;
    ShiftLeftOne(dst, src);
    assert dst[..] == ShiftLeft(src[..], 0);
    if src[0] >= 0x80 {
      var rb := new byte[16](i => if i == 15 then 0x87 else 0);
      assert rb[..] == RB;
      XorInto(dst, rb);
    }
  }

  /** `cmacGenerateSubkeys`. */
  method GenerateSubkeys(block: Cipher, ghost e: Block -> Block) returns (k1: array<byte>, k2: array<byte>)
    requires block.Valid() && e == block.E()
    ensures fresh(k1) && fresh(k2) && k1 != k2 && k1.Length == k2.Length == 16
    ensures k1[..] == K1(e) && k2[..] == K2(e)
    ensures var l := Value(e(ZERO));
      && l < Pow2(128) && 0x87 < Pow2(128)
      && Value(k1[..]) == TimesX(l, 128, 0x87)
      && Value(k2[..]) == TimesX(TimesX(l, 128, 0x87), 128, 0x87)
  {
    hide Cipher.Valid, Cipher.E, Cipher.Keys, Double, Value, TimesX, Pow2;
    SubkeyValues(e);
    var l := new byte[16](_ => 0);
    var zero := new byte[16](_ => 0);
    assert zero[..] == ZERO;
    block.Encrypt(l, zero);
    k1 := new byte[16](_ => 0);
    DoubleInto(k1, l);
    k2 := new byte[16](_ => 0);
    DoubleInto(k2, k1);
  }

  lemma {:induction false} FlattenPrefix(v: seq<seq<byte>>, i: nat)
    requires i < |v|
    ensures Flatten(v[..i + 1]) == Flatten(v[..i]) + v[i]
  {
    if i == 0 {
      assert v[..1] == [v[0]] && v[..0] == [];
      assert Flatten([v[0]]) == v[0] + Flatten([]);
    } else {
      assert v[..i + 1][0] == v[0] && v[..i + 1][1..] == v[1..][..i];
      assert v[..i][0] == v[0] && v[..i][1..] == v[1..][..i - 1];
      FlattenPrefix(v[1..], i - 1);
    }
  }

  /** The summed length of the parts. */
  method TotalLength(parts: seq<Slice>, ghost v: seq<seq<byte>>) returns (totalLen: nat)
    requires Shows(parts, v)
    ensures totalLen == |Flatten(v)|
  {
    hide Flatten;
    totalLen := 0;
    var i := 0;
    FlattenNone();
    assert v[..0] == [];
    while i < |parts|
      invariant 0 <= i <= |parts|
      invariant totalLen == |Flatten(v[..i])|
    {
      FlattenPrefix(v, i);
      totalLen := totalLen + parts[i].len;
      i := i + 1;
    }
    assert v[..i] == v;
  }

  lemma FlattenNone()
    ensures Flatten([]) == []
  {
  }

  /** One chaining step on the state `x`. */
  method MacRound(block: Cipher, ghost e: Block -> Block, x: array<byte>, buf: array<byte>)
    requires block.Valid() && e == block.E()
    requires x.Length == buf.Length == 16 && x != buf
    modifies x
    ensures x[..] == e(Xor(old(x[..]), buf[..]))
  {
    hide Cipher.Valid, Cipher.E, Cipher.Keys, Xor;
    XorInto(x, buf);
    block.Encrypt(x, x);
  }

  /** The blocks before the last one. */
  lemma InnerBlock(e: Block -> Block, msg: seq<byte>, i: nat, c: Block, m: Block)
    requires i + 1 < NumBlocks(|msg|)
    requires c == Chain(e, msg, i) && m == msg[16 * i..][..16]
    ensures e(Xor(c, m)) == Chain(e, msg, i + 1)
  {
    assert MacBlock(e, msg, i) == m;
  }

  lemma LastSegment(msg: seq<byte>, i: nat)
    requires i + 1 == NumBlocks(|msg|)
    ensures 16 * i <= |msg| && Segment(msg, i) == msg[16 * i..] && |Segment(msg, i)| <= 16
  {
  }

  /** The last block: masked with K1 when it is whole, else padded and masked with K2. */
  lemma LastBlock(e: Block -> Block, msg: seq<byte>, i: nat, c: Block, s: seq<byte>, m: Block, mask: Block)
    requires i + 1 == NumBlocks(|msg|) && c == Chain(e, msg, i)
    requires s == Segment(msg, i)
    requires if |s| == 16 then m == s && mask == K1(e) else m == Pad(s) && mask == K2(e)
    ensures e(Xor(Xor(c, m), mask)) == Tag(e, msg)
  {
    hide Xor, Pad, Double, K1, K2, Segment, NumBlocks;
    assert MacBlock(e, msg, i) == Xor(m, mask);
    XorAssoc(c, m, mask);
  }

  /** The blocks before the last, each read through the cursor and chained. */
  method MacPrefix(block: Cipher, ghost e: Block -> Block, parts: seq<Slice>, ghost v: seq<seq<byte>>,
                   x: array<byte>, numBlocks: nat) returns (blockIdx: nat, partIdx: nat, partOff: nat)
    requires block.Valid() && e == block.E()
    requires Shows(parts, v) && Apart(parts, x) && numBlocks == NumBlocks(|Flatten(v)|)
    requires x.Length == 16 && x[..] == ZERO
    modifies x
    ensures Shows(parts, v) && CursorValid(v, partIdx, partOff)
    ensures blockIdx + 1 == numBlocks && 16 * blockIdx <= |Flatten(v)|
    ensures x[..] == Chain(e, Flatten(v), blockIdx)
    ensures Rest(v, partIdx, partOff) == Flatten(v)[16 * blockIdx..]
  {
    hide Cipher.Valid, Cipher.E, Cipher.Keys, Rest, Flatten, Xor, Chain, Filled;
    ghost var msg := Flatten(v);
    var buf := new byte[16](_ => 0);
    blockIdx, partIdx, partOff := 0, 0, 0;
    RestStart(v);
    ChainStart(e, msg);
    assert msg[0..] == msg;
    while blockIdx < numBlocks - 1
      invariant blockIdx < numBlocks && 16 * blockIdx <= |msg|
      invariant Shows(parts, v) && CursorValid(v, partIdx, partOff)
      invariant x[..] == Chain(e, msg, blockIdx)
      invariant Rest(v, partIdx, partOff) == msg[16 * blockIdx..]
    {
      assert 16 * blockIdx + 16 <= |msg|;
      InnerBlock(e, msg, blockIdx, x[..], msg[16 * blockIdx..][..16]);
      assert msg[16 * blockIdx..][16..] == msg[16 * (blockIdx + 1)..];
      ghost var was := buf[..];
      partIdx, partOff := FillBlock(buf, parts, partIdx, partOff, v);
      FilledWhole(buf[..], was, msg[16 * blockIdx..]);
      MacRound(block, e, x, buf);
      blockIdx := blockIdx + 1;
    }
  }

  lemma ChainStart(e: Block -> Block, msg: seq<byte>)
    ensures Chain(e, msg, 0) == ZERO
  {
  }

  /** The bytes after the last full block that was chained, zero-filled. */
  method ReadLast(parts: seq<Slice>, ghost v: seq<seq<byte>>, partIdx: nat, partOff: nat, remaining: nat)
    returns (lastBlock: array<byte>)
    requires Shows(parts, v) && CursorValid(v, partIdx, partOff)
    requires remaining == |Rest(v, partIdx, partOff)| <= 16
    ensures Shows(parts, v)
    ensures fresh(lastBlock) && lastBlock[..] == Rest(v, partIdx, partOff) + Zeros(16 - remaining)
  {
    hide Rest;
    lastBlock := new byte[16](_ => 0);
    ghost var r := Rest(v, partIdx, partOff);
    assert lastBlock[..] == Zeros(16);
    if remaining > 0 {
      var idx, off := FillBlockPartial(lastBlock, parts, partIdx, partOff, remaining, v);
      assert r[..remaining] == r;
    }
    assert lastBlock[..] == r + Zeros(16 - remaining);
  }

  /** A short last block gets its marker bit. */
  method Mark(lastBlock: array<byte>, ghost s: seq<byte>, remaining: nat)
    requires |s| == remaining < 16 && lastBlock.Length == 16 && lastBlock[..] == s + Zeros(16 - remaining)
    modifies lastBlock
    ensures lastBlock[..] == Pad(s)
  {
    lastBlock[remaining] := 0x80;
    assert lastBlock[..] == Pad(s);
  }

  /** `x` plus the last block plus the subkey. */
  method MaskInto(x: array<byte>, lastBlock: array<byte>, k: array<byte>)
    requires x.Length == lastBlock.Length == k.Length == 16 && x != lastBlock && x != k
    modifies x
    ensures x[..] == Xor(Xor(old(x[..]), lastBlock[..]), k[..])
  {
    hide Xor;
    XorInto(x, lastBlock);
    XorInto(x, k);
  }

  /** The last block, masked and encrypted. */
  method MacLast(block: Cipher, ghost e: Block -> Block, parts: seq<Slice>, ghost v: seq<seq<byte>>,
                 x: array<byte>, totalLen: nat, blockIdx: nat, partIdx: nat, partOff: nat)
    requires block.Valid() && e == block.E()
    requires Shows(parts, v) && Apart(parts, x) && CursorValid(v, partIdx, partOff)
    requires totalLen == |Flatten(v)| && blockIdx + 1 == NumBlocks(totalLen) && 16 * blockIdx <= totalLen
    requires x.Length == 16 && x[..] == Chain(e, Flatten(v), blockIdx)
    requires Rest(v, partIdx, partOff) == Flatten(v)[16 * blockIdx..]
    modifies x
    ensures x[..] == Tag(e, Flatten(v))
  {
    hide Cipher.Valid, Cipher.E, Cipher.Keys, Rest, Flatten, Xor, Chain, Tag, K1, K2, Pad, Value, TimesX, Pow2;
    ghost var msg, c := Flatten(v), x[..];
    ghost var s := Segment(msg, blockIdx);
    LastSegment(msg, blockIdx);
    var k1, k2 := GenerateSubkeys(block, e);
    var remaining := totalLen - 16 * blockIdx;
    var lastBlock := ReadLast(parts, v, partIdx, partOff, remaining);
    if totalLen > 0 && totalLen % 16 == 0 {
      assert lastBlock[..] == s;
      LastBlock(e, msg, blockIdx, c, s, s, K1(e));
      MaskInto(x, lastBlock, k1);
    } else {
      if remaining < 16 { Mark(lastBlock, s, remaining); }
      LastBlock(e, msg, blockIdx, c, s, Pad(s), K2(e));
      MaskInto(x, lastBlock, k2);
    }
    block.Encrypt(x, x);
  }

  /** `gostCMAC`: the CMAC of the concatenation of the parts, however it is cut up. */
  method GostCmac(block: Cipher, ghost e: Block -> Block, parts: seq<Slice>, ghost v: seq<seq<byte>>)
    returns (result: array<byte>)
    requires block.Valid() && e == block.E() && Shows(parts, v)
    ensures fresh(result) && result.Length == 16
    ensures result[..] == Tag(e, Flatten(v))
  {
    hide Cipher.Valid, Cipher.E, Cipher.Keys, Rest, Flatten, Chain, Tag;
    var totalLen := TotalLength(parts, v);
    var numBlocks := (totalLen + 15) / 16;
    if numBlocks == 0 { numBlocks := 1; }
    var x := new byte[16](_ => 0);
    assert x[..] == ZERO;
    var blockIdx, partIdx, partOff := MacPrefix(block, e, parts, v, x, numBlocks);
    MacLast(block, e, parts, v, x, totalLen, blockIdx, partIdx, partOff);
    result := new byte[16](i requires 0 <= i < 16 reads x => x[i]);
    assert result[..] == x[..];
  }
}
