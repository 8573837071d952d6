/** Byte slices over shared buffers and the in-place helpers of the AEAD. */
module Slices {
  import opened Bytes
  import opened BigEndian
  import opened CtrMode

  /** `len` bytes of `buf` from `off` on; several slices may share a buffer. */
  datatype Slice = Slice(buf: array<byte>, off: nat, len: nat) {

    ghost predicate Valid() { off + len <= buf.Length }

    /** Go's s[n:]. */
    function From(n: nat): (s: Slice)
      requires n <= len
    {
      Slice(buf, off + n, len - n)
    }

    /** Go's s[:n]. */
    function To(n: nat): (s: Slice)
      requires n <= len
    {
      Slice(buf, off, n)
    }
  }

  function All(a: array<byte>): Slice { Slice(a, 0, a.Length) }

  /** The bytes a slice shows. */
  function View(s: Slice): (b: seq<byte>)
    requires s.Valid()
    reads s.buf
    ensures |b| == s.len
  {
    s.buf[s.off..s.off + s.len]
  }

  lemma ViewAll(a: array<byte>)
    ensures View(All(a)) == a[..]
  {
  }

  function Min(a: nat, b: nat): nat { if a < b then a else b }

  /** `whole` with the bytes from `off` on replaced by `part`. */
  function Patch(whole: seq<byte>, off: nat, part: seq<byte>): (r: seq<byte>)
    requires off + |part| <= |whole|
    ensures |r| == |whole|
  {
    whole[..off] + part + whole[off + |part|..]
  }

  /** Go's copy: as many bytes as both slices have, read before any is written. */
  method Copy(dst: Slice, src: Slice) returns (n: nat)
    requires dst.Valid() && src.Valid()
    modifies dst.buf
    ensures n == Min(dst.len, src.len)
    ensures dst.buf[..] == Patch(old(dst.buf[..]), dst.off, old(View(src)[..n]))
  {
    n := Min(dst.len, src.len);
    forall i | 0 <= i < n { dst.buf[dst.off + i] := src.buf[src.off + i]; }
  }

  /** Two slices that are the same memory, or share none: what the in-place callers pass. */
  ghost predicate Aligned(dst: Slice, src: Slice) {
    dst.buf == src.buf ==> dst.off == src.off
  }

  /** The bytes of `s` from `i` on are still those of `x`. */
  ghost predicate Unread(s: Slice, x: seq<byte>, i: nat)
    reads s.buf
  {
    && s.off + |x| <= s.buf.Length
    && forall k | i <= k < |x| :: s.buf[s.off + k] == x[k]
  }

  lemma UnreadView(s: Slice, n: nat)
    requires s.Valid() && n <= s.len
    ensures Unread(s, View(s)[..n], 0)
  {
  }

  /** One byte of `xorBytes`; what is still to be read stays as it was. */
  method XorOne(dst: Slice, a: Slice, b: Slice, i: nat, ghost x: seq<byte>, ghost y: seq<byte>)
    requires Aligned(dst, a) && Aligned(dst, b) && i < |x| == |y|
    requires Unread(a, x, i) && Unread(b, y, i) && dst.off + |x| <= dst.buf.Length
    modifies dst.buf
    ensures dst.buf[..] == old(dst.buf[..])[dst.off + i := XorByte(x[i], y[i])]
    ensures Unread(a, x, i + 1) && Unread(b, y, i + 1)
  {
    hide XorByte;
    dst.buf[dst.off + i] := XorByte(a.buf[a.off + i], b.buf[b.off + i]);
  }

  /** `buf` is `was` with the first `i` bytes of x xor y written from `off` on. */
  ghost predicate Xored(buf: seq<byte>, was: seq<byte>, off: nat, x: seq<byte>, y: seq<byte>, i: nat) {
    i <= |x| == |y| && off + |x| <= |was| && buf == Patch(was, off, Xor(x[..i], y[..i]))
  }

  lemma XoredNone(was: seq<byte>, off: nat, x: seq<byte>, y: seq<byte>)
    requires |x| == |y| && off + |x| <= |was|
    ensures Xored(was, was, off, x, y, 0)
  {
  }

  lemma XoredNext(buf: seq<byte>, was: seq<byte>, off: nat, x: seq<byte>, y: seq<byte>, i: nat)
    requires Xored(buf, was, off, x, y, i) && i < |x|
    ensures off + i < |buf| && Xored(buf[off + i := XorByte(x[i], y[i])], was, off, x, y, i + 1)
  {
    XorNext(x, y, i);
    hide Xor, XorByte;
    PatchNext(was, off, Xor(x[..i], y[..i]), XorByte(x[i], y[i]));
  }

  lemma XoredAll(buf: seq<byte>, was: seq<byte>, off: nat, x: seq<byte>, y: seq<byte>)
    requires Xored(buf, was, off, x, y, |x|)
    ensures buf == Patch(was, off, Xor(x, y))
  {
    assert x[..|x|] == x && y[..|x|] == y;
  }

  /** `xorBytes`: dst = a xor b over the shortest of the three. */
  method XorBytes(dst: Slice, a: Slice, b: Slice)
    requires dst.Valid() && a.Valid() && b.Valid()
    requires Aligned(dst, a) && Aligned(dst, b)
    modifies dst.buf
    ensures var n := Min(dst.len, Min(a.len, b.len));
      dst.buf[..] == Patch(old(dst.buf[..]), dst.off, Xor(old(View(a)[..n]), old(View(b)[..n])))
  {
    hide Xor, Patch, Xored, Aligned, View, Unread;
    ghost var n := Min(dst.len, Min(a.len, b.len));
    ghost var was, x, y := dst.buf[..], View(a)[..n], View(b)[..n];
    XoredNone(was, dst.off, x, y);
    UnreadView(a, n);
    UnreadView(b, n);
    var i := 0;
    while i < dst.len && i < a.len && i < b.len
      invariant 0 <= i <= n
      invariant Xored(dst.buf[..], was, dst.off, x, y, i)
      invariant Unread(a, x, i) && Unread(b, y, i)
    {
      XoredNext(dst.buf[..], was, dst.off, x, y, i);
      XorOne(dst, a, b, i, x, y);
      i := i + 1;
    }
    XoredAll(dst.buf[..], was, dst.off, x, y);
  }

  lemma XorNext(x: seq<byte>, y: seq<byte>, i: nat)
    requires |x| == |y| && i < |x|
    ensures Xor(x[..i + 1], y[..i + 1]) == Xor(x[..i], y[..i]) + [XorByte(x[i], y[i])]
  {
    hide XorByte;
  }

  lemma PatchNext(whole: seq<byte>, off: nat, part: seq<byte>, v: byte)
    requires off + |part| < |whole|
    ensures Patch(whole, off, part + [v]) == Patch(whole, off, part)[off + |part| := v]
  {
  }

  lemma ShiftNext(s: seq<byte>, i: nat, carry: nat)
    requires i < |s| && carry <= 1
    ensures ShiftLeft(s[..i + 1], carry) == ShiftLeft(s[..i], TopBitOf(s[i])) + [Shl(s[i], carry)]
  {
    assert Init(s[..i + 1]) == s[..i] && Last(s[..i + 1]) == s[i];
  }

  /** `d` is `was` with the shifted bytes of `s` from `i` on written; `carry` is the bit to come in before them. */
  ghost predicate Shifted(d: seq<byte>, was: seq<byte>, s: seq<byte>, i: nat, carry: nat) {
    && i <= |s| <= |was| == |d| && carry <= 1
    && d[|s|..] == was[|s|..]
    && ShiftLeft(s, 0) == ShiftLeft(s[..i], carry) + d[i..|s|]
  }

  lemma ShiftedNone(was: seq<byte>, s: seq<byte>)
    requires |s| <= |was|
    ensures Shifted(was, was, s, |s|, 0)
  {
    assert s[..|s|] == s && was[|s|..|s|] == [];
  }

  lemma ShiftedNext(d: seq<byte>, was: seq<byte>, s: seq<byte>, i: nat, carry: nat)
    requires Shifted(d, was, s, i + 1, carry)
    ensures Shifted(d[i := Shl(s[i], carry)], was, s, i, TopBitOf(s[i]))
  {
    ShiftNext(s, i, carry);
    hide ShiftLeft;
    var e := d[i := Shl(s[i], carry)];
    assert e[i..|s|] == [e[i]] + d[i + 1..|s|];
    assert e[|s|..] == d[|s|..];
  }

  lemma ShiftedAll(d: seq<byte>, was: seq<byte>, s: seq<byte>, carry: nat)
    requires Shifted(d, was, s, 0, carry)
    ensures |s| <= |was| && d == ShiftLeft(s, 0) + was[|s|..]
  {
    hide ShiftLeft;
    Joined(ShiftLeft(s[..0], carry), d, |s|);
  }

  lemma Joined(none: seq<byte>, d: seq<byte>, n: nat)
    requires |none| == 0 && n <= |d|
    ensures none + d[0..n] + d[n..] == d
  {
  }

  /** `shiftLeftOne`: the bits pushed out of each byte enter the byte before it; a longer dst keeps its end. */
  method ShiftLeftOne(dst: array<byte>, src: array<byte>)
    requires src.Length <= dst.Length
    modifies dst
    ensures dst[..] == ShiftLeft(old(src[..]), 0) + old(dst[src.Length..])
  {
    hide ShiftLeft, Shifted;
    ghost var s, was := src[..], dst[..];
    var overflow := 0;
    var i := src.Length;
    ShiftedNone(was, s);
    while i > 0
      invariant 0 <= i <= src.Length && 0 <= overflow <= 1
      invariant forall k | 0 <= k < i :: src[k] == s[k]
      invariant Shifted(dst[..], was, s, i, overflow)
    {
      i := i - 1;
      ShiftedNext(dst[..], was, s, i, overflow);
      var newOverflow := TopBitOf(src[i]);
      dst[i] := Shl(src[i], overflow);
      overflow := newOverflow;
    }
    ShiftedAll(dst[..], was, s, overflow);
  }

  lemma IncrementNext(c: Block, i: nat)
    requires 8 <= i <= 15
    ensures Successor(c[8..i + 1]) ==
            if c[i] == 255 then Successor(c[8..i]) + [0] else c[8..i] + [Inc(c[i])]
  {
    assert Init(c[8..i + 1]) == c[8..i] && Last(c[8..i + 1]) == c[i];
  }

  /** `t` is `c` with the carry gone through the bytes after `i`. */
  ghost predicate Carried(t: seq<byte>, c: Block, i: int) {
    && 7 <= i <= 15 && |t| == 16
    && t[..i + 1] == c[..i + 1]
    && Successor(c[8..]) == Successor(c[8..i + 1]) + t[i + 1..]
  }

  lemma CarryFirst(c: Block)
    ensures Carried(c, c, 15)
  {
    assert c[8..16] == c[8..];
  }

  lemma CarryOn(t: seq<byte>, c: Block, i: nat)
    requires Carried(t, c, i) && i >= 8 && c[i] == 255
    ensures Carried(t[i := 0], c, i - 1)
  {
    IncrementNext(c, i);
    hide Successor;
    assert t[i := 0][i..] == [0] + t[i + 1..];
    assert t[i := 0][..i] == t[..i + 1][..i] == c[..i + 1][..i] == c[..i];
  }

  lemma CarryStops(t: seq<byte>, c: Block, i: nat)
    requires Carried(t, c, i) && i >= 8 && c[i] != 255
    ensures t[i := c[i] + 1] == Increment(c)
  {
    hide Successor;
    IncrementNext(c, i);
    var u := t[i := c[i] + 1];
    SamePrefix(t, c, i);
    Cut(u, i);
    assert u[..8] == c[..8] && u[8..i] == c[8..i] && u[i + 1..] == t[i + 1..];
  }

  lemma SamePrefix(t: seq<byte>, c: seq<byte>, i: nat)
    requires i < |t| == |c| && t[..i + 1] == c[..i + 1]
    ensures forall k | 0 <= k < i :: t[k] == c[k]
  {
    forall k | 0 <= k < i ensures t[k] == c[k] {
      assert t[k] == t[..i + 1][k] && c[k] == c[..i + 1][k];
    }
  }

  lemma Cut(u: seq<byte>, i: nat)
    requires 8 <= i < |u|
    ensures u == u[..8] + (u[8..i] + [u[i]] + u[i + 1..])
  {
  }

  lemma CarryLost(t: seq<byte>, c: Block)
    requires Carried(t, c, 7)
    ensures t == Increment(c)
  {
    assert c[8..8] == [];
    assert t == t[..8] + t[8..];
  }

  /** `gostCTRIncrement`: adds one to bytes 8 to 15, stopping where the carry stops. */
  method CtrIncrement(counter: array<byte>)
    requires counter.Length == 16
    modifies counter
    ensures counter[..] == Increment(old(counter[..]))
  {
    ghost var c := counter[..];
    CarryFirst(c);
    hide Successor, Increment, Carried;
    var i := 15;
    while i >= 8
      invariant 7 <= i <= 15
      invariant Carried(counter[..], c, i)
    {
      ghost var t := counter[..];
      CarriedAt(t, c, i);
      counter[i] := Inc(counter[i]);
      if counter[i] != 0 {
        CarryStops(t, c, i);
        return;
      }
      CarryOn(t, c, i);
      i := i - 1;
    }
    CarryLost(counter[..], c);
  }

  lemma CarriedAt(t: seq<byte>, c: Block, i: nat)
    requires Carried(t, c, i)
    ensures |t| == 16 && t[i] == c[i]
  {
    assert t[i] == t[..i + 1][i] && c[i] == c[..i + 1][i];
  }
}
