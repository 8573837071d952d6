/** The sealed format version || iv || ciphertext || tag, over any two block ciphers. */
module AeadSpec {
  import opened Bytes
  import opened CtrMode
  import opened Cmac

  const VERSION: byte := 0x01
  const OVERHEAD: nat := 33

  datatype Error = InvalidKeySize | InvalidCiphertext | UnsupportedVersion(got: byte) | AuthFailed | RandomFailed

  datatype Result<T> = Ok(value: T) | Err(error: Error)

  /** What `Encrypt` returns for the initialisation vector it drew. */
  function Seal(e: Block -> Block, m: Block -> Block, iv: Block, p: seq<byte>): seq<byte> {
    var ct := Ctr(e, iv, p);
    [VERSION] + iv + ct + Tag(m, iv + ct)
  }

  /** What `Decrypt` returns, the checks in its order. */
  function Open(e: Block -> Block, m: Block -> Block, data: seq<byte>): Result<seq<byte>> {
    if |data| < OVERHEAD then Err(InvalidCiphertext)
    else if data[0] != VERSION then Err(UnsupportedVersion(data[0]))
    else
      var iv, ct, tag := data[1..17], data[17..|data| - 16], data[|data| - 16..];
      if tag != Tag(m, iv + ct) then Err(AuthFailed) else Ok(Ctr(e, iv, ct))
  }

  lemma SealParts(e: Block -> Block, m: Block -> Block, iv: Block, p: seq<byte>)
    ensures var s := Seal(e, m, iv, p);
      && |s| == |p| + 33 && s[0] == 0x01 && s[1..17] == iv
      && s[17..|s| - 16] == Ctr(e, iv, p)
      && s[|s| - 16..] == Tag(m, iv + Ctr(e, iv, p))
  {
    hide Ctr, Tag;
  }

  /** Decryption inverts encryption for every plaintext and every initialisation vector. */
  lemma OpenSeal(e: Block -> Block, m: Block -> Block, iv: Block, p: seq<byte>)
    ensures |Seal(e, m, iv, p)| == |p| + 33
    ensures Open(e, m, Seal(e, m, iv, p)) == Ok(p)
  {
    hide Seal, Ctr, Tag;
    SealParts(e, m, iv, p);
    CtrInvolution(e, iv, p);
  }

  /** The canonical encodings, and nothing else, are accepted. */
  lemma OpenAcceptsExactlySealed(e: Block -> Block, m: Block -> Block, data: seq<byte>, p: seq<byte>)
    ensures Open(e, m, data) == Ok(p) <==>
            |data| >= 33 && data == Seal(e, m, data[1..17], p)
  {
    hide Seal, Ctr, Tag;
    if |data| >= OVERHEAD {
      var iv, ct := data[1..17], data[17..|data| - 16];
      if data == Seal(e, m, iv, p) {
        OpenSeal(e, m, iv, p);
      }
      if Open(e, m, data) == Ok(p) {
        CtrInvolution(e, iv, ct);
        Reassemble(e, m, data, p);
      }
    }
  }

  lemma Reassemble(e: Block -> Block, m: Block -> Block, data: seq<byte>, p: seq<byte>)
    requires |data| >= OVERHEAD && data[0] == VERSION
    requires data[17..|data| - 16] == Ctr(e, data[1..17], p)
    requires data[|data| - 16..] == Tag(m, data[1..17] + Ctr(e, data[1..17], p))
    ensures data == Seal(e, m, data[1..17], p)
  {
    hide Ctr, Tag;
  }

  /** Rejections: the length, then the version, then the tag; and a sealed message for no plaintext. */
  lemma OpenErrors(e: Block -> Block, m: Block -> Block, data: seq<byte>)
    ensures Open(e, m, data) == Err(InvalidCiphertext) <==> |data| < 33
    ensures |data| >= 33 ==>
      forall v :: Open(e, m, data) == Err(UnsupportedVersion(v)) <==> data[0] == v && v != 0x01
    ensures Open(e, m, data) == Err(AuthFailed) <==>
      |data| >= 33 && data[0] == 0x01 && forall p :: data != Seal(e, m, data[1..17], p)
  {
    hide Seal, Ctr, Tag;
    forall p: seq<byte>
      ensures Open(e, m, data) == Ok(p) <==> |data| >= OVERHEAD && data == Seal(e, m, data[1..17], p)
    {
      OpenAcceptsExactlySealed(e, m, data, p);
    }
    if |data| >= OVERHEAD && data[0] == VERSION && Open(e, m, data) != Err(AuthFailed) {
      var p := Ctr(e, data[1..17], data[17..|data| - 16]);
      assert Open(e, m, data) == Ok(p);
    }
  }

  /** Equal ciphertexts come from equal vectors and equal plaintexts. */
  lemma SealInjective(e: Block -> Block, m: Block -> Block, iv: Block, p: seq<byte>, iv': Block, p': seq<byte>)
    requires Seal(e, m, iv, p) == Seal(e, m, iv', p')
    ensures iv == iv' && p == p'
  {
    hide Seal, Ctr, Tag, Open;
    SealParts(e, m, iv, p);
    SealParts(e, m, iv', p');
    OpenSeal(e, m, iv, p);
    OpenSeal(e, m, iv', p');
  }

  /** The authenticated part of a message: everything between the version byte and the tag. */
  function Body(data: seq<byte>): seq<byte>
    requires |data| >= OVERHEAD
  {
    data[1..|data| - 16]
  }

  /** Changing one aligned block of iv || ciphertext, and nothing else, is always detected. */
  lemma TamperedBlockRejected(e: Block -> Block, m: Block -> Block, mInv: Block -> Block,
                              iv: Block, p: seq<byte>, data: seq<byte>, i: nat)
    requires Undoes(mInv, m)
    requires |data| == |Seal(e, m, iv, p)|
    requires data[0] == VERSION && data[|data| - 16..] == Seal(e, m, iv, p)[|data| - 16..]
    requires |data| >= OVERHEAD && AgreeOutside(Seal(e, m, iv, p)[1..|data| - 16], Body(data), i)
    requires data != Seal(e, m, iv, p)
    ensures Open(e, m, data) == Err(AuthFailed)
  {
    hide Seal, Ctr, Tag, AgreeOutside;
    var s := Seal(e, m, iv, p);
    SealParts(e, m, iv, p);
    assert Body(data) == data[1..17] + data[17..|data| - 16];
    assert Body(s) == iv + Ctr(e, iv, p);
    assert data == [data[0]] + Body(data) + data[|data| - 16..];
    assert s == [s[0]] + Body(s) + s[|data| - 16..];
    TagDetectsBlockChange(m, mInv, Body(s), Body(data), i);
  }

  /** Changing the tag alone is always detected. */
  lemma TamperedTagRejected(e: Block -> Block, m: Block -> Block, iv: Block, p: seq<byte>, tag: Block)
    requires tag != Tag(m, iv + Ctr(e, iv, p))
    ensures Open(e, m, [VERSION] + iv + Ctr(e, iv, p) + tag) == Err(AuthFailed)
  {
    hide Ctr, Tag;
    var data := [VERSION] + iv + Ctr(e, iv, p) + tag;
    assert data[1..17] == iv && data[17..|data| - 16] == Ctr(e, iv, p) && data[|data| - 16..] == tag;
  }

  /**
   * A message whose authenticated part ends in a short block: changing that block, its length included, within the
   * block is always detected.
   */
  lemma ShortEndRejected(e: Block -> Block, m: Block -> Block, mInv: Block -> Block, iv: Block, p: seq<byte>, data: seq<byte>)
    requires Undoes(mInv, m)
    requires |Seal(e, m, iv, p)| >= 33 && |data| >= 33 && data != Seal(e, m, iv, p)
    requires data[0] == 0x01 && data[|data| - 16..] == Tag(m, iv + Ctr(e, iv, p))
    requires var a, b := Body(Seal(e, m, iv, p)), Body(data);
      NumBlocks(|a|) == NumBlocks(|b|) && Front(a) == Front(b) && EndsShort(a) && EndsShort(b)
    ensures Open(e, m, data) == Err(AuthFailed)
  {
    hide Seal, Ctr, Tag, Front, EndsShort, NumBlocks;
    var s := Seal(e, m, iv, p);
    SealParts(e, m, iv, p);
    assert Body(data) == data[1..17] + data[17..|data| - 16];
    assert Body(s) == iv + Ctr(e, iv, p);
    assert data == [data[0]] + Body(data) + data[|data| - 16..];
    assert s == [s[0]] + Body(s) + s[|s| - 16..];
    ShortEndsDiffer(m, mInv, Body(s), Body(data));
  }

  lemma FrameBody(iv: Block, ct: seq<byte>, tag: Block)
    ensures var data := [0x01] + iv + ct + tag;
      |data| >= 33 && data[0] == 0x01 && data[|data| - 16..] == tag && Body(data) == iv + ct
  {
  }

  lemma SealFrame(e: Block -> Block, m: Block -> Block, iv: Block, p: seq<byte>)
    ensures Seal(e, m, iv, p) == [0x01] + iv + Ctr(e, iv, p) + Tag(m, iv + Ctr(e, iv, p))
  {
    hide Ctr, Tag;
  }

  /** Another ciphertext in its place, different only within the short last block. */
  lemma OtherEndRejected(e: Block -> Block, m: Block -> Block, mInv: Block -> Block, iv: Block, p: seq<byte>, ct: seq<byte>)
    requires Undoes(mInv, m) && ct != Ctr(e, iv, p)
    requires var a, b := iv + Ctr(e, iv, p), iv + ct;
      NumBlocks(|a|) == NumBlocks(|b|) && Front(a) == Front(b) && EndsShort(a) && EndsShort(b)
    ensures Open(e, m, [0x01] + iv + ct + Tag(m, iv + Ctr(e, iv, p))) == Err(AuthFailed)
  {
    hide Seal, Ctr, Tag, Front, EndsShort, NumBlocks, Open, Body;
    var tag := Tag(m, iv + Ctr(e, iv, p));
    SealFrame(e, m, iv, p);
    FrameBody(iv, Ctr(e, iv, p), tag);
    FrameBody(iv, ct, tag);
    assert (iv + ct)[16..] == ct && (iv + Ctr(e, iv, p))[16..] == Ctr(e, iv, p);
    ShortEndRejected(e, m, mInv, iv, p, [0x01] + iv + ct + tag);
  }

  lemma SameFrontAppended(a: seq<byte>, x: seq<byte>)
    requires 0 < |a| % 16 && |a| % 16 + |x| < 16
    ensures NumBlocks(|a|) == NumBlocks(|a + x|) && Front(a) == Front(a + x) && EndsShort(a) && EndsShort(a + x)
  {
  }

  /** Bytes put after a ciphertext that ends in a short block, without filling it, are rejected. */
  lemma AppendedBytesRejected(e: Block -> Block, m: Block -> Block, mInv: Block -> Block, iv: Block, p: seq<byte>, x: seq<byte>)
    requires Undoes(mInv, m) && x != [] && 0 < |p| % 16 && |p| % 16 + |x| < 16
    ensures Open(e, m, [0x01] + iv + (Ctr(e, iv, p) + x) + Tag(m, iv + Ctr(e, iv, p))) == Err(AuthFailed)
  {
    hide Ctr, Tag, Front, EndsShort, NumBlocks, Open;
    var ct := Ctr(e, iv, p);
    SameFrontAppended(iv + ct, x);
    assert iv + ct + x == iv + (ct + x);
    OtherEndRejected(e, m, mInv, iv, p, ct + x);
  }

  /** Bytes cut from the end of a ciphertext are missed, if its last block stays as it was but shorter, and not empty. */
  lemma CutBytesRejected(e: Block -> Block, m: Block -> Block, mInv: Block -> Block, iv: Block, p: seq<byte>, n: nat)
    requires Undoes(mInv, m) && n < |p| && n / 16 == |p| / 16 && 0 < n % 16
    ensures Open(e, m, [0x01] + iv + Ctr(e, iv, p)[..n] + Tag(m, iv + Ctr(e, iv, p))) == Err(AuthFailed)
  {
    hide Ctr, Tag, Front, EndsShort, NumBlocks, Open;
    var ct := Ctr(e, iv, p);
    assert iv + ct == iv + ct[..n] + ct[n..];
    SameFrontAppended(iv + ct[..n], ct[n..]);
    OtherEndRejected(e, m, mInv, iv, p, ct[..n]);
  }
}
