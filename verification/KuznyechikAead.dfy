/** The AEAD object: key derivation, sealing and opening over the in-place modes. */
module KuznyechikAead {
  import opened Bytes
  import opened CtrMode
  import opened Cmac
  import opened Slices
  import opened AeadSpec
  import opened GostCounter
  import opened GostMac
  import KC = KuznyechikCipher
  import Rfc = Rfc7801

  /** SHA-256, which is not part of this model beyond the length of its result. */
  type Hash = seq<byte> -> Rfc.MasterKey

  predicate Ascii(s: string) { forall i | 0 <= i < |s| :: 0 < s[i] as int < 128 }

  function Encoded(s: string): seq<byte>
    requires Ascii(s)
  {
    seq(|s|, i requires 0 <= i < |s| => s[i] as int)
  }

  const ENC_DOMAIN: string := "kubebao-kuznyechik-enc"
  const MAC_DOMAIN: string := "kubebao-kuznyechik-mac"

  /** What is hashed for a subkey: the domain, a zero byte, the master key. */
  function HashInput(masterKey: seq<byte>, domain: string): seq<byte>
    requires Ascii(domain)
  {
    Encoded(domain) + [0] + masterKey
  }

  /** `deriveSubkey`. */
  function Subkey(sha: Hash, masterKey: seq<byte>, domain: string): Rfc.MasterKey
    requires Ascii(domain)
  {
    sha(HashInput(masterKey, domain))
  }

  lemma FirstZero(k: seq<byte>, d: string)
    requires Ascii(d)
    ensures var x := HashInput(k, d);
      && |x| == |d| + 1 + |k| && x[|d|] == 0 && x[|d| + 1..] == k
      && forall i | 0 <= i < |d| :: x[i] != 0 && x[i] == d[i] as int
  {
  }

  /** The zero byte separates: different domains or different keys never hash the same bytes. */
  lemma HashInputInjective(k: seq<byte>, d: string, k': seq<byte>, d': string)
    requires Ascii(d) && Ascii(d')
    requires HashInput(k, d) == HashInput(k', d')
    ensures k == k' && d == d'
  {
    hide HashInput;
    FirstZero(k, d);
    FirstZero(k', d');
    assert |d| == |d'|;
    forall i | 0 <= i < |d| ensures d[i] == d'[i] {
      assert HashInput(k, d)[i] == d[i] as int && HashInput(k', d')[i] == d'[i] as int;
    }
  }

  // The two domains in bytes.

  const ENC_BYTES: seq<byte> := [
    0x6b, 0x75, 0x62, 0x65, 0x62, 0x61, 0x6f, 0x2d, 0x6b, 0x75, 0x7a,
    0x6e, 0x79, 0x65, 0x63, 0x68, 0x69, 0x6b, 0x2d, 0x65, 0x6e, 0x63]

  const MAC_BYTES: seq<byte> := [
    0x6b, 0x75, 0x62, 0x65, 0x62, 0x61, 0x6f, 0x2d, 0x6b, 0x75, 0x7a,
    0x6e, 0x79, 0x65, 0x63, 0x68, 0x69, 0x6b, 0x2d, 0x6d, 0x61, 0x63]

  lemma DomainBytes()
    ensures Encoded(ENC_DOMAIN) == ENC_BYTES && Encoded(MAC_DOMAIN) == MAC_BYTES
  {
  }

  /** What the two subkeys of a master key are hashed from; the two byte strings are never the same. */
  lemma SubkeyInputs(sha: Hash, key: seq<byte>)
    ensures Subkey(sha, key, ENC_DOMAIN) == sha(ENC_BYTES + [0] + key)
    ensures Subkey(sha, key, MAC_DOMAIN) == sha(MAC_BYTES + [0] + key)
    ensures ENC_BYTES + [0] + key != MAC_BYTES + [0] + key
  {
    DomainBytes();
    hide Encoded;
    assert ENC_DOMAIN != MAC_DOMAIN by { assert ENC_DOMAIN[19] != MAC_DOMAIN[19]; }
    if HashInput(key, ENC_DOMAIN) == HashInput(key, MAC_DOMAIN) {
      HashInputInjective(key, ENC_DOMAIN, key, MAC_DOMAIN);
    }
  }

  /** Subkeys differ wherever the hash tells their inputs apart, and inputs differ wherever domain or key does. */
  lemma SubkeysApart(sha: Hash, key: seq<byte>, d: string, key': seq<byte>, d': string)
    requires Ascii(d) && Ascii(d')
    ensures Subkey(sha, key, d) == Subkey(sha, key', d') <==>
            sha(Encoded(d) + [0] + key) == sha(Encoded(d') + [0] + key')
    ensures Encoded(d) + [0] + key == Encoded(d') + [0] + key' <==> d == d' && key == key'
  {
    hide Encoded;
    if HashInput(key, d) == HashInput(key', d') { HashInputInjective(key, d, key', d'); }
  }

  /** The block transformations of an AEAD under a master key. */
  function EncFn(sha: Hash, masterKey: seq<byte>): Block -> Block {
    Rfc.Enc(Rfc.Schedule(Subkey(sha, masterKey, ENC_DOMAIN)))
  }

  function MacFn(sha: Hash, masterKey: seq<byte>): Block -> Block {
    Rfc.Enc(Rfc.Schedule(Subkey(sha, masterKey, MAC_DOMAIN)))
  }

  /** A byte buffer or an error says the same as a byte string or an error. */
  ghost predicate SameResult(r: Result<array<byte>>, s: Result<seq<byte>>)
    reads if r.Ok? then {r.value} else {}
  {
    match r
    case Ok(a) => s == Ok(a[..])
    case Err(x) => s == Err(x)
  }

  class Aead {
    const encBlock: KC.Cipher
    const macBlock: KC.Cipher

    ghost predicate Valid()
      reads encBlock, macBlock
    {
      encBlock.Valid() && macBlock.Valid()
    }

    constructor (sha: Hash, masterKey: seq<byte>)
      requires |masterKey| == 32
      ensures fresh(encBlock) && fresh(macBlock) && Valid()
      ensures encBlock.E() == EncFn(sha, masterKey) && macBlock.E() == MacFn(sha, masterKey)
      ensures encBlock.Keys() == Rfc.Schedule(sha(ENC_BYTES + [0] + masterKey))
      ensures macBlock.Keys() == Rfc.Schedule(sha(MAC_BYTES + [0] + masterKey))
    {
      hide Rfc.Schedule, Rfc.Encrypt, Subkey, KC.Equivalent;
      SubkeyInputs(sha, masterKey);
      encBlock := new KC.Cipher(Subkey(sha, masterKey, ENC_DOMAIN));
      macBlock := new KC.Cipher(Subkey(sha, masterKey, MAC_DOMAIN));
    }

    /** Seals `plaintext` under the vector the random source delivers, or fails with the source. */
    method Encrypt(plaintext: Slice, random: Result<Block>) returns (r: Result<array<byte>>)
      requires Valid() && plaintext.Valid()
      ensures r.Ok? ==> fresh(r.value)
      ensures SameResult(r, match random
                            case Ok(iv) => Ok(Seal(encBlock.E(), macBlock.E(), iv, View(plaintext)))
                            case Err(x) => Err(x))
    {
      hide KC.Cipher.Valid, KC.Cipher.E, KC.Cipher.Keys, Seal;
      match random
      case Err(x) => r := Err(x);
      case Ok(iv) =>
        var out := SealWith(encBlock, encBlock.E(), macBlock, macBlock.E(), plaintext, iv);
        r := Ok(out);
    }

    /** Opens a sealed message: length, version and tag are checked before anything is decrypted. */
    method Decrypt(data: Slice) returns (r: Result<array<byte>>)
      requires Valid() && data.Valid()
      ensures r.Ok? ==> fresh(r.value)
      ensures SameResult(r, Open(encBlock.E(), macBlock.E(), View(data)))
    {
      hide KC.Cipher.Valid, KC.Cipher.E, KC.Cipher.Keys, Ctr, Tag, Start;
      if data.len < OVERHEAD { return Err(InvalidCiphertext); }
      var version := data.buf[data.off];
      if version != VERSION { return Err(UnsupportedVersion(version)); }
      var iv := data.From(1).To(16);
      var ct := data.From(17).To(data.len - 33);
      var tag := data.From(data.len - 16);
      Framing(data);
      var expectedTag := TagOf(macBlock, macBlock.E(), iv, ct);
      if View(tag) != expectedTag[..] { return Err(AuthFailed); }
      var plaintext := Crypt(encBlock, encBlock.E(), ct, View(iv));
      StartOfBlock(View(iv));
      r := Ok(plaintext);
    }
  }

  /** The three slices that `Decrypt` cuts out show the three parts of the message. */
  lemma Framing(data: Slice)
    requires data.Valid() && data.len >= OVERHEAD
    ensures View(data.From(1).To(16)) == View(data)[1..17]
    ensures View(data.From(17).To(data.len - 33)) == View(data)[17..data.len - 16]
    ensures View(data.From(data.len - 16)) == View(data)[data.len - 16..]
    ensures data.buf[data.off] == View(data)[0]
  {
    Piece(data, 1, 16);
    Piece(data, 17, data.len - 33);
    Piece(data, data.len - 16, 16);
    var tag := data.From(data.len - 16);
    assert tag.To(16) == tag;
    assert View(data)[data.len - 16..data.len] == View(data)[data.len - 16..];
  }

  /** Go's s[n:][:m]. */
  lemma Piece(s: Slice, n: nat, m: nat)
    requires s.Valid() && n + m <= s.len
    ensures View(s.From(n).To(m)) == View(s)[n..n + m]
  {
  }

  lemma StartOfBlock(iv: Block)
    ensures Start(iv) == iv
  {
    assert iv[..16] == iv;
  }

  /** Counter mode into a fresh buffer. */
  method Crypt(block: KC.Cipher, ghost e: Block -> Block, src: Slice, iv: seq<byte>) returns (dst: array<byte>)
    requires block.Valid() && e == block.E() && src.Valid() && |iv| == 16
    ensures fresh(dst) && dst[..] == Ctr(e, iv, View(src))
  {
    hide KC.Cipher.Valid, KC.Cipher.E, KC.Cipher.Keys, Ctr, Start;
    ghost var p := View(src);
    dst := new byte[src.len](_ => 0);
    ghost var was := dst[..];
    GostCtr(block, e, All(dst), src, iv);
    StartOfBlock(iv);
    PatchWhole(was, Ctr(e, iv, p));
  }

  /** Version, vector, ciphertext and tag, appended to one another. */
  method SealWith(encBlock: KC.Cipher, ghost e: Block -> Block, macBlock: KC.Cipher, ghost m: Block -> Block,
                  plaintext: Slice, vector: Block) returns (out: array<byte>)
    requires encBlock.Valid() && e == encBlock.E() && macBlock.Valid() && m == macBlock.E()
    requires plaintext.Valid()
    ensures fresh(out) && out[..] == Seal(e, m, vector, View(plaintext))
  {
    hide KC.Cipher.Valid, KC.Cipher.E, KC.Cipher.Keys, Ctr, Tag;
    var iv := ToArray(vector);
    var ct := Crypt(encBlock, e, plaintext, iv[..]);
    ViewAll(iv);
    ViewAll(ct);
    var tag := TagOf(macBlock, m, All(iv), All(ct));
    out := ToArray([VERSION] + iv[..] + ct[..] + tag[..]);
  }

  method ToArray(s: seq<byte>) returns (a: array<byte>)
    ensures fresh(a) && a[..] == s
  {
    a := new byte[|s|](i requires 0 <= i < |s| => s[i]);
    assert a[..] == s;
  }

  /** The tag of vector and ciphertext, passed as two separate parts. */
  method TagOf(block: KC.Cipher, ghost m: Block -> Block, iv: Slice, ct: Slice) returns (tag: array<byte>)
    requires block.Valid() && m == block.E() && iv.Valid() && ct.Valid()
    ensures fresh(tag) && tag[..] == Tag(m, View(iv) + View(ct))
  {
    hide KC.Cipher.Valid, KC.Cipher.E, KC.Cipher.Keys, Tag, Flatten;
    FlattenTwo(View(iv), View(ct));
    tag := GostCmac(block, m, [iv, ct], [View(iv), View(ct)]);
  }

  lemma PatchWhole(whole: seq<byte>, part: seq<byte>)
    requires |part| == |whole|
    ensures Patch(whole, 0, part) == part
  {
  }

  lemma FlattenTwo(a: seq<byte>, b: seq<byte>)
    ensures Flatten([a, b]) == a + b
  {
    assert [a, b][1..] == [b] && [b][1..] == [];
    assert Flatten([b]) == b + Flatten([]);
  }

  /** `NewKuznyechikAEAD`. */
  method NewAead(sha: Hash, masterKey: seq<byte>) returns (r: Result<Aead>)
    ensures |masterKey| != 32 ==> r == Err(InvalidKeySize)
    ensures |masterKey| == 32 ==>
      r.Ok? && fresh(r.value) && fresh(r.value.encBlock) && fresh(r.value.macBlock) && r.value.Valid() &&
      r.value.encBlock.E() == EncFn(sha, masterKey) && r.value.macBlock.E() == MacFn(sha, masterKey)
    ensures |masterKey| == 32 ==>
      && r.value.encBlock.Keys() == Rfc.Schedule(sha([
           0x6b, 0x75, 0x62, 0x65, 0x62, 0x61, 0x6f, 0x2d, 0x6b, 0x75, 0x7a,
           0x6e, 0x79, 0x65, 0x63, 0x68, 0x69, 0x6b, 0x2d, 0x65, 0x6e, 0x63] + [0] + masterKey))
      && r.value.macBlock.Keys() == Rfc.Schedule(sha([
           0x6b, 0x75, 0x62, 0x65, 0x62, 0x61, 0x6f, 0x2d, 0x6b, 0x75, 0x7a,
           0x6e, 0x79, 0x65, 0x63, 0x68, 0x69, 0x6b, 0x2d, 0x6d, 0x61, 0x63] + [0] + masterKey))
  {
    if |masterKey| != 32 { return Err(InvalidKeySize); }
    var a := new Aead(sha, masterKey);
    r := Ok(a);
  }
}
