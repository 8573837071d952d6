/** The provider: a borrowed key, the AEAD under it, and the key wiped again. */
module Provider {
  import opened Bytes
  import opened Strings
  import opened Slices
  import opened AeadSpec
  import opened KeyStore
  import KM = KeyManager
  import opened Cmac
  import GC = GostCounter
  import KA = KuznyechikAead
  import Rfc = Rfc7801

  datatype Response<T> = Reply(value: T) | KeyFailed(error: KeyError) | CryptoFailed(reason: Error)

  /** Sealing under a held key; the vector, or the failure to draw one, comes from outside. */
  function SealUnder(sha: KA.Hash, key: Key, random: Result<Block>, p: seq<byte>): Result<seq<byte>> {
    match random
    case Ok(iv) => Ok(Seal(KA.EncFn(sha, key), KA.MacFn(sha, key), iv, p))
    case Err(e) => Err(e)
  }

  function OpenUnder(sha: KA.Hash, key: Key, data: seq<byte>): Result<seq<byte>> {
    Open(KA.EncFn(sha, key), KA.MacFn(sha, key), data)
  }

  /** Whatever was sealed under a key opens under it. */
  lemma OpenSealUnder(sha: KA.Hash, key: Key, iv: Block, p: seq<byte>)
    ensures SealUnder(sha, key, Ok(iv), p).Ok?
    ensures OpenUnder(sha, key, SealUnder(sha, key, Ok(iv), p).value) == Ok(p)
  {
    hide Seal, Open, KA.EncFn, KA.MacFn;
    OpenSeal(KA.EncFn(sha, key), KA.MacFn(sha, key), iv, p);
  }

  /** A message altered in one block of vector and ciphertext is rejected under every key. */
  lemma AlteredMessageRejected(sha: KA.Hash, key: Key, iv: Block, p: seq<byte>, data: seq<byte>, i: nat)
    requires SealUnder(sha, key, Ok(iv), p).Ok?
    requires var s := SealUnder(sha, key, Ok(iv), p).value;
      && |data| == |s| >= OVERHEAD && data != s
      && data[0] == s[0] && data[|data| - 16..] == s[|s| - 16..]
      && AgreeOutside(Body(s), Body(data), i)
    ensures OpenUnder(sha, key, data) == Err(AuthFailed)
  {
    hide Seal, Open, KA.EncFn, AgreeOutside, Rfc.Schedule, Rfc.Encrypt, Rfc.Decrypt;
    var keys := Rfc.Schedule(KA.Subkey(sha, key, KA.MAC_DOMAIN));
    GC.KuznyechikPermutes(keys);
    SealParts(KA.EncFn(sha, key), KA.MacFn(sha, key), iv, p);
    TamperedBlockRejected(KA.EncFn(sha, key), KA.MacFn(sha, key), Rfc.Dec(keys), iv, p, data, i);
  }

  /** `defer zeroBytes(key)`: wiping a borrowed key touches neither the cache nor anyone else's copy. */
  method Wipe(manager: KM.Manager, key: array<byte>)
    requires manager.Valid() && key in manager.handedOut
    modifies key
    ensures manager.Valid() && manager.Cached() == old(manager.Cached())
    ensures key[..] == Zeros(key.Length)
    ensures forall copy | copy in manager.handedOut && copy != key :: copy[..] == old(copy[..])
  {
    KM.ZeroBytes(key);
  }

  /** The bytes of a Go string, in a new buffer. */
  method BytesOf(s: seq<byte>) returns (a: array<byte>)
    ensures fresh(a) && a[..] == s
  {
    a := KA.ToArray(s);
  }

  method SealWithKey(sha: KA.Hash, key: array<byte>, plaintext: Slice, random: Result<Block>) returns (r: Result<seq<byte>>)
    requires key.Length == KEY_SIZE && plaintext.Valid()
    ensures r == SealUnder(sha, key[..], random, View(plaintext))
  {
    hide KA.EncFn, KA.MacFn, Seal;
    var aead := KA.NewAead(sha, key[..]);
    assert aead.Ok?;
    var sealed := aead.value.Encrypt(plaintext, random);
    match sealed
    case Ok(buffer) => r := Ok(buffer[..]);
    case Err(e) => r := Err(e);
  }

  method OpenWithKey(sha: KA.Hash, key: array<byte>, data: Slice) returns (r: Result<array<byte>>)
    requires key.Length == KEY_SIZE && data.Valid()
    ensures r.Ok? ==> fresh(r.value)
    ensures KA.SameResult(r, OpenUnder(sha, key[..], View(data)))
  {
    hide KA.EncFn, KA.MacFn, Open;
    var aead := KA.NewAead(sha, key[..]);
    assert aead.Ok?;
    r := aead.value.Decrypt(data);
  }

  class Provider {
    const manager: KM.Manager
    const sha: KA.Hash

    constructor (manager: KM.Manager, sha: KA.Hash)
      ensures this.manager == manager && this.sha == sha
    {
      this.manager, this.sha := manager, sha;
    }

    /** Seals under the key the request yields; the borrowed copy is wiped, the cached key stays. */
    method Encrypt(kv: KM.KV, env: Env, plaintext: Slice, random: Result<Block>) returns (r: Response<seq<byte>>)
      requires manager.Valid() && plaintext.Valid()
      modifies manager, kv
      ensures manager.Valid()
      ensures var after := GetOrCreate(old(manager.Cached()), old(kv.record), manager.createIfNotExists, manager.b64, env);
        && manager.Cached() == after.cached && kv.record == after.store
        && match after.outcome
           case Failed(e) => r == KeyFailed(e)
           case Got(held) =>
             match SealUnder(sha, held.key, random, old(View(plaintext)))
             case Ok(sealed) => r == Reply(sealed)
             case Err(e) => r == CryptoFailed(e)
    {
      hide SealUnder, GetOrCreate;
      var key := manager.GetOrCreateKey(kv, env);
      match key
      case NoKey(e) => r := KeyFailed(e);
      case Key(buffer, _) =>
        var sealed := SealWithKey(sha, buffer, plaintext, random);
        Wipe(manager, buffer);
        match sealed
        case Ok(s) => r := Reply(s);
        case Err(e) => r := CryptoFailed(e);
    }

    /** Opens under the key the request yields. */
    method Decrypt(kv: KM.KV, env: Env, ciphertext: seq<byte>) returns (r: Response<array<byte>>)
      requires manager.Valid()
      modifies manager, kv
      ensures manager.Valid()
      ensures r.Reply? ==> fresh(r.value)
      ensures var after := GetOrCreate(old(manager.Cached()), old(kv.record), manager.createIfNotExists, manager.b64, env);
        && manager.Cached() == after.cached && kv.record == after.store
        && match after.outcome
           case Failed(e) => r == KeyFailed(e)
           case Got(held) =>
             match OpenUnder(sha, held.key, ciphertext)
             case Ok(p) => r.Reply? && r.value[..] == p
             case Err(e) => r == CryptoFailed(e)
    {
      hide OpenUnder, GetOrCreate;
      var data := BytesOf(ciphertext);
      ViewAll(data);
      var key := manager.GetOrCreateKey(kv, env);
      match key
      case NoKey(e) => r := KeyFailed(e);
      case Key(buffer, _) =>
        var result := OpenWithKey(sha, buffer, All(data));
        Wipe(manager, buffer);
        match result
        case Ok(p) => r := Reply(p);
        case Err(e) => r := CryptoFailed(e);
    }

    /** `GetKeyInfo`: None stands for an error, here also for a missing key. */
    method GetKeyInfo(kv: KM.KV, readFails: bool) returns (r: Option<int>)
      ensures r.Some? <==> kv.record.Some? && !readFails && Parse(kv.record.value, manager.b64).Got?
      ensures r.Some? ==> r.value == Parse(kv.record.value, manager.b64).held.version
    {
      var info := manager.GetKeyInfo(kv, readFails);
      if info.None? || !info.value.found { return None; }
      r := Some(info.value.version);
    }
  }
}
