/** The key manager as an object: who owns which key buffer. */
module KeyManager {
  import opened Bytes
  import opened Strings
  import opened KeyStore

  /** The KV entry behind the client; failures are decided by the caller's environment. */
  class KV {
    var record: Option<Record>

    /** Any error, whether or not there is a record, is just an error to the reader. */
    method Read(fails: bool) returns (r: Option<Record>)
      ensures r == if fails then None else record
    {
      r := if fails then None else record;
    }

    method Write(value: Record, outcome: WriteOutcome) returns (ok: bool)
      modifies this
      ensures record == if outcome == NotWritten then old(record) else Some(value)
      ensures ok == (outcome == Written)
    {
      if outcome != NotWritten { record := Some(value); }
      ok := outcome == Written;
    }
  }

  datatype KeyResult = Key(buffer: array<byte>, version: int) | NoKey(error: KeyError)

  datatype KeyInfo = KeyInfo(version: int, found: bool)

  /** `zeroBytes`. */
  method ZeroBytes(b: array<byte>)
    modifies b
    ensures b[..] == Zeros(b.Length)
  {
    for i := 0 to b.Length
      invariant forall j | 0 <= j < i :: b[j] == 0
    {
      b[i] := 0;
    }
  }

  method CopyOf(a: array<byte>) returns (copy: array<byte>)
    ensures fresh(copy) && copy[..] == a[..]
  {
    copy := new byte[a.Length](i requires 0 <= i < a.Length reads a => a[i]);
    assert copy[..] == a[..];
  }

  class Manager {
    const createIfNotExists: bool
    const b64: Base64
    var cachedKey: array?<byte>
    var keyVersion: int
    /** Every buffer ever given to a caller. */
    ghost var handedOut: set<array<byte>>

    /** The cache buffer holds a key and belongs to nobody else. */
    ghost predicate Valid()
      reads this, cachedKey
    {
      cachedKey != null ==> cachedKey.Length == KEY_SIZE && cachedKey !in handedOut
    }

    ghost function Cached(): Option<Held>
      reads this, cachedKey
      requires Valid()
    {
      if cachedKey == null then None else Some(Held(cachedKey[..], keyVersion))
    }

    /** What the result of a request says, and that its buffer is the caller's own. */
    ghost predicate Answers(r: KeyResult, outcome: KeyOutcome)
      reads this, if r.Key? then {r.buffer} else {}
    {
      match r
      case Key(buffer, version) =>
        buffer != cachedKey && buffer in handedOut && buffer.Length == KEY_SIZE && outcome == Got(Held(buffer[..], version))
      case NoKey(error) => outcome == Failed(error)
    }

    constructor (createIfNotExists: bool, b64: Base64)
      ensures Valid() && Cached() == None && handedOut == {}
      ensures this.createIfNotExists == createIfNotExists && this.b64 == b64
    {
      this.createIfNotExists, this.b64 := createIfNotExists, b64;
      cachedKey, keyVersion, handedOut := null, 0, {};
    }

    /** `parseKeyData`, into a new buffer. */
    method ParseKeyData(record: Record) returns (r: KeyResult)
      ensures match r
        case Key(buffer, version) =>
          fresh(buffer) && buffer.Length == KEY_SIZE && Parse(record, b64) == Got(Held(buffer[..], version))
        case NoKey(error) => Parse(record, b64) == Failed(error)
    {
      if record.key.None? { return NoKey(FieldMissing); }
      var decoded := b64.decode(record.key.value);
      if decoded.None? { return NoKey(NotBase64); }
      if |decoded.value| != KEY_SIZE { return NoKey(BadSize(|decoded.value|)); }
      var version := 1;
      if record.version.Some? { version := record.version.value; }
      var key := new byte[|decoded.value|](i requires 0 <= i < |decoded.value| => decoded.value[i]);
      assert key[..] == decoded.value;
      r := Key(key, version);
    }

    /** The section under the read lock: a copy of the cache, if there is one. */
    method FromCache() returns (r: Option<KeyResult>)
      requires Valid()
      modifies `handedOut
      ensures Valid() && Cached() == old(Cached())
      ensures r.Some? <==> Cached().Some?
      ensures r.Some? ==> Answers(r.value, Got(Cached().value)) && r.value.Key? && fresh(r.value.buffer)
                          && handedOut == old(handedOut) + {r.value.buffer}
      ensures r.None? ==> handedOut == old(handedOut)
    {
      if cachedKey == null { return None; }
      var key := CopyOf(cachedKey);
      handedOut := handedOut + {key};
      r := Some(Key(key, keyVersion));
    }

    /** A newly obtained key goes into the cache; the caller gets a copy. */
    method Keep(key: array<byte>, version: int) returns (r: KeyResult)
      requires key.Length == KEY_SIZE && key !in handedOut
      modifies this
      ensures Valid() && Cached() == Some(Held(key[..], version)) && cachedKey == key
      ensures r.Key? && fresh(r.buffer) && Answers(r, Got(Held(key[..], version)))
      ensures handedOut == old(handedOut) + {r.buffer}
    {
      cachedKey := key;
      keyVersion := version;
      var copy := CopyOf(key);
      handedOut := handedOut + {copy};
      r := Key(copy, version);
    }

    /** The section under the write lock: the cache again, then the record, then a new key. */
    method Load(kv: KV, env: Env) returns (r: KeyResult)
      requires Valid()
      modifies this, kv
      ensures Valid()
      ensures var after := GetOrCreate(old(Cached()), old(kv.record), createIfNotExists, b64, env);
        Cached() == after.cached && kv.record == after.store && Answers(r, after.outcome)
      ensures r.Key? ==> fresh(r.buffer) && handedOut == old(handedOut) + {r.buffer}
      ensures r.NoKey? ==> handedOut == old(handedOut)
      ensures cachedKey == old(cachedKey) || fresh(cachedKey)
    {
      var again := FromCache();
      if again.Some? { return again.value; }
      var record := kv.Read(env.readFails);
      if record.Some? {
        var parsed := ParseKeyData(record.value);
        if parsed.NoKey? { return parsed; }
        r := Keep(parsed.buffer, parsed.version);
        return;
      }
      if !createIfNotExists { return NoKey(NotFound); }
      if env.random.None? { return NoKey(NoRandom); }
      var key := new byte[KEY_SIZE](i requires 0 <= i < KEY_SIZE => env.random.value[i]);
      assert key[..] == env.random.value;
      var ok := kv.Write(Record(Some(b64.encode(key[..])), Some(1)), env.write);
      if !ok { return NoKey(WriteFailed); }
      r := Keep(key, 1);
    }

    /** `GetOrCreateKey`. No buffer handed out before, and no cache buffer, is ever written. */
    method GetOrCreateKey(kv: KV, env: Env) returns (r: KeyResult)
      requires Valid()
      modifies this, kv
      ensures Valid()
      ensures var after := GetOrCreate(old(Cached()), old(kv.record), createIfNotExists, b64, env);
        Cached() == after.cached && kv.record == after.store && Answers(r, after.outcome)
      ensures r.Key? ==> fresh(r.buffer) && handedOut == old(handedOut) + {r.buffer}
      ensures r.NoKey? ==> handedOut == old(handedOut)
      ensures cachedKey == old(cachedKey) || fresh(cachedKey)
    {
      var hit := FromCache();
      if hit.Some? { return hit.value; }
      r := Load(kv, env);
    }

    /** `GetKeyInfo`: reads the record, never the cache; a failed read counts as "no key". */
    method GetKeyInfo(kv: KV, readFails: bool) returns (r: Option<KeyInfo>)
      ensures kv.record.None? || readFails ==> r == Some(KeyInfo(0, false))
      ensures kv.record.Some? && !readFails ==>
        match Parse(kv.record.value, b64)
        case Got(held) => r == Some(KeyInfo(held.version, true))
        case Failed(_) => r == None
    {
      var record := kv.Read(readFails);
      if record.None? { return Some(KeyInfo(0, false)); }
      var parsed := ParseKeyData(record.value);
      if parsed.NoKey? { return None; }
      r := Some(KeyInfo(parsed.version, true));
    }

    /** `InvalidateCache`: the cache buffer is wiped and given up; every copy handed out keeps its bytes. */
    method InvalidateCache()
      requires Valid()
      modifies this, cachedKey
      ensures Valid() && Cached() == None && keyVersion == old(keyVersion) && handedOut == old(handedOut)
      ensures old(cachedKey) != null ==> old(cachedKey)[..] == Zeros(KEY_SIZE)
      ensures forall copy | copy in handedOut :: copy[..] == old(copy[..])
    {
      if cachedKey != null {
        ZeroBytes(cachedKey);
        cachedKey := null;
      }
    }
  }
}
