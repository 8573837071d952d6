/** The KV record of the master key, and what a key request does to cache and record, as a function. */
module KeyStore {
  import opened Bytes
  import opened Strings

  const KEY_SIZE: nat := 32

  type Key = k: seq<byte> | |k| == KEY_SIZE witness Zeros(KEY_SIZE)

  /** The two fields read; None where the field is missing or of another type. */
  datatype Record = Record(key: Option<string>, version: Option<int>)

  datatype KeyError = FieldMissing | NotBase64 | BadSize(size: nat) | NotFound | NoRandom | WriteFailed

  /** A key with its version. */
  datatype Held = Held(key: Key, version: int)

  datatype KeyOutcome = Got(held: Held) | Failed(error: KeyError)

  /** Standard base64, of which only this is used: decoding undoes encoding. */
  datatype Base64 = Base64(encode: seq<byte> -> string, decode: string -> Option<seq<byte>>) {
    ghost predicate Lossless() {
      forall b: seq<byte> :: decode(encode(b)) == Some(b)
    }
  }

  /** `parseKeyData`. */
  function Parse(record: Record, b64: Base64): KeyOutcome {
    match record.key
    case None => Failed(FieldMissing)
    case Some(text) =>
      match b64.decode(text)
      case None => Failed(NotBase64)
      case Some(key) =>
        if |key| != KEY_SIZE then Failed(BadSize(|key|))
        else Got(Held(key, match record.version case Some(v) => v case None => 1))
  }

  /** The record written for a new key. */
  function NewRecord(key: Key, b64: Base64): Record {
    Record(Some(b64.encode(key)), Some(1))
  }

  lemma ParseNewRecord(key: Key, b64: Base64)
    requires b64.Lossless()
    ensures Parse(NewRecord(key, b64), b64) == Got(Held(key, 1))
  {
    assert b64.decode(b64.encode(key)) == Some(key);
  }

  /** What becomes of a write: done; failed; or done although an error is reported. */
  datatype WriteOutcome = Written | NotWritten | WrittenButFailed

  /** Whatever the outside world decides during one request. */
  datatype Env = Env(readFails: bool, random: Option<Key>, write: WriteOutcome)

  datatype After = After(cached: Option<Held>, store: Option<Record>, outcome: KeyOutcome)

  /** `GetOrCreateKey` as seen by a request that nobody interrupts. */
  function GetOrCreate(cached: Option<Held>, store: Option<Record>, create: bool, b64: Base64, env: Env): After {
    if cached.Some? then After(cached, store, Got(cached.value))
    else if store.Some? && !env.readFails then
      var parsed := Parse(store.value, b64);
      After(if parsed.Got? then Some(parsed.held) else None, store, parsed)
    else if !create then After(None, store, Failed(NotFound))
    else if env.random.None? then After(None, store, Failed(NoRandom))
    else
      var record := NewRecord(env.random.value, b64);
      match env.write
      case Written => After(Some(Held(env.random.value, 1)), Some(record), Got(Held(env.random.value, 1)))
      case NotWritten => After(None, store, Failed(WriteFailed))
      case WrittenButFailed => After(None, Some(record), Failed(WriteFailed))
  }

  /** The cache says what the record says. */
  predicate Agree(cached: Option<Held>, store: Option<Record>, b64: Base64) {
    cached.Some? ==> store.Some? && Parse(store.value, b64) == Got(cached.value)
  }

  /** A request keeps cache and record in agreement, and hands out what the record holds. */
  lemma GetOrCreateAgrees(cached: Option<Held>, store: Option<Record>, create: bool, b64: Base64, env: Env)
    requires b64.Lossless() && Agree(cached, store, b64)
    ensures var after := GetOrCreate(cached, store, create, b64, env);
      && Agree(after.cached, after.store, b64)
      && (after.outcome.Got? ==> after.cached == Some(after.outcome.held))
  {
    if env.random.Some? { ParseNewRecord(env.random.value, b64); }
  }

  /**
   * An existing record survives a request, unless the cache is empty, the read fails although the record is
   * there, creation is allowed, and the new record reaches the store: the code takes any read error for "no key".
   */
  lemma RecordKeptIff(cached: Option<Held>, store: Option<Record>, create: bool, b64: Base64, env: Env)
    requires store.Some?
    ensures GetOrCreate(cached, store, create, b64, env).store == store <==>
            || cached.Some?
            || !env.readFails
            || !create
            || env.random.None?
            || env.write == NotWritten
            || store == Some(NewRecord(env.random.value, b64))
  {
  }

  // The outcomes one by one.

  /** What a record reads as. */
  lemma ParseCases(record: Record, b64: Base64)
    ensures Parse(record, b64) == Failed(FieldMissing) <==> record.key == None
    ensures Parse(record, b64) == Failed(NotBase64) <==> record.key.Some? && b64.decode(record.key.value) == None
    ensures forall n :: Parse(record, b64) == Failed(BadSize(n)) <==>
      record.key.Some? && exists k :: b64.decode(record.key.value) == Some(k) && |k| == n && n != 32
    ensures forall held :: Parse(record, b64) == Got(held) <==>
      && record.key.Some? && b64.decode(record.key.value) == Some(held.key)
      && (record.version == Some(held.version) || (record.version == None && held.version == 1))
  {
  }

  /** The record of a new key: the key in base64, version 1. */
  lemma NewRecordFields(key: Key, b64: Base64)
    requires b64.Lossless()
    ensures NewRecord(key, b64).version == Some(1)
    ensures NewRecord(key, b64).key.Some? && b64.decode(NewRecord(key, b64).key.value) == Some(key)
  {
    ParseNewRecord(key, b64);
  }

  /** When a request yields which key, and when it fails for which reason. */
  lemma RequestCases(cached: Option<Held>, store: Option<Record>, create: bool, b64: Base64, env: Env)
    ensures var outcome := GetOrCreate(cached, store, create, b64, env).outcome;
      var present, absent := cached == None && store.Some? && !env.readFails, cached == None && (store == None || env.readFails);
      && (forall held :: outcome == Got(held) <==>
            || cached == Some(held)
            || (present && Parse(store.value, b64) == Got(held))
            || (absent && create && env.random == Some(held.key) && held.version == 1 && env.write == Written))
      && (outcome == Failed(NotFound) <==> absent && !create)
      && (outcome == Failed(NoRandom) <==> absent && create && env.random == None)
      && (outcome == Failed(WriteFailed) <==> absent && create && env.random.Some? && env.write != Written)
  {
  }
}
