/**
 * Requests of one key manager running concurrently, cut into the steps between which others may run.
 * The manager is the only writer of the record; every operation may be attempted at any time.
 */
module KeyProtocol {
  import opened Bytes
  import opened Strings
  import opened AeadSpec
  import opened KeyStore
  import opened Provider
  import KA = KuznyechikAead

  type Process = nat

  datatype Config = Config(create: bool, b64: Base64, sha: KA.Hash)

  /** Where a request stands. All but Idle, Missed and Has hold the write lock. */
  datatype Place =
    | Idle
    | Missed
    | Locked
    | Absent
    | Drawn(key: Key)
    | Stored(held: Held)
    | Has(copy: Held)

  datatype Message = Message(plain: seq<byte>, sealed: seq<byte>)

  datatype State = State(
    lock: Option<Process>,
    cached: Option<Held>,
    store: Option<Record>,
    place: map<Process, Place>,
    issued: set<Message>)

  function At(place: map<Process, Place>, p: Process): Place {
    if p in place then place[p] else Idle
  }

  datatype Action =
    | LookUp(p: Process)                                  // the section under the read lock
    | Acquire(p: Process)                                 // the write lock, when free
    | HitAgain(p: Process)                                // the cache is full by now: a copy, and the lock is free
    | ReadRecord(p: Process, fails: bool)                 // else the KV read and, if it succeeds, the parsing
    | Draw(p: Process, random: Option<Key>)               // a new key, if creation is allowed
    | WriteRecord(p: Process, outcome: WriteOutcome)      // the KV write
    | Publish(p: Process)                                 // the cache is set, the caller gets a copy, the lock is free
    | SealMessage(p: Process, iv: Block, plain: seq<byte>)
    | Wiped(p: Process)                                   // the copy is zeroed
    | Invalidate                                          // when the lock is free

  predicate Enabled(s: State, a: Action, c: Config) {
    match a
    case LookUp(p) => At(s.place, p).Idle? && s.lock.None?
    case Acquire(p) => At(s.place, p).Missed? && s.lock.None?
    case HitAgain(p) => At(s.place, p).Locked? && s.cached.Some?
    case ReadRecord(p, fails) => At(s.place, p).Locked? && s.cached.None?
    case Draw(p, random) => At(s.place, p).Absent?
    case WriteRecord(p, outcome) => At(s.place, p).Drawn?
    case Publish(p) => At(s.place, p).Stored?
    case SealMessage(p, iv, plain) => At(s.place, p).Has?
    case Wiped(p) => At(s.place, p).Has?
    case Invalidate => s.lock.None?
  }

  function Goto(s: State, p: Process, place: Place): (r: State)
    ensures forall q: Process :: At(r.place, q) == if q == p then place else At(s.place, q)
  {
    s.(place := s.place[p := place])
  }

  /** The request leaves the locked section, one way or the other. */
  function Leave(s: State, p: Process, place: Place): (r: State)
    ensures forall q: Process :: At(r.place, q) == if q == p then place else At(s.place, q)
  {
    Goto(s, p, place).(lock := None)
  }

  function Next(s: State, a: Action, c: Config): State
    requires Enabled(s, a, c)
  {
    match a
    case LookUp(p) => Goto(s, p, if s.cached.Some? then Has(s.cached.value) else Missed)
    case Acquire(p) => Goto(s, p, Locked).(lock := Some(p))
    case HitAgain(p) => Leave(s, p, Has(s.cached.value))
    case ReadRecord(p, fails) =>
      if s.store.None? || fails then Goto(s, p, Absent)
      else
        (match Parse(s.store.value, c.b64)
         case Got(held) => Goto(s, p, Stored(held))
         case Failed(_) => Leave(s, p, Idle))
    case Draw(p, random) =>
      if c.create && random.Some? then Goto(s, p, Drawn(random.value)) else Leave(s, p, Idle)
    case WriteRecord(p, outcome) =>
      var key := At(s.place, p).key;
      var s' := if outcome == NotWritten then s else s.(store := Some(NewRecord(key, c.b64)));
      if outcome == Written then Goto(s', p, Stored(Held(key, 1))) else Leave(s', p, Idle)
    case Publish(p) => Leave(s, p, Has(At(s.place, p).held)).(cached := Some(At(s.place, p).held))
    case SealMessage(p, iv, plain) =>
      s.(issued := s.issued + {Message(plain, SealUnder(c.sha, At(s.place, p).copy.key, Ok(iv), plain).value)})
    case Wiped(p) => Goto(s, p, Idle)
    case Invalidate => s.(cached := None)
  }

  // Runs.

  predicate Possible(s: State, run: seq<Action>, c: Config)
    decreases |run|
  {
    run == [] || (Enabled(s, run[0], c) && Possible(Next(s, run[0], c), run[1..], c))
  }

  function Final(s: State, run: seq<Action>, c: Config): State
    requires Possible(s, run, c)
    decreases |run|
  {
    if run == [] then s else Final(Next(s, run[0], c), run[1..], c)
  }

  /** The store may hold any record, or none; nobody has asked for anything yet. */
  predicate Initial(s: State) {
    s.lock.None? && s.cached.None? && s.place == map[] && s.issued == {}
  }

  /** A read fails only if there is no record. */
  predicate HonestStep(s: State, a: Action) {
    a.ReadRecord? && a.fails ==> s.store.None?
  }

  predicate Honest(s: State, run: seq<Action>, c: Config)
    requires Possible(s, run, c)
    decreases |run|
  {
    run == [] || (HonestStep(s, run[0]) && Honest(Next(s, run[0], c), run[1..], c))
  }

  // What every step keeps.

  predicate Inside(place: Place) { place.Locked? || place.Absent? || place.Drawn? || place.Stored? }

  /** The lock belongs to the one request inside, and is free if there is none. */
  ghost predicate Exclusive(s: State) {
    forall p: Process :: Inside(At(s.place, p)) <==> s.lock == Some(p)
  }

  /** The record holds this key. */
  predicate Recorded(s: State, held: Held, c: Config) {
    s.store.Some? && Parse(s.store.value, c.b64) == Got(held)
  }

  /** The cache, and every key a request has obtained, is the key of the record. */
  ghost predicate OneKey(s: State, c: Config) {
    && (s.cached.Some? ==> Recorded(s, s.cached.value, c))
    && (forall p: Process :: At(s.place, p).Has? ==> Recorded(s, At(s.place, p).copy, c))
    && (forall p: Process :: At(s.place, p).Stored? ==> Recorded(s, At(s.place, p).held, c))
  }

  /** A request that found no record is right until it writes one itself. */
  ghost predicate StillAbsent(s: State) {
    forall p: Process :: At(s.place, p).Absent? || At(s.place, p).Drawn? ==> s.store.None?
  }

  /** The key of the record opens every message ever sealed. */
  ghost predicate AllOpen(s: State, c: Config) {
    forall m | m in s.issued ::
      && s.store.Some? && Parse(s.store.value, c.b64).Got?
      && OpenUnder(c.sha, Parse(s.store.value, c.b64).held.key, m.sealed) == Ok(m.plain)
  }

  ghost predicate Safe(s: State, c: Config) {
    Exclusive(s) && OneKey(s, c) && StillAbsent(s) && AllOpen(s, c)
  }

  lemma InitialSafe(s: State, c: Config)
    requires Initial(s)
    ensures Safe(s, c)
  {
  }

  lemma ExclusiveStep(s: State, a: Action, c: Config)
    requires Exclusive(s) && Enabled(s, a, c)
    ensures Exclusive(Next(s, a, c))
  {
    hide SealUnder, Parse;
  }

  /** The store changes exactly by a write that reaches it with another content. */
  lemma StoreChangesIff(s: State, a: Action, c: Config)
    requires Enabled(s, a, c)
    ensures Next(s, a, c).store != s.store <==>
            a.WriteRecord? && a.outcome != NotWritten && s.store != Some(NewRecord(At(s.place, a.p).key, c.b64))
  {
    hide SealUnder, Parse, NewRecord;
  }

  /** Under honest reads an existing record is never written over. */
  lemma StoreStep(s: State, a: Action, c: Config)
    requires StillAbsent(s) && Enabled(s, a, c) && s.store.Some?
    ensures Next(s, a, c).store == s.store
  {
    hide Next, NewRecord;
    StoreChangesIff(s, a, c);
  }

  lemma StillAbsentStep(s: State, a: Action, c: Config)
    requires Exclusive(s) && StillAbsent(s) && Enabled(s, a, c) && HonestStep(s, a)
    ensures StillAbsent(Next(s, a, c))
  {
    hide SealUnder, Parse, NewRecord;
  }

  lemma OneKeyStep(s: State, a: Action, c: Config)
    requires c.b64.Lossless() && Safe(s, c) && Enabled(s, a, c)
    ensures OneKey(Next(s, a, c), c)
  {
    hide SealUnder, Parse, NewRecord, AllOpen;
    if a.WriteRecord? { ParseNewRecord(At(s.place, a.p).key, c.b64); }
  }

  lemma AllOpenStep(s: State, a: Action, c: Config)
    requires Safe(s, c) && Enabled(s, a, c)
    ensures AllOpen(Next(s, a, c), c)
  {
    hide SealUnder, OpenUnder, Parse, NewRecord;
    if a.SealMessage? { OpenSealUnder(c.sha, At(s.place, a.p).copy.key, a.iv, a.plain); }
  }

  lemma SafeStep(s: State, a: Action, c: Config)
    requires c.b64.Lossless() && Safe(s, c) && Enabled(s, a, c) && HonestStep(s, a)
    ensures Safe(Next(s, a, c), c)
    ensures s.store.Some? ==> Next(s, a, c).store == s.store
    ensures s.issued <= Next(s, a, c).issued
  {
    hide Enabled, Next, HonestStep, Exclusive, StillAbsent, OneKey, AllOpen;
    ExclusiveStep(s, a, c);
    StillAbsentStep(s, a, c);
    OneKeyStep(s, a, c);
    AllOpenStep(s, a, c);
    IssuedStep(s, a, c);
    if s.store.Some? { StoreStep(s, a, c); }
  }

  lemma IssuedStep(s: State, a: Action, c: Config)
    requires Enabled(s, a, c)
    ensures s.issued <= Next(s, a, c).issued
  {
    hide SealUnder, Parse, NewRecord;
  }

  /** Every run: once there is a record it stays, nothing issued is forgotten, and the state stays safe. */
  lemma {:induction false} SafeRun(s: State, run: seq<Action>, c: Config)
    requires c.b64.Lossless() && Safe(s, c) && Possible(s, run, c) && Honest(s, run, c)
    ensures Safe(Final(s, run, c), c)
    ensures s.store.Some? ==> Final(s, run, c).store == s.store
    ensures s.issued <= Final(s, run, c).issued
    decreases |run|
  {
    hide Safe, HonestStep, Enabled, Next;
    if run == [] {
    } else {
      SafeStep(s, run[0], c);
      SafeRun(Next(s, run[0], c), run[1..], c);
    }
  }

  /**
   * Whatever was sealed in an earlier part of a run, any request that obtains a key in a later part can open,
   * with any invalidations, failed writes and other requests in between.
   */
  lemma SealedStaysReadable(s: State, earlier: seq<Action>, later: seq<Action>, c: Config, m: Message, p: Process)
    requires c.b64.Lossless() && Initial(s)
    requires Possible(s, earlier, c) && Honest(s, earlier, c)
    requires Possible(Final(s, earlier, c), later, c) && Honest(Final(s, earlier, c), later, c)
    requires m in Final(s, earlier, c).issued
    requires At(Final(Final(s, earlier, c), later, c).place, p).Has?
    ensures OpenUnder(c.sha, At(Final(Final(s, earlier, c), later, c).place, p).copy.key, m.sealed) == Ok(m.plain)
  {
    hide Final, Possible, Honest, OpenUnder, Parse;
    InitialSafe(s, c);
    SafeRun(s, earlier, c);
    SafeRun(Final(s, earlier, c), later, c);
  }

  // The lock is always given back.

  function Distance(place: Place): nat {
    match place
    case Locked => 4
    case Absent => 3
    case Drawn(_) => 2
    case Stored(_) => 1
    case _ => 0
  }

  /** The request inside can always go on, and every step it takes brings it closer to releasing the lock. */
  lemma HolderProceeds(s: State, p: Process, c: Config)
    requires Exclusive(s) && s.lock == Some(p)
    ensures exists a :: Enabled(s, a, c) && !a.Invalidate? && a.p == p
    ensures forall a | Enabled(s, a, c) && !a.Invalidate? && a.p == p ::
      var next := Next(s, a, c);
      next.lock.None? || (next.lock == Some(p) && Distance(At(next.place, p)) < Distance(At(s.place, p)))
  {
    hide SealUnder, Parse, NewRecord;
    var a := match At(s.place, p)
      case Locked => if s.cached.Some? then HitAgain(p) else ReadRecord(p, false)
      case Absent => Draw(p, None)
      case Drawn(_) => WriteRecord(p, Written)
      case _ => Publish(p);
    assert Inside(At(s.place, p));
    assert Enabled(s, a, c);
  }

  // A request that nobody interrupts.

  /** The steps such a request takes. */
  function Script(s: State, p: Process, env: Env, c: Config): seq<Action> {
    if s.cached.Some? then [LookUp(p)]
    else [LookUp(p)] + ([Acquire(p)] + ([ReadRecord(p, env.readFails)] + AfterRead(s.store, p, env, c)))
  }

  function AfterRead(store: Option<Record>, p: Process, env: Env, c: Config): seq<Action> {
    if store.Some? && !env.readFails then if Parse(store.value, c.b64).Got? then [Publish(p)] else []
    else [Draw(p, env.random)] + AfterDraw(p, env, c)
  }

  function AfterDraw(p: Process, env: Env, c: Config): seq<Action> {
    if !c.create || env.random.None? then []
    else [WriteRecord(p, env.write)] + if env.write.Written? then [Publish(p)] else []
  }

  lemma Follow(s: State, a: Action, rest: seq<Action>, c: Config)
    requires Enabled(s, a, c) && Possible(Next(s, a, c), rest, c)
    ensures Possible(s, [a] + rest, c) && Final(s, [a] + rest, c) == Final(Next(s, a, c), rest, c)
  {
    hide Next, Enabled;
    assert ([a] + rest)[1..] == rest;
  }

  lemma Last(s: State, a: Action, c: Config)
    requires Enabled(s, a, c)
    ensures Possible(s, [a], c) && Final(s, [a], c) == Next(s, a, c)
  {
    hide Next, Enabled;
    assert [a][1..] == [];
  }

  /** What a request leaves behind: cache and record, the lock free, its own place and nobody else's changed. */
  ghost predicate Ends(s: State, f: State, p: Process, after: After) {
    && f.cached == after.cached && f.store == after.store && f.lock.None? && f.issued == s.issued
    && (forall q: Process | q != p :: At(f.place, q) == At(s.place, q))
    && At(f.place, p) == (match after.outcome case Got(held) => Has(held) case Failed(_) => Idle)
  }

  lemma DrawRun(s: State, p: Process, env: Env, c: Config)
    requires At(s.place, p).Absent? && s.cached.None? && (env.readFails || s.store.None?)
    ensures var run := [Draw(p, env.random)] + AfterDraw(p, env, c);
      Possible(s, run, c) && Ends(s, Final(s, run, c), p, GetOrCreate(None, s.store, c.create, c.b64, env))
  {
    hide NewRecord, Parse, SealUnder, Possible, Final;
    var s1 := Next(s, Draw(p, env.random), c);
    if !c.create || env.random.None? {
      Last(s, Draw(p, env.random), c);
      assert [Draw(p, env.random)] + [] == [Draw(p, env.random)];
    } else {
      var write := WriteRecord(p, env.write);
      if env.write.Written? {
        Last(Next(s1, write, c), Publish(p), c);
        Follow(s1, write, [Publish(p)], c);
      } else {
        Last(s1, write, c);
        assert [write] + [] == [write];
      }
      Follow(s, Draw(p, env.random), AfterDraw(p, env, c), c);
    }
  }

  lemma ReadRun(s: State, p: Process, env: Env, c: Config)
    requires At(s.place, p).Locked? && s.cached.None?
    ensures var run := [ReadRecord(p, env.readFails)] + AfterRead(s.store, p, env, c);
      Possible(s, run, c) && Ends(s, Final(s, run, c), p, GetOrCreate(None, s.store, c.create, c.b64, env))
  {
    hide NewRecord, Parse, SealUnder, Possible, Final, AfterDraw;
    var read := ReadRecord(p, env.readFails);
    var s1 := Next(s, read, c);
    if s.store.Some? && !env.readFails {
      if Parse(s.store.value, c.b64).Got? {
        Last(s1, Publish(p), c);
        Follow(s, read, [Publish(p)], c);
      } else {
        Last(s, read, c);
        assert [read] + [] == [read];
      }
    } else {
      DrawRun(s1, p, env, c);
      Follow(s, read, AfterRead(s.store, p, env, c), c);
    }
  }

  /** Taken alone, the steps of a request do what the function says that the key manager's method implements. */
  lemma UninterruptedRun(s: State, p: Process, env: Env, c: Config)
    requires s.lock.None? && At(s.place, p).Idle?
    ensures var run := Script(s, p, env, c);
      Possible(s, run, c) && Ends(s, Final(s, run, c), p, GetOrCreate(s.cached, s.store, c.create, c.b64, env))
  {
    hide NewRecord, Parse, SealUnder, Possible, Final, AfterRead;
    var s1 := Next(s, LookUp(p), c);
    if s.cached.Some? {
      Last(s, LookUp(p), c);
    } else {
      var s2 := Next(s1, Acquire(p), c);
      ReadRun(s2, p, env, c);
      var rest := [ReadRecord(p, env.readFails)] + AfterRead(s.store, p, env, c);
      Follow(s1, Acquire(p), rest, c);
      Follow(s, LookUp(p), [Acquire(p)] + rest, c);
    }
  }

  // Dishonest reads.

  /**
   * Wherever creation is allowed and the cache is empty, one read that fails although there is a record lets
   * the request replace the key: record and cache then hold the new key, whatever was sealed under the old one.
   */
  lemma FailedReadReplacesKey(s: State, p: Process, key: Key, c: Config)
    requires c.create && s.lock.None? && s.cached.None? && At(s.place, p).Idle?
    ensures var run := Script(s, p, Env(true, Some(key), Written), c);
      && Possible(s, run, c)
      && Final(s, run, c).store == Some(NewRecord(key, c.b64))
      && Final(s, run, c).cached == Some(Held(key, 1))
      && Final(s, run, c).issued == s.issued
  {
    hide NewRecord, Parse, SealUnder, Possible, Final, Script;
    UninterruptedRun(s, p, Env(true, Some(key), Written), c);
  }

  ghost predicate NoneDrawn(s: State) {
    forall p: Process :: !At(s.place, p).Drawn?
  }

  lemma {:induction false} ReadOnlyRun(s: State, run: seq<Action>, c: Config)
    requires !c.create && NoneDrawn(s) && Possible(s, run, c)
    ensures Final(s, run, c).store == s.store
    decreases |run|
  {
    hide Next, NewRecord;
    if run == [] {
    } else {
      StoreChangesIff(s, run[0], c);
      NoneDrawnStep(s, run[0], c);
      ReadOnlyRun(Next(s, run[0], c), run[1..], c);
    }
  }

  lemma NoneDrawnStep(s: State, a: Action, c: Config)
    requires !c.create && NoneDrawn(s) && Enabled(s, a, c)
    ensures NoneDrawn(Next(s, a, c))
  {
    hide Parse, SealUnder, NewRecord;
  }

  lemma Unused(places: set<Process>) returns (p: Process)
    ensures forall q | q in places :: q < p
  {
    p := 0;
    var left := places;
    while left != {}
      invariant forall q | q in places :: q in left || q < p
    {
      var q :| q in left;
      if p <= q { p := q + 1; }
      left := left - {q};
    }
  }

  lemma NewKey(record: Record, b64: Base64) returns (key: Key)
    requires b64.Lossless()
    ensures NewRecord(key, b64) != record
  {
    var zeros: Key := Zeros(KEY_SIZE);
    var other: Key := zeros[0 := 1];
    ParseNewRecord(zeros, b64);
    ParseNewRecord(other, b64);
    assert zeros[0] != other[0];
    key := if NewRecord(zeros, b64) == record then other else zeros;
  }

  /** A run that empties the cache and then lets one request see a failing read. */
  lemma UnsafeRun(s: State, c: Config) returns (run: seq<Action>)
    requires c.b64.Lossless() && c.create && s.lock.None? && s.store.Some?
    ensures Possible(s, run, c) && Final(s, run, c).store != s.store
  {
    hide NewRecord, Parse, SealUnder, Possible, Final, Script, GetOrCreate;
    var p := Unused(s.place.Keys);
    var key := NewKey(s.store.value, c.b64);
    var env := Env(true, Some(key), Written);
    var s1 := Next(s, Invalidate, c);
    var rest := Script(s1, p, env, c);
    UninterruptedRun(s1, p, env, c);
    RecordKeptIff(None, s.store, c.create, c.b64, env);
    Follow(s, Invalidate, rest, c);
    run := [Invalidate] + rest;
  }

  /**
   * The exact condition under which an existing record survives every run, failing reads included: the manager
   * must not be allowed to create keys.
   */
  lemma RecordSurvivesEveryRunIff(s: State, c: Config)
    requires c.b64.Lossless() && Exclusive(s) && s.lock.None? && s.store.Some?
    ensures (forall run | Possible(s, run, c) :: Final(s, run, c).store == s.store) <==> !c.create
  {
    hide Possible, Final, Next, Enabled;
    if c.create {
      var run := UnsafeRun(s, c);
    } else {
      assert NoneDrawn(s) by {
        forall p: Process ensures !At(s.place, p).Drawn? { assert !Inside(At(s.place, p)); }
      }
      forall run | Possible(s, run, c) ensures Final(s, run, c).store == s.store {
        ReadOnlyRun(s, run, c);
      }
    }
  }
}
