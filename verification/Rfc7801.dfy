/** Kuznyechik as RFC 7801 defines it: round transformations, key schedule, both directions. */
module Rfc7801 {
  import opened Bytes
  import opened LinearLayer
  import opened SBox

  /** The ten round keys K_1 .. K_10; `k[i]` is K_(i+1). */
  type RoundKeys = k: seq<Block> | |k| == 10
    witness [ZERO, ZERO, ZERO, ZERO, ZERO, ZERO, ZERO, ZERO, ZERO, ZERO]

  /** The transformation LSX[k] of section 4.3. */
  function LSX(k: Block, a: Block): Block { L(SLayer(Xor(a, k))) }

  function LSXInv(k: Block, a: Block): Block { Xor(SLayerInv(LInv(a)), k) }

  lemma LSXInverse(k: Block, a: Block)
    ensures LSXInv(k, LSX(k, a)) == a
    ensures LSX(k, LSXInv(k, a)) == a
  {
    hide L, LInv, SLayer, SLayerInv, Xor;
    LInverse(SLayer(Xor(a, k)));
    SLayerInverse(Xor(a, k));
    XorTwice(a, k);
    XorTwice(SLayerInv(LInv(a)), k);
    SLayerInverse(LInv(a));
    LInverse(a);
  }

  /** The first `n` rounds LSX[K_n] ... LSX[K_1]. */
  function Rounds(k: RoundKeys, a: Block, n: nat): Block
    requires n <= 9
  {
    if n == 0 then a else LSX(k[n - 1], Rounds(k, a, n - 1))
  }

  function RoundsInv(k: RoundKeys, a: Block, n: nat): Block
    requires n <= 9
    decreases n
  {
    if n == 0 then a else RoundsInv(k, LSXInv(k[n - 1], a), n - 1)
  }

  /** Section 4.5.1: X[K_10] LSX[K_9] ... LSX[K_1]. */
  function Encrypt(k: RoundKeys, a: Block): Block { Xor(Rounds(k, a, 9), k[9]) }

  /** Section 4.5.2: X[K_1] S^-1 L^-1 ... X[K_9] S^-1 L^-1 X[K_10]. */
  function Decrypt(k: RoundKeys, a: Block): Block { RoundsInv(k, Xor(a, k[9]), 9) }

  lemma {:induction false} RoundsUndone(k: RoundKeys, a: Block, n: nat)
    requires n <= 9
    ensures RoundsInv(k, Rounds(k, a, n), n) == a
    decreases n
  {
    hide LSX, LSXInv;
    if n == 0 {
    } else {
      LSXInverse(k[n - 1], Rounds(k, a, n - 1));
      RoundsUndone(k, a, n - 1);
    }
  }

  lemma {:induction false} RoundsRedone(k: RoundKeys, a: Block, n: nat)
    requires n <= 9
    ensures Rounds(k, RoundsInv(k, a, n), n) == a
    decreases n
  {
    hide LSX, LSXInv;
    if n == 0 {
    } else {
      RoundsRedone(k, LSXInv(k[n - 1], a), n - 1);
      LSXInverse(k[n - 1], a);
    }
  }

  /** For every key and every block the two directions undo each other. */
  lemma EncryptDecrypt(k: RoundKeys, a: Block)
    ensures Decrypt(k, Encrypt(k, a)) == a
    ensures Encrypt(k, Decrypt(k, a)) == a
  {
    hide Rounds, RoundsInv;
    XorTwice(Rounds(k, a, 9), k[9]);
    RoundsUndone(k, a, 9);
    RoundsRedone(k, Xor(a, k[9]), 9);
    XorTwice(a, k[9]);
  }

  /** Block encryption under given round keys, as a function of the block, and its inverse. */
  function Enc(k: RoundKeys): Block -> Block { b => Encrypt(k, b) }

  function Dec(k: RoundKeys): Block -> Block { b => Decrypt(k, b) }

  // Section 4.4: the key schedule.

  type MasterKey = k: seq<byte> | |k| == 32 witness seq(32, _ => 0)

  datatype KeyPair = KeyPair(a1: Block, a0: Block)

  /** The iteration constant C_(i+1) = L(Vec_128(i+1)). */
  function C(i: nat): Block
    requires i < 32
  {
    L(Place(15, i + 1))
  }

  /** One Feistel step F[C_(i+1)]. */
  function F(p: KeyPair, i: nat): KeyPair
    requires i < 32
  {
    KeyPair(Xor(LSX(C(i), p.a1), p.a0), p.a1)
  }

  function FInv(p: KeyPair, i: nat): KeyPair
    requires i < 32
  {
    KeyPair(p.a0, Xor(LSX(C(i), p.a0), p.a1))
  }

  /** The pair after the first `n` steps. */
  function Steps(p: KeyPair, n: nat): KeyPair
    requires n <= 32
  {
    if n == 0 then p else F(Steps(p, n - 1), n - 1)
  }

  function StepsInv(p: KeyPair, n: nat): KeyPair
    requires n <= 32
    decreases n
  {
    if n == 0 then p else StepsInv(FInv(p, n - 1), n - 1)
  }

  function Split(key: MasterKey): KeyPair { KeyPair(key[..16], key[16..]) }

  /** The pair (K_(2j+1), K_(2j+2)): the master key after 8j steps. */
  function RoundPair(key: MasterKey, j: nat): KeyPair
    requires j < 5
  {
    Steps(Split(key), 8 * j)
  }

  /** The ten round keys, two from each pair. */
  function Schedule(key: MasterKey): RoundKeys {
    seq(10, i requires 0 <= i < 10 =>
      if i % 2 == 0 then RoundPair(key, i / 2).a1 else RoundPair(key, i / 2).a0)
  }

  lemma FInverse(p: KeyPair, i: nat)
    requires i < 32
    ensures FInv(F(p, i), i) == p && F(FInv(p, i), i) == p
  {
    hide Xor, LSX;
    XorTwice(p.a0, LSX(C(i), p.a1));
    XorTwice(p.a1, LSX(C(i), p.a0));
  }

  lemma {:induction false} StepsInverse(p: KeyPair, n: nat)
    requires n <= 32
    ensures StepsInv(Steps(p, n), n) == p && Steps(StepsInv(p, n), n) == p
    decreases n
  {
    hide F, FInv;
    if n == 0 {
    } else {
      FInverse(Steps(p, n - 1), n - 1);
      StepsInverse(p, n - 1);
      StepsInverse(FInv(p, n - 1), n - 1);
      FInverse(p, n - 1);
    }
  }

  function Join(p: KeyPair): MasterKey { p.a1 + p.a0 }

  /** Any one of the five pairs of round keys determines the master key. */
  lemma PairDeterminesKey(key: MasterKey, j: nat)
    requires j < 5
    ensures Join(StepsInv(RoundPair(key, j), 8 * j)) == key
  {
    StepsInverse(Split(key), 8 * j);
  }

  lemma ScheduleAt(key: MasterKey, j: nat)
    requires j < 5
    ensures KeyPair(Schedule(key)[2 * j], Schedule(key)[2 * j + 1]) == RoundPair(key, j)
  {
    hide RoundPair;
  }

  /** Different master keys differ in all five pairs of their schedules. */
  lemma DistinctKeysDifferEverywhere(key: MasterKey, other: MasterKey, j: nat)
    requires key != other && j < 5
    ensures Schedule(key)[2 * j] != Schedule(other)[2 * j] ||
            Schedule(key)[2 * j + 1] != Schedule(other)[2 * j + 1]
  {
    hide Schedule, RoundPair;
    ScheduleAt(key, j);
    ScheduleAt(other, j);
    PairDeterminesKey(key, j);
    PairDeterminesKey(other, j);
  }

  /** Every pair of blocks is the j-th pair of exactly one master key. */
  lemma EveryPairHasAKey(p: KeyPair, j: nat)
    requires j < 5
    ensures RoundPair(Join(StepsInv(p, 8 * j)), j) == p
  {
    var q := StepsInv(p, 8 * j);
    StepsInverse(p, 8 * j);
    assert Split(Join(q)) == q;
  }
}
