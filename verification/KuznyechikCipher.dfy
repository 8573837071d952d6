/** The table-driven cipher object: key schedule, block encryption and block decryption. */
module KuznyechikCipher {
  import opened Binary
  import opened Bytes
  import opened LinearLayer
  import opened SBox
  import opened Words
  import opened Tables
  import Rfc = Rfc7801

  datatype Result<T> = Ok(value: T) | InvalidKeySize(size: nat)

  /** Row i of the table of iteration constants. */
  function Constant(i: nat): Words
    requires i < 32
  {
    Load(Rfc.C(i))
  }

  /** One step of the key schedule on a pair of round keys. */
  function F(k0: Words, k1: Words, i: nat): (Words, Words)
    requires i < 32
  {
    (XorWords(Ls(XorWords(k0, Constant(i))), k1), k0)
  }

  function Pair(k0: Words, k1: Words): Rfc.KeyPair { Rfc.KeyPair(Store(k0), Store(k1)) }

  lemma FIsFeistelStep(k0: Words, k1: Words, i: nat)
    requires i < 32
    ensures Pair(F(k0, k1, i).0, F(k0, k1, i).1) == Rfc.F(Pair(k0, k1), i)
  {
    hide Load, Store, XorWords, Ls, L, SLayer, Rfc.C, Xor;
    var c := Constant(i);
    StoreLoad(Rfc.C(i), c);
    StoreXor(k0, c);
    LsIsLS(XorWords(k0, c));
    StoreXor(Ls(XorWords(k0, c)), k1);
  }

  /** The two keys are the pair that `n` Feistel steps make of `start`. */
  ghost predicate PairAfter(start: Rfc.KeyPair, k0: Words, k1: Words, n: nat)
    requires n <= 32
  {
    Pair(k0, k1) == Rfc.Steps(start, n)
  }

  /** Eight steps of the schedule, two at a time. */
  method Fk(k0: Words, k1: Words, ist: nat, ghost start: Rfc.KeyPair) returns (o0: Words, o1: Words)
    requires ist + 8 <= 32
    requires PairAfter(start, k0, k1, ist)
    ensures PairAfter(start, o0, o1, ist + 8)
  {
    hide Pair, F, Rfc.F;
    o0, o1 := k0, k1;
    var i := 0;
    while i < 8
      invariant 0 <= i <= 8 && i % 2 == 0
      invariant Pair(o0, o1) == Rfc.Steps(start, ist + i)
    {
      var (t0, t1) := F(o0, o1, i + ist);
      FIsFeistelStep(o0, o1, i + ist);
      var (n0, n1) := F(t0, t1, i + 1 + ist);
      FIsFeistelStep(t0, t1, i + 1 + ist);
      o0, o1 := n0, n1;
      i := i + 2;
    }
  }

  /** A byte put by `|=` above the bytes already there. */
  lemma OrIntoPlace(low: seq<byte>, v: byte)
    requires |low| < 8
    ensures OrBits(LittleEndian(low), Pow2(8 * |low|) * v, 64) == LittleEndian(low) + Pow2(8 * |low|) * v
  {
    hide OrBits, LittleEndian, Pow2;
    LittleEndianBound(low);
    ByteFits(|low|);
    OrAbove(LittleEndian(low), v, 8 * |low|, 64 - 8 * |low|);
  }

  lemma ByteFits(i: nat)
    requires i < 8
    ensures 256 <= Pow2(64 - 8 * i)
  {
    Pow2Byte();
    Pow2Add(8, 56 - 8 * i);
    hide Pow2;
    assert 256 * Pow2(56 - 8 * i) >= 256;
  }

  /** The inverse box on the eight bytes of one word, each put back at its own bit offset. */
  method Isi(val: uint64) returns (res: uint64)
    ensures StoreWord(res) == SubstituteInv(StoreWord(val))
  {
    hide SInv, LowBytes, LittleEndian, OrBits, Pow2, StoreWord;
    var bytes := StoreWord(val);
    ghost var out := SubstituteInv(bytes);
    var r: nat := 0;
    var i := 0;
    EmptyLittleEndian(out[..0]);
    while i < 8
      invariant 0 <= i <= 8
      invariant r == LittleEndian(out[..i])
    {
      PutNext(out, r, i);
      r := OrBits(r, Pow2(8 * i) * SInv(bytes[i]), 64);
      i := i + 1;
    }
    res := WordOf(out, r);
  }

  lemma PutNext(out: seq<byte>, r: nat, i: nat)
    requires i < 8 == |out| && r == LittleEndian(out[..i])
    ensures OrBits(r, Pow2(8 * i) * out[i], 64) == LittleEndian(out[..i + 1])
  {
    hide LittleEndian, OrBits, Pow2;
    LittleEndianAppend(out[..i], out[i]);
    assert out[..i + 1] == out[..i] + [out[i]];
    OrIntoPlace(out[..i], out[i]);
  }

  method WordOf(ghost out: seq<byte>, r: nat) returns (res: uint64)
    requires |out| == 8 && r == LittleEndian(out[..8])
    ensures StoreWord(res) == out
  {
    hide LowBytes, LittleEndian;
    assert out[..8] == out;
    StoreLoadWord(out, 0);
    res := r;
  }

  function SubstituteInv(b: seq<byte>): (c: seq<byte>)
    ensures |c| == |b|
  {
    seq(|b|, i requires 0 <= i < |b| => SInv(b[i]))
  }

  /** Writes a block into a 16-byte buffer. */
  method Put(dst: array<byte>, b: Block)
    requires dst.Length == BLOCK_SIZE
    modifies dst
    ensures dst[..] == b
  {
    forall i | 0 <= i < BLOCK_SIZE { dst[i] := b[i]; }
  }

  lemma IlssZero()
    ensures Ilss(ZERO_WORDS) == ZERO_WORDS
  {
    hide Store, Load, Ilss, LInv;
    StoreZero();
    IlssIsLInv(ZERO_WORDS);
    LAdditive();
    AdditiveZero(LInv);
    StoreLoad(ZERO, ZERO_WORDS);
    StoreLoad(ZERO, Ilss(ZERO_WORDS));
  }

  /** The keys `Decrypt` uses: the first as it is, the others pushed through L^-1. */
  ghost predicate Equivalent(erk: seq<Words>, drk: seq<Words>) {
    && |erk| == 10 && |drk| == 10
    && drk[0] == erk[0]
    && forall i | 1 <= i < 10 :: drk[i] == Ilss(erk[i])
  }

  function Unpacked(k: seq<Words>): (r: Rfc.RoundKeys)
    requires |k| == 10
  {
    seq(10, i requires 0 <= i < 10 => Store(k[i]))
  }

  lemma FirstPair(key: Rfc.MasterKey)
    ensures PairAfter(Rfc.Split(key), Load(key[..16]), Load(key[16..]), 0)
  {
    hide Store, Load;
    StoreLoad(key[..16], ZERO_WORDS);
    StoreLoad(key[16..], ZERO_WORDS);
  }

  /** Keys that come in pairs from every eighth step make up the schedule. */
  lemma ScheduleFromPairs(key: Rfc.MasterKey, k: seq<Words>)
    requires |k| == 10
    requires forall j | 0 <= j < 5 :: PairAfter(Rfc.Split(key), k[2 * j], k[2 * j + 1], 8 * j)
    ensures Unpacked(k) == Rfc.Schedule(key)
  {
    hide Store, Rfc.Steps;
    forall i | 0 <= i < 10 ensures Unpacked(k)[i] == Rfc.Schedule(key)[i] {
      var j := i / 2;
      assert PairAfter(Rfc.Split(key), k[2 * j], k[2 * j + 1], 8 * j);
    }
  }

  /** The words after `n` look-up rounds of `Encrypt`. */
  function EncryptRounds(k: seq<Words>, x: Words, n: nat): Words
    requires |k| == 10 && n <= 9
  {
    if n == 0 then XorWords(x, k[0]) else XorWords(Ls(EncryptRounds(k, x, n - 1)), k[n])
  }

  /** Each look-up round is LSX of RFC 7801 with the key addition moved one round ahead. */
  lemma {:induction false} EncryptRoundsAreLSX(k: seq<Words>, x: Words, n: nat)
    requires |k| == 10 && n <= 9
    ensures Store(EncryptRounds(k, x, n)) == Xor(Rfc.Rounds(Unpacked(k), Store(x), n), Unpacked(k)[n])
  {
    hide Store, XorWords, Ls, L, SLayer, Xor;
    if n == 0 {
      StoreXor(x, k[0]);
    } else {
      var y := EncryptRounds(k, x, n - 1);
      EncryptRoundsAreLSX(k, x, n - 1);
      LsIsLS(y);
      StoreXor(Ls(y), k[n]);
    }
  }

  lemma EncryptRoundsAreRfc(k: seq<Words>, a: Block)
    requires |k| == 10
    ensures Store(EncryptRounds(k, Load(a), 9)) == Rfc.Encrypt(Unpacked(k), a)
  {
    hide Store, Load, Unpacked, Xor, EncryptRounds, Rfc.Rounds;
    StoreLoad(a, ZERO_WORDS);
    EncryptRoundsAreLSX(k, Load(a), 9);
  }

  /**
   * One more round of `Decrypt`. Going in, `t` is L^-1 of the RFC state y; L^-1 distributes
   * over the key addition, so with a transformed key the next state is again under L^-1.
   */
  lemma DecryptStep(erk: seq<Words>, drk: seq<Words>, t: Words, y: Block, n: nat)
    requires Equivalent(erk, drk) && 1 <= n < 9
    requires Store(t) == LInv(y)
    ensures Store(XorWords(Ils(t), drk[n])) == LInv(Rfc.LSXInv(Unpacked(erk)[n], y))
  {
    hide Store, XorWords, Ils, Ilss, LInv, SLayerInv, Xor;
    IlsIsInverseLayers(t);
    StoreXor(Ils(t), drk[n]);
    IlssIsLInv(erk[n]);
    LLinear(SLayerInv(LInv(y)), Store(erk[n]));
  }

  /** The opening of `Decrypt`: the cipher text and the last key each under L^-1. */
  lemma FirstDecryptStep(erk: seq<Words>, drk: seq<Words>, x: Words)
    requires Equivalent(erk, drk)
    ensures Store(XorWords(Ilss(x), drk[9])) == LInv(Xor(Store(x), Unpacked(erk)[9]))
  {
    hide Store, XorWords, Ilss, LInv, Xor;
    IlssIsLInv(x);
    StoreXor(Ilss(x), drk[9]);
    IlssIsLInv(erk[9]);
    LLinear(Store(x), Store(erk[9]));
  }

  /** The close of `Decrypt`: the inverse box alone, then the first key as it is. */
  lemma LastDecryptStep(erk: seq<Words>, drk: seq<Words>, t: Words, u: Words, y: Block)
    requires Equivalent(erk, drk) && Store(t) == LInv(y)
    requires StoreWord(u.lo) == SubstituteInv(StoreWord(t.lo))
    requires StoreWord(u.hi) == SubstituteInv(StoreWord(t.hi))
    ensures Store(XorWords(u, drk[0])) == Rfc.LSXInv(Unpacked(erk)[0], y)
  {
    hide StoreWord, XorWords, LInv, Xor, SInv;
    assert Store(u) == SLayerInv(Store(t));
    StoreXor(u, drk[0]);
  }

  class Cipher {
    /** Round keys for `Encrypt` and for `Decrypt`. */
    var erk: seq<Words>
    var drk: seq<Words>

    ghost predicate Valid()
      reads this
    {
      Equivalent(erk, drk)
    }

    /** The round keys as blocks. */
    ghost function Keys(): Rfc.RoundKeys
      reads this
      requires Valid()
    {
      Unpacked(erk)
    }

    /** What `Encrypt` does to a block. */
    ghost function E(): Block -> Block
      reads this
      requires Valid()
    {
      Rfc.Enc(Keys())
    }

    constructor (key: seq<byte>)
      requires |key| == 32
      ensures Valid() && Keys() == Rfc.Schedule(key)
    {
      hide Load, Ilss, PairAfter;
      var start := Rfc.Split(key);
      var k0, k1 := Load(key[..16]), Load(key[16..]);
      FirstPair(key);
      var k2, k3 := Fk(k0, k1, 0, start);
      var k4, k5 := Fk(k2, k3, 8, start);
      var k6, k7 := Fk(k4, k5, 16, start);
      var k8, k9 := Fk(k6, k7, 24, start);
      var e := [k0, k1, k2, k3, k4, k5, k6, k7, k8, k9];
      ScheduleFromPairs(key, e);
      var d := [k0];
      var i := 1;
      while i < 10
        invariant 1 <= i <= 10 && |d| == i
        invariant d[0] == e[0] && forall j | 1 <= j < i :: d[j] == Ilss(e[j])
      {
        d := d + [Ilss(e[i])];
        i := i + 1;
      }
      erk := e;
      drk := d;
    }

    /** Overwrites all round keys with zero. */
    method ZeroKey()
      requires Valid()
      modifies this
      ensures Valid()
      ensures erk == seq(10, _ => ZERO_WORDS) && drk == erk
    {
      hide Ilss;
      var i := 0;
      while i < |erk|
        invariant 0 <= i <= |erk| == 10 && drk == old(drk)
        invariant forall j | 0 <= j < i :: erk[j] == ZERO_WORDS
      {
        erk := erk[i := ZERO_WORDS];
        i := i + 1;
      }
      i := 0;
      while i < |drk|
        invariant 0 <= i <= |drk| == 10 && erk == seq(10, _ => ZERO_WORDS)
        invariant forall j | 0 <= j < i :: drk[j] == ZERO_WORDS
      {
        drk := drk[i := ZERO_WORDS];
        i := i + 1;
      }
      IlssZero();
    }

    /** `dst` may be the same buffer as `src`. */
    method Encrypt(dst: array<byte>, src: array<byte>)
      requires Valid() && dst.Length == 16 && src.Length == 16
      modifies dst
      ensures dst[..] == Rfc.Encrypt(Keys(), old(src[..])) == E()(old(src[..]))
    {
      hide Load, Store, XorWords, Ls, Ilss, Unpacked, Rfc.Encrypt;
      EncryptRoundsAreRfc(erk, src[..]);
      ghost var w := Load(src[..]);
      var x := Load(src[..]);
      x := XorWords(x, erk[0]);
      assert x == EncryptRounds(erk, w, 0);
      var t := XorWords(Ls(x), erk[1]);
      assert t == EncryptRounds(erk, w, 1);
      x := XorWords(Ls(t), erk[2]);
      assert x == EncryptRounds(erk, w, 2);
      t := XorWords(Ls(x), erk[3]);
      assert t == EncryptRounds(erk, w, 3);
      x := XorWords(Ls(t), erk[4]);
      assert x == EncryptRounds(erk, w, 4);
      t := XorWords(Ls(x), erk[5]);
      assert t == EncryptRounds(erk, w, 5);
      x := XorWords(Ls(t), erk[6]);
      assert x == EncryptRounds(erk, w, 6);
      t := XorWords(Ls(x), erk[7]);
      assert t == EncryptRounds(erk, w, 7);
      x := XorWords(Ls(t), erk[8]);
      assert x == EncryptRounds(erk, w, 8);
      t := XorWords(Ls(x), erk[9]);
      assert t == EncryptRounds(erk, w, 9);
      Put(dst, Store(t));
    }

    /** `dst` may be the same buffer as `src`. */
    method Decrypt(dst: array<byte>, src: array<byte>)
      requires Valid() && dst.Length == 16 && src.Length == 16
      modifies dst
      ensures dst[..] == Rfc.Decrypt(Keys(), old(src[..]))
    {
      hide Load, Store, XorWords, Ils, Ilss, Unpacked, LInv, Xor, SLayerInv;
      ghost var k := Unpacked(erk);
      ghost var a: Block := src[..];
      var x := Load(src[..]);
      StoreLoad(src[..], x);
      var t := XorWords(Ilss(x), drk[9]);
      ghost var y := Xor(a, k[9]);
      FirstDecryptStep(erk, drk, x);
      DecryptStep(erk, drk, t, y, 8);
      x := XorWords(Ils(t), drk[8]);
      y := Rfc.LSXInv(k[8], y);
      DecryptStep(erk, drk, x, y, 7);
      t := XorWords(Ils(x), drk[7]);
      y := Rfc.LSXInv(k[7], y);
      DecryptStep(erk, drk, t, y, 6);
      x := XorWords(Ils(t), drk[6]);
      y := Rfc.LSXInv(k[6], y);
      DecryptStep(erk, drk, x, y, 5);
      t := XorWords(Ils(x), drk[5]);
      y := Rfc.LSXInv(k[5], y);
      DecryptStep(erk, drk, t, y, 4);
      x := XorWords(Ils(t), drk[4]);
      y := Rfc.LSXInv(k[4], y);
      DecryptStep(erk, drk, x, y, 3);
      t := XorWords(Ils(x), drk[3]);
      y := Rfc.LSXInv(k[3], y);
      DecryptStep(erk, drk, t, y, 2);
      x := XorWords(Ils(t), drk[2]);
      y := Rfc.LSXInv(k[2], y);
      DecryptStep(erk, drk, x, y, 1);
      t := XorWords(Ils(x), drk[1]);
      y := Rfc.LSXInv(k[1], y);
      var lo := Isi(t.lo);
      var hi := Isi(t.hi);
      x := XorWords(Words(lo, hi), drk[0]);
      LastDecryptStep(erk, drk, t, Words(lo, hi), y);
      Put(dst, Store(x));
    }
  }

  /** `NewCipher`: a cipher for a 32-byte key, an error for any other length. */
  method NewCipher(key: seq<byte>) returns (r: Result<Cipher>)
    ensures |key| != 32 ==> r == InvalidKeySize(|key|)
    ensures |key| == 32 ==> r.Ok? && fresh(r.value) && r.value.Valid() && r.value.Keys() == Rfc.Schedule(key)
  {
    if |key| != 32 {
      return InvalidKeySize(|key|);
    }
    var c := new Cipher(key);
    r := Ok(c);
  }
}
