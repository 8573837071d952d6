/** The known answer of section 5.5 of RFC 7801: the test block under the test key, round by round. */
module KnownAnswer {
  import opened Bytes
  import opened LinearLayer
  import opened SBox
  import opened Rfc7801
  import opened Vectors
  import opened KnownSchedule
  import KC = KuznyechikCipher

  const BLOCK: Block := [
    0x11, 0x22, 0x33, 0x44, 0x55, 0x66, 0x77, 0x00, 0xff, 0xee, 0xdd, 0xcc, 0xbb, 0xaa, 0x99, 0x88]

  const CIPHERTEXT: Block := [
    0x7f, 0x67, 0x9d, 0x90, 0xbe, 0xbc, 0x24, 0x30, 0x5a, 0x46, 0x8d, 0x42, 0xb9, 0xd4, 0xed, 0xcd]

  // The state before each round, and after its substitution.

  const A0 := Vec(0x11, 0x22, 0x33, 0x44, 0x55, 0x66, 0x77, 0x00, 0xff, 0xee, 0xdd, 0xcc, 0xbb, 0xaa, 0x99, 0x88)
  const A1 := Vec(0xe2, 0x97, 0xb6, 0x86, 0xe3, 0x55, 0xb0, 0xa1, 0xcf, 0x4a, 0x2f, 0x92, 0x49, 0x14, 0x08, 0x30)
  const A2 := Vec(0x28, 0x5e, 0x49, 0x7a, 0x08, 0x62, 0xd5, 0x96, 0xb3, 0x6f, 0x42, 0x58, 0xa1, 0xc6, 0x90, 0x72)
  const A3 := Vec(0x01, 0x87, 0xa3, 0xa4, 0x29, 0xb5, 0x67, 0x84, 0x1a, 0xd5, 0x0d, 0x29, 0x20, 0x7c, 0xc3, 0x4e)
  const A4 := Vec(0xec, 0x9b, 0xdb, 0xa0, 0x57, 0xd4, 0xf4, 0xd7, 0x7c, 0x5d, 0x70, 0x61, 0x9d, 0xca, 0xd2, 0x06)
  const A5 := Vec(0x13, 0x57, 0xfd, 0x11, 0xde, 0x92, 0x57, 0x29, 0x0c, 0x2a, 0x14, 0x73, 0xeb, 0x6b, 0xcd, 0xe1)
  const A6 := Vec(0x28, 0xae, 0x31, 0xe7, 0xd4, 0xc2, 0x35, 0x42, 0x61, 0x02, 0x7e, 0xf0, 0xb3, 0x28, 0x97, 0xdf)
  const A7 := Vec(0x07, 0xe2, 0x23, 0xd5, 0x60, 0x02, 0xc0, 0x13, 0xd3, 0xf5, 0xe6, 0xf7, 0x14, 0xb8, 0x6d, 0x2d)
  const A8 := Vec(0xcd, 0x8e, 0xf6, 0xcd, 0x97, 0xe0, 0xe0, 0x92, 0xa8, 0xe4, 0xcc, 0xa6, 0x1b, 0x38, 0xbf, 0x65)
  const A9 := Vec(0x0d, 0x8e, 0x40, 0xe4, 0xa8, 0x00, 0xd0, 0x6b, 0x2f, 0x1b, 0x37, 0xea, 0x37, 0x9e, 0xad, 0x8e)
  const T1 := Vec(0xe8, 0x7d, 0xe8, 0xb6, 0xe8, 0x7d, 0xe8, 0xb6, 0xb6, 0xb6, 0xb6, 0xb6, 0xb6, 0xb6, 0xb6, 0xb6)
  const T2 := Vec(0x14, 0xa2, 0x23, 0x5f, 0x94, 0xee, 0x24, 0x45, 0xe7, 0x91, 0x78, 0xf4, 0x07, 0x3b, 0xac, 0x61)
  const T3 := Vec(0xd2, 0xb1, 0xee, 0x1c, 0xcd, 0xda, 0xb0, 0x3f, 0x0f, 0x67, 0x81, 0x2f, 0x01, 0xee, 0x14, 0x8f)
  const T4 := Vec(0x7f, 0xb3, 0x59, 0xc3, 0x07, 0xc6, 0xf6, 0xbe, 0x4d, 0xd3, 0xa7, 0xe5, 0x3c, 0xa4, 0xd3, 0x68)
  const T5 := Vec(0x7d, 0xb6, 0x3b, 0x30, 0xde, 0x0a, 0x38, 0xb6, 0x41, 0x8c, 0x67, 0x21, 0x91, 0xa4, 0x5a, 0x38)
  const T6 := Vec(0x26, 0xb5, 0x91, 0xe2, 0x30, 0xe7, 0xae, 0xbb, 0xa3, 0x17, 0x39, 0x47, 0x61, 0x45, 0x94, 0xaf)
  const T7 := Vec(0x54, 0xf2, 0x75, 0xec, 0x38, 0xc8, 0x32, 0x4e, 0x77, 0x0c, 0x72, 0xf8, 0x9b, 0x81, 0x4d, 0xb2)
  const T8 := Vec(0xb7, 0x50, 0x31, 0x4c, 0xbb, 0x33, 0xcd, 0x01, 0xcf, 0x61, 0x7e, 0x0c, 0x8f, 0xd3, 0x7a, 0xb8)
  const T9 := Vec(0x8a, 0x6b, 0x93, 0x0a, 0x52, 0x21, 0x1b, 0x45, 0xc5, 0xba, 0xa4, 0x3f, 0xf8, 0xb9, 0x13, 0x19)
  const A10 := Vec(0x7f, 0x67, 0x9d, 0x90, 0xbe, 0xbc, 0x24, 0x30, 0x5a, 0x46, 0x8d, 0x42, 0xb9, 0xd4, 0xed, 0xcd)

  function Keys(): RoundKeys { Schedule(KEY) }

  predicate PairIs(j: nat, a1: Vec, a0: Vec)
    requires j < 5
  {
    Keys()[2 * j] == Of(a1) && Keys()[2 * j + 1] == Of(a0)
  }

  lemma FromPair(j: nat, a1: Vec, a0: Vec)
    requires j < 5 && Steps(Split(KEY), 8 * j) == KeyPair(Of(a1), Of(a0))
    ensures PairIs(j, a1, a0)
  {
    hide Steps, Split, Of, Schedule;
    ScheduleAt(KEY, j);
  }

  lemma RoundKeys1()
    ensures PairIs(0, P1, P0)
  {
    hide Steps, Split, Of, Keys, PairIs;
    Halves();
    NoStep(Split(KEY));
    FromPair(0, P1, P0);
  }

  lemma RoundKeys3()
    ensures PairIs(1, P9, P8)
  {
    hide Steps, Split, Of, Keys, PairIs;
    Step8();
    FromPair(1, P9, P8);
  }

  lemma RoundKeys5()
    ensures PairIs(2, P17, P16)
  {
    hide Steps, Split, Of, Keys, PairIs;
    Step16();
    FromPair(2, P17, P16);
  }

  lemma RoundKeys7()
    ensures PairIs(3, P25, P24)
  {
    hide Steps, Split, Of, Keys, PairIs;
    Step24();
    FromPair(3, P25, P24);
  }

  lemma RoundKeys9()
    ensures PairIs(4, P33, P32)
  {
    hide Steps, Split, Of, Keys, PairIs;
    Step32();
    FromPair(4, P33, P32);
  }

  lemma NoRound(k: RoundKeys, a: Block)
    ensures Rounds(k, a, 0) == a
  {
  }

  lemma OneRound(k: RoundKeys, a: Block, n: nat, b: Block, c: Block)
    requires n < 9 && Rounds(k, a, n) == b && LSX(k[n], b) == c
    ensures Rounds(k, a, n + 1) == c
  {
    hide LSX;
  }

  lemma Start()
    ensures Rounds(Keys(), BLOCK, 0) == Of(A0)
  {
    hide Keys, Rounds, Of;
    NoRound(Keys(), BLOCK);
    Bytes16(A0);
  }

  lemma Substituted1()
    ensures SLayer(Xor(Of(A0), Of(P1))) == Of(T1)
  {
    hide Of, SLayer, Xor;
    LayerOf(P1, A0, XorVec(A0, P1), T1);
  }

  lemma Round1()
    ensures Rounds(Keys(), BLOCK, 1) == Of(A1)
  {
    hide Keys, Rounds, LSX, L, Of, SLayer, Xor;
    Start();
    RoundKeys1();
    Substituted1();
    RoundOf(P1, A0, T1, A1);
    OneRound(Keys(), BLOCK, 0, Of(A0), Of(A1));
  }

  lemma Substituted2()
    ensures SLayer(Xor(Of(A1), Of(P0))) == Of(T2)
  {
    hide Of, SLayer, Xor;
    LayerOf(P0, A1, XorVec(A1, P0), T2);
  }

  lemma Round2()
    ensures Rounds(Keys(), BLOCK, 2) == Of(A2)
  {
    hide Keys, Rounds, LSX, L, Of, SLayer, Xor;
    Round1();
    RoundKeys1();
    Substituted2();
    RoundOf(P0, A1, T2, A2);
    OneRound(Keys(), BLOCK, 1, Of(A1), Of(A2));
  }

  lemma Substituted3()
    ensures SLayer(Xor(Of(A2), Of(P9))) == Of(T3)
  {
    hide Of, SLayer, Xor;
    LayerOf(P9, A2, XorVec(A2, P9), T3);
  }

  lemma Round3()
    ensures Rounds(Keys(), BLOCK, 3) == Of(A3)
  {
    hide Keys, Rounds, LSX, L, Of, SLayer, Xor;
    Round2();
    RoundKeys3();
    Substituted3();
    RoundOf(P9, A2, T3, A3);
    OneRound(Keys(), BLOCK, 2, Of(A2), Of(A3));
  }

  lemma Substituted4()
    ensures SLayer(Xor(Of(A3), Of(P8))) == Of(T4)
  {
    hide Of, SLayer, Xor;
    LayerOf(P8, A3, XorVec(A3, P8), T4);
  }

  lemma Round4()
    ensures Rounds(Keys(), BLOCK, 4) == Of(A4)
  {
    hide Keys, Rounds, LSX, L, Of, SLayer, Xor;
    Round3();
    RoundKeys3();
    Substituted4();
    RoundOf(P8, A3, T4, A4);
    OneRound(Keys(), BLOCK, 3, Of(A3), Of(A4));
  }

  lemma Substituted5()
    ensures SLayer(Xor(Of(A4), Of(P17))) == Of(T5)
  {
    hide Of, SLayer, Xor;
    LayerOf(P17, A4, XorVec(A4, P17), T5);
  }

  lemma Round5()
    ensures Rounds(Keys(), BLOCK, 5) == Of(A5)
  {
    hide Keys, Rounds, LSX, L, Of, SLayer, Xor;
    Round4();
    RoundKeys5();
    Substituted5();
    RoundOf(P17, A4, T5, A5);
    OneRound(Keys(), BLOCK, 4, Of(A4), Of(A5));
  }

  lemma Substituted6()
    ensures SLayer(Xor(Of(A5), Of(P16))) == Of(T6)
  {
    hide Of, SLayer, Xor;
    LayerOf(P16, A5, XorVec(A5, P16), T6);
  }

  lemma Round6()
    ensures Rounds(Keys(), BLOCK, 6) == Of(A6)
  {
    hide Keys, Rounds, LSX, L, Of, SLayer, Xor;
    Round5();
    RoundKeys5();
    Substituted6();
    RoundOf(P16, A5, T6, A6);
    OneRound(Keys(), BLOCK, 5, Of(A5), Of(A6));
  }

  lemma Substituted7()
    ensures SLayer(Xor(Of(A6), Of(P25))) == Of(T7)
  {
    hide Of, SLayer, Xor;
    LayerOf(P25, A6, XorVec(A6, P25), T7);
  }

  lemma Round7()
    ensures Rounds(Keys(), BLOCK, 7) == Of(A7)
  {
    hide Keys, Rounds, LSX, L, Of, SLayer, Xor;
    Round6();
    RoundKeys7();
    Substituted7();
    RoundOf(P25, A6, T7, A7);
    OneRound(Keys(), BLOCK, 6, Of(A6), Of(A7));
  }

  lemma Substituted8()
    ensures SLayer(Xor(Of(A7), Of(P24))) == Of(T8)
  {
    hide Of, SLayer, Xor;
    LayerOf(P24, A7, XorVec(A7, P24), T8);
  }

  lemma Round8()
    ensures Rounds(Keys(), BLOCK, 8) == Of(A8)
  {
    hide Keys, Rounds, LSX, L, Of, SLayer, Xor;
    Round7();
    RoundKeys7();
    Substituted8();
    RoundOf(P24, A7, T8, A8);
    OneRound(Keys(), BLOCK, 7, Of(A7), Of(A8));
  }

  lemma Substituted9()
    ensures SLayer(Xor(Of(A8), Of(P33))) == Of(T9)
  {
    hide Of, SLayer, Xor;
    LayerOf(P33, A8, XorVec(A8, P33), T9);
  }

  lemma Round9()
    ensures Rounds(Keys(), BLOCK, 9) == Of(A9)
  {
    hide Keys, Rounds, LSX, L, Of, SLayer, Xor;
    Round8();
    RoundKeys9();
    Substituted9();
    RoundOf(P33, A8, T9, A9);
    OneRound(Keys(), BLOCK, 8, Of(A8), Of(A9));
  }

  lemma Finish(k: RoundKeys, a: Block, b: Block)
    requires Rounds(k, a, 9) == b
    ensures Encrypt(k, a) == Xor(b, k[9])
  {
    hide Rounds, Xor;
  }

  /** The test block under the test key: pins the boxes, the linear layer, the constants and the order of all rounds. */
  lemma KnownEncryption()
    ensures Encrypt(Schedule(KEY), BLOCK) == CIPHERTEXT
  {
    hide Rounds, Encrypt, Of, Xor, Schedule, XorVec;
    Round9();
    RoundKeys9();
    Finish(Keys(), BLOCK, Of(A9));
    LastKey();
    XorVecOf(A9, P32);
    Bytes16(A10);
  }

  lemma LastKey()
    ensures XorVec(A9, P32) == A10
  {
  }

  lemma KnownDecryption()
    ensures Decrypt(Schedule(KEY), CIPHERTEXT) == BLOCK
  {
    hide Encrypt, Decrypt, Schedule;
    KnownEncryption();
    EncryptDecrypt(Schedule(KEY), BLOCK);
  }

  /** The entries of the box that this computation does not reach, as they stand in the code. */
  lemma OtherEntries()
    ensures S(10) == 250 && S(21) == 46 && S(32) == 249 && S(57) == 11
    ensures S(76) == 253 && S(94) == 93 && S(96) == 21 && S(97) == 161
    ensures S(100) == 16 && S(109) == 158 && S(137) == 121 && S(151) == 188
    ensures S(163) == 115 && S(166) == 98 && S(173) == 159 && S(179) == 146
    ensures S(180) == 39 && S(193) == 88 && S(196) == 134 && S(199) == 247
    ensures S(216) == 141 && S(217) == 83 && S(219) == 144 && S(224) == 32
    ensures S(234) == 37 && S(246) == 180
  {
  }

  /** The same on the code: a new cipher object, its buffers, both directions. */
  method EncryptTestBlock() returns (encrypted: seq<byte>, decrypted: seq<byte>)
    ensures encrypted == [
              0x7f, 0x67, 0x9d, 0x90, 0xbe, 0xbc, 0x24, 0x30, 0x5a, 0x46, 0x8d, 0x42, 0xb9, 0xd4, 0xed, 0xcd]
    ensures decrypted == BLOCK
  {
    hide KC.Cipher.Valid, KC.Cipher.Keys, KC.Cipher.E, Encrypt, Decrypt, Schedule;
    var r := KC.NewCipher(KEY);
    var src := new byte[16](i requires 0 <= i < 16 => BLOCK[i]);
    var dst := new byte[16];
    assert src[..] == BLOCK;
    r.value.Encrypt(dst, src);
    KnownEncryption();
    encrypted := dst[..];
    r.value.Decrypt(src, dst);
    KnownDecryption();
    decrypted := src[..];
  }
}
