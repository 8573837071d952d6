/**
 * The look-up tables of the cipher and the three loop-free functions that read them.
 *
 * Row t[i][v] is L applied to s[v] standing alone at byte i; row it[i][v] is the inverse of L
 * applied to is[v] standing alone at byte i.
 */
module Tables {
  import opened Bytes
  import opened LinearLayer
  import opened SBox
  import opened Words

  datatype Table = T | IT

  function Row(t: Table, i: nat, v: byte): Words
    requires i < BLOCK_SIZE
  {
    match t
    case T => Load(L(Place(i, S(v))))
    case IT => Load(LInv(Place(i, SInv(v))))
  }

  /** XOR of the first `n` rows selected by the bytes of `lanes`. */
  function XorRows(t: Table, lanes: Block, n: nat): Words
    requires n <= BLOCK_SIZE
  {
    if n == 0 then ZERO_WORDS
    else XorWords(XorRows(t, lanes, n - 1), Row(t, n - 1, lanes[n - 1]))
  }

  function Ls(x: Words): Words { XorRows(T, Store(x), 16) }

  function Ils(x: Words): Words { XorRows(IT, Store(x), 16) }

  function Ilss(x: Words): Words { XorRows(IT, SLayer(Store(x)), 16) }

  /** The first `n` bytes of `b`, the rest zero. */
  function Prefix(b: Block, n: nat): Block
    requires n <= BLOCK_SIZE
  {
    b[..n] + Zeros(BLOCK_SIZE - n)
  }

  lemma PrefixGrows(b: Block, n: nat)
    requires n < BLOCK_SIZE
    ensures Prefix(b, n + 1) == Xor(Prefix(b, n), Place(n, b[n]))
  {
    var p, q := Prefix(b, n), Place(n, b[n]);
    forall i | 0 <= i < BLOCK_SIZE ensures Prefix(b, n + 1)[i] == Xor(p, q)[i] {
      hide XorByte;
      XorByteZero(p[i]);
      XorByteZero(q[i]);
    }
  }

  lemma AdditiveZero(m: Block -> Block)
    requires Additive(m)
    ensures m(ZERO) == ZERO
  {
    hide Xor;
    XorSelf(ZERO);
    XorSelf(m(ZERO));
  }

  /** XOR of `m` over the single bytes of the first `n` places of `b`. */
  function SumOverPlaces(m: Block -> Block, b: Block, n: nat): Block
    requires n <= BLOCK_SIZE
  {
    if n == 0 then ZERO else Xor(SumOverPlaces(m, b, n - 1), m(Place(n - 1, b[n - 1])))
  }

  /** An additive map is determined by what it does to single bytes. */
  lemma {:induction false} AdditiveByPlaces(m: Block -> Block, b: Block, n: nat)
    requires Additive(m) && n <= BLOCK_SIZE
    ensures SumOverPlaces(m, b, n) == m(Prefix(b, n))
  {
    hide Xor, Place;
    if n == 0 {
      AdditiveZero(m);
      assert Prefix(b, 0) == ZERO;
    } else {
      AdditiveByPlaces(m, b, n - 1);
      PrefixGrows(b, n - 1);
    }
  }

  lemma AdditiveOnBlock(m: Block -> Block, b: Block)
    requires Additive(m)
    ensures SumOverPlaces(m, b, 16) == m(b)
  {
    AdditiveByPlaces(m, b, 16);
    assert Prefix(b, 16) == b;
  }

  lemma {:induction false} XorRowsT(lanes: Block, n: nat)
    requires n <= BLOCK_SIZE
    ensures Store(XorRows(T, lanes, n)) == SumOverPlaces(L, SLayer(lanes), n)
  {
    hide Store, Load, XorWords, Xor, L, LInv, S, SInv, Place;
    if n == 0 {
      StoreZero();
    } else {
      XorRowsT(lanes, n - 1);
      StoreXor(XorRows(T, lanes, n - 1), Row(T, n - 1, lanes[n - 1]));
      StoreLoad(L(Place(n - 1, S(lanes[n - 1]))), ZERO_WORDS);
    }
  }

  lemma {:induction false} XorRowsIT(lanes: Block, n: nat)
    requires n <= BLOCK_SIZE
    ensures Store(XorRows(IT, lanes, n)) == SumOverPlaces(LInv, SLayerInv(lanes), n)
  {
    hide Store, Load, XorWords, Xor, L, LInv, S, SInv, Place;
    if n == 0 {
      StoreZero();
    } else {
      XorRowsIT(lanes, n - 1);
      StoreXor(XorRows(IT, lanes, n - 1), Row(IT, n - 1, lanes[n - 1]));
      StoreLoad(LInv(Place(n - 1, SInv(lanes[n - 1]))), ZERO_WORDS);
    }
  }

  /** `ls` is the composition of the two layers, L after S. */
  lemma LsIsLS(x: Words)
    ensures Store(Ls(x)) == L(SLayer(Store(x)))
  {
    hide XorRows, SumOverPlaces, L, LInv, SLayer, SLayerInv;
    LAdditive();
    XorRowsT(Store(x), 16);
    AdditiveOnBlock(L, SLayer(Store(x)));
  }

  /** `ils` is the inverse of L after the inverse of S. */
  lemma IlsIsInverseLayers(x: Words)
    ensures Store(Ils(x)) == LInv(SLayerInv(Store(x)))
  {
    hide XorRows, SumOverPlaces, L, LInv, SLayer, SLayerInv;
    LAdditive();
    XorRowsIT(Store(x), 16);
    AdditiveOnBlock(LInv, SLayerInv(Store(x)));
  }

  /** `ilss` cancels the box first, leaving the inverse of L alone. */
  lemma IlssIsLInv(x: Words)
    ensures Store(Ilss(x)) == LInv(Store(x))
  {
    hide XorRows, SumOverPlaces, L, LInv, SLayer, SLayerInv;
    LAdditive();
    XorRowsIT(SLayer(Store(x)), 16);
    SLayerInverse(Store(x));
    AdditiveOnBlock(LInv, Store(x));
  }
}
