/** The linear layer of RFC 7801: R, L = R^16 and their inverses (sections 4.2 and 4.3). */
module LinearLayer {
  import opened Bytes
  import opened Galois

  /** Coefficients of the form l, from a_15 down to a_0 (section 4.1.2 of RFC 7801). */
  const COEF: seq<byte> := [148, 32, 133, 16, 194, 192, 1, 251, 1, 192, 194, 16, 133, 32, 148, 1]

  /** The first `n` terms of the linear form l. */
  function Form(b: Block, n: nat): byte
    requires n <= BLOCK_SIZE
  {
    if n == 0 then 0 else XorByte(Form(b, n - 1), Mul(COEF[n - 1], b[n - 1]))
  }

  function R(b: Block): Block {
    [Form(b, 16)] + b[..15]
  }

  function RInv(b: Block): Block {
    b[1..] + [Form(b[1..] + [b[0]], 16)]
  }

  function RPower(b: Block, n: nat): Block {
    if n == 0 then b else R(RPower(b, n - 1))
  }

  function RInvPower(b: Block, n: nat): Block
    decreases n
  {
    if n == 0 then b else RInvPower(RInv(b), n - 1)
  }

  function L(b: Block): Block { RPower(b, 16) }

  function LInv(b: Block): Block { RInvPower(b, 16) }

  lemma {:induction false} FormPrefix(a: Block, b: Block, n: nat)
    requires n <= BLOCK_SIZE && a[..n] == b[..n]
    ensures Form(a, n) == Form(b, n)
  {
    hide XorByte, Mul;
    if n == 0 {
    } else {
      assert a[..n][n - 1] == a[n - 1] && b[..n][n - 1] == b[n - 1];
      assert a[..n - 1] == a[..n][..n - 1] && b[..n - 1] == b[..n][..n - 1];
      FormPrefix(a, b, n - 1);
    }
  }

  /** The coefficient of a_0 is 1, so l splits into a sum without a_0 and a_0 itself. */
  lemma FormLast(b: Block)
    ensures Form(b, 16) == XorByte(Form(b, 15), b[15])
  {
    hide XorByte, Mul;
    MulOne(b[15]);
  }

  lemma RRInv(b: Block)
    ensures R(RInv(b)) == b
  {
    hide XorByte, Mul, Form;
    var rotated: Block := b[1..] + [b[0]];
    var c := RInv(b);
    FormPrefix(rotated, c, 15);
    FormLast(rotated);
    FormLast(c);
    XorByteTwice(Form(c, 15), b[0]);
  }

  lemma RInvR(b: Block)
    ensures RInv(R(b)) == b
  {
    hide XorByte, Mul, Form;
    var c := R(b);
    var rotated: Block := c[1..] + [c[0]];
    FormPrefix(rotated, b, 15);
    FormLast(rotated);
    FormLast(b);
    XorByteTwice(Form(b, 15), b[15]);
  }

  lemma {:induction false} RPowerUndone(b: Block, n: nat)
    ensures RInvPower(RPower(b, n), n) == b
  {
    hide R, RInv;
    if n == 0 {
    } else {
      RInvR(RPower(b, n - 1));
      RPowerUndone(b, n - 1);
    }
  }

  lemma {:induction false} RPowerRedone(b: Block, n: nat)
    ensures RPower(RInvPower(b, n), n) == b
    decreases n
  {
    hide R, RInv;
    if n == 0 {
    } else {
      RPowerRedone(RInv(b), n - 1);
      RRInv(b);
    }
  }

  /** L and LInv undo each other on every block. */
  lemma LInverse(b: Block)
    ensures LInv(L(b)) == b && L(LInv(b)) == b
  {
    hide RPower, RInvPower;
    RPowerUndone(b, 16);
    RPowerRedone(b, 16);
  }

  lemma {:induction false} FormLinear(a: Block, b: Block, n: nat)
    requires n <= BLOCK_SIZE
    ensures Form(Xor(a, b), n) == XorByte(Form(a, n), Form(b, n))
  {
    hide XorByte, Mul;
    if n == 0 {
      XorByteZero(0);
    } else {
      var c, x, y := COEF[n - 1], a[n - 1], b[n - 1];
      FormLinear(a, b, n - 1);
      MulLinear(c, x, y);
      XorByteRegroup(Form(a, n - 1), Form(b, n - 1), Mul(c, x), Mul(c, y));
    }
  }

  lemma RLinear(a: Block, b: Block)
    ensures R(Xor(a, b)) == Xor(R(a), R(b))
  {
    hide XorByte, Mul, Form;
    FormLinear(a, b, 16);
  }

  lemma {:induction false} RPowerLinear(a: Block, b: Block, n: nat)
    ensures RPower(Xor(a, b), n) == Xor(RPower(a, n), RPower(b, n))
  {
    hide Xor, R;
    if n == 0 {
    } else {
      RPowerLinear(a, b, n - 1);
      RLinear(RPower(a, n - 1), RPower(b, n - 1));
    }
  }

  ghost predicate Additive(m: Block -> Block) {
    forall a: Block, b: Block :: m(Xor(a, b)) == Xor(m(a), m(b))
  }

  /** Both directions of the linear layer distribute over XOR. */
  lemma LLinear(a: Block, b: Block)
    ensures L(Xor(a, b)) == Xor(L(a), L(b))
    ensures LInv(Xor(a, b)) == Xor(LInv(a), LInv(b))
  {
    hide RPower, RInvPower, Xor, LInv;
    RPowerLinear(a, b, 16);
    var c: Block := Xor(LInv(a), LInv(b));
    RPowerLinear(LInv(a), LInv(b), 16);
    LInverse(a);
    LInverse(b);
    assert L(c) == Xor(a, b);
    LInverse(c);
  }

  lemma LAdditive()
    ensures Additive(L) && Additive(LInv)
  {
    hide L, LInv;
    forall a: Block, b: Block
      ensures L(Xor(a, b)) == Xor(L(a), L(b)) && LInv(Xor(a, b)) == Xor(LInv(a), LInv(b))
    {
      LLinear(a, b);
    }
  }
}
