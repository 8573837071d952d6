/** The CMAC subkeys: doubling in GF(2^128), after section 6.1 of NIST SP 800-38B. */
module Subkeys {
  import opened Binary
  import opened Bytes
  import opened BigEndian
  import opened Doubling

  /** The polynomial x^128 + x^7 + x^2 + x + 1 without its leading term. */
  const RB: Block := ZERO[15 := 0x87]

  /** Multiplication by x in GF(2^128), as the subkey generation does it on bytes. */
  function Double(b: Block): Block {
    var shifted := ShiftLeft(b, 0);
    if b[0] >= 0x80 then Xor(shifted, RB) else shifted
  }

  lemma ValueRB()
    ensures Value(RB) == 0x87
  {
    assert Init(RB) == Zeros(15);
    ValueZeros(15);
  }

  lemma {:induction false} TopBit(s: seq<byte>)
    requires s != []
    ensures s[0] >= 0x80 <==> 2 * Value(s) >= Range(|s|)
  {
    if |s| == 1 {
      RangeStep(0);
      ValueZeros(0);
      assert Value(Init(s)) == 0;
    } else {
      TopBit(Init(s));
      ValueSplit(s);
      hide Value, Range;
      RangeStep(|s| - 1);
      EvenRange(|s| - 1);
      TopBitStep(Value(Init(s)), Last(s), Pow2(8 * (|s| - 1) - 1));
    }
  }

  lemma EvenRange(n: nat)
    requires n > 0
    ensures Range(n) == 2 * Pow2(8 * n - 1)
  {
  }

  lemma TopBitStep(v: nat, last: byte, half: nat)
    ensures v >= half <==> 256 * v + last >= 256 * half
  {
  }

  /** The byte-wise doubling is multiplication by x modulo the polynomial. */
  lemma DoubleIsTimesX(b: Block)
    ensures Value(b) < Pow2(128) && 0x87 < Pow2(128)
    ensures Value(Double(b)) == TimesX(Value(b), 128, 0x87)
  {
    hide Value, ShiftLeft, XorBits, Xor;
    ValueBound(b);
    ValueRB();
    ValueBound(RB);
    TopBit(b);
    ShiftLeftDoubles(b);
    ValueXor(ShiftLeft(b, 0), RB);
  }

  lemma DoubleInjective(a: Block, b: Block)
    requires Double(a) == Double(b)
    ensures a == b
  {
    hide Double, TimesX, Digits;
    DoubleIsTimesX(a);
    DoubleIsTimesX(b);
    assert Digits(0x87, 128)[0] by { LowestDigit(0x87, 128); }
    TimesXInjective(Value(a), Value(b), 128, 0x87);
    ValueInjective(a, b);
  }

  lemma LowestDigit(n: nat, k: nat)
    requires k > 0
    ensures Digits(n, k)[0] == (n % 2 == 1)
  {
  }

  /** Doubling is additive, as multiplication in a field is. */
  lemma DoubleLinear(a: Block, b: Block)
    ensures Double(Xor(a, b)) == Xor(Double(a), Double(b))
  {
    hide Double, TimesX, Xor, XorBits;
    DoubleIsTimesX(a);
    DoubleIsTimesX(b);
    DoubleIsTimesX(Xor(a, b));
    ValueXor(a, b);
    ValueXor(Double(a), Double(b));
    TimesXLinear(Value(a), Value(b), 128, 0x87);
    ValueInjective(Double(Xor(a, b)), Xor(Double(a), Double(b)));
  }

  /** `n` shifted right by `i` places. */
  function ShiftRight(n: nat, i: nat): nat {
    if i == 0 then n else ShiftRight(n / 2, i - 1)
  }

  lemma {:induction false} DigitAt(n: nat, k: nat, i: nat)
    requires i < k
    ensures Digits(n, k)[i] == (ShiftRight(n, i) % 2 == 1)
  {
    if i == 0 {
    } else {
      DigitAt(n / 2, k - 1, i - 1);
      assert Digits(n, k)[i] == Digits(n / 2, k - 1)[i - 1];
    }
  }

  lemma {:induction false} ShiftedOut(n: nat, j: nat, i: nat)
    requires n < Pow2(j) && j <= i
    ensures ShiftRight(n, i) == 0
    decreases i
  {
    if i == 0 {
    } else {
      ShiftedOut(n / 2, if j == 0 then 0 else j - 1, i - 1);
    }
  }

  /** The digits of 0x87: the polynomial x^7 + x^2 + x + 1. */
  lemma RBDigits(k: nat, i: nat)
    requires i < k
    ensures Digits(0x87, k)[i] <==> i == 0 || i == 1 || i == 2 || i == 7
  {
    DigitAt(0x87, k, i);
    hide Digits;
    if i < 8 {
      assert ShiftRight(0x87, 0) == 0x87 && ShiftRight(0x87, 1) == 67 && ShiftRight(0x87, 2) == 33;
      assert ShiftRight(0x87, 3) == 16 && ShiftRight(0x87, 4) == 8 && ShiftRight(0x87, 5) == 4;
      assert ShiftRight(0x87, 6) == 2 && ShiftRight(0x87, 7) == 1;
    } else {
      Pow2Byte();
      ShiftedOut(0x87, 8, i);
    }
  }

  /**
   * Coefficient i of the doubled block, as a polynomial, is coefficient i - 1 of the block, plus
   * the leading coefficient when i is an exponent of x^7 + x^2 + x + 1.
   */
  lemma DoubleCoefficients(b: Block, i: nat)
    requires i < 128
    ensures var d := Digits(Value(b), 128);
      Digits(Value(Double(b)), 128)[i] ==
      ((i > 0 && d[i - 1]) != (d[127] && (i == 0 || i == 1 || i == 2 || i == 7)))
  {
    hide Double, TimesX, Digits, Value;
    DoubleIsTimesX(b);
    RBDigits(128, i);
    TimesXCoefficients(Value(b), 128, 0x87, i);
  }

  lemma DoubleZero()
    ensures Double(ZERO) == ZERO
  {
    hide Xor;
    ValueZeros(16);
    ShiftLeftDoubles(ZERO);
    ValueInjective(Double(ZERO), ZERO);
  }

  /** Only zero is left where it is by doubling, since x + 1 is invertible in the field. */
  lemma FixedPointIsZero(b: Block)
    requires Double(b) == b
    ensures b == ZERO
  {
    hide Double, Digits, Value;
    var d := Digits(Value(b), 128);
    DoubleCoefficients(b, 0);
    DoubleCoefficients(b, 1);
    DoubleCoefficients(b, 2);
    DigitsFromSeven(b, 127);
    ConstantDigits(b, 7);
    forall i | 0 <= i < 128 ensures !d[i] {
      if i < 7 { ConstantDigits(b, i); } else { DigitsFromSeven(b, i); }
    }
    DigitsZero(128);
    assert d == Digits(0, 128);
    ValueZeros(16);
    ValueBound(b);
    DigitsInjective(Value(b), Value(ZERO), 128);
    ValueInjective(b, ZERO);
  }

  /** Of a fixed point, the coefficients 3 to 6 agree with coefficient 2. */
  lemma {:induction false} ConstantDigits(b: Block, i: nat)
    requires Double(b) == b && i <= 7
    ensures var d := Digits(Value(b), 128);
      d[i] == (d[127] && i != 1 && i != 7)
  {
    hide Double, Digits, Value;
    DoubleCoefficients(b, i);
    if i == 0 {
    } else {
      ConstantDigits(b, i - 1);
    }
  }

  /** Of a fixed point, the coefficients from 7 on agree. */
  lemma {:induction false} DigitsFromSeven(b: Block, i: nat)
    requires Double(b) == b && 7 <= i < 128
    ensures Digits(Value(b), 128)[i] == Digits(Value(b), 128)[7]
  {
    hide Double, Digits, Value;
    if i > 7 {
      DigitsFromSeven(b, i - 1);
      DoubleCoefficients(b, i);
    }
  }

  function K1(e: Block -> Block): Block { Double(e(ZERO)) }

  function K2(e: Block -> Block): Block { Double(K1(e)) }

  /** The subkeys are non-zero and distinct exactly when the cipher does not fix the zero block. */
  lemma SubkeysDistinct(e: Block -> Block)
    ensures K1(e) != ZERO <==> e(ZERO) != ZERO
    ensures K2(e) != ZERO <==> e(ZERO) != ZERO
    ensures K1(e) != K2(e) <==> e(ZERO) != ZERO
  {
    hide Double;
    DoubleZero();
    if K1(e) == ZERO { DoubleInjective(e(ZERO), ZERO); }
    if K2(e) == ZERO { DoubleInjective(K1(e), ZERO); DoubleInjective(e(ZERO), ZERO); }
    if K1(e) == K2(e) { FixedPointIsZero(K1(e)); DoubleInjective(e(ZERO), ZERO); }
  }

  /** K1 is x times, K2 x squared times the encrypted zero block, in GF(2^128). */
  lemma SubkeyValues(e: Block -> Block)
    ensures var l := Value(e(ZERO));
      && l < Pow2(128) && 0x87 < Pow2(128)
      && Value(K1(e)) == TimesX(l, 128, 0x87)
      && Value(K2(e)) == TimesX(TimesX(l, 128, 0x87), 128, 0x87)
  {
    hide Double, TimesX, Value;
    DoubleIsTimesX(e(ZERO));
    DoubleIsTimesX(K1(e));
  }
}
