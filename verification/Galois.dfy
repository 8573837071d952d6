/**
 * Multiplication by x in GF(2)[x] modulo a polynomial x^k + r(x), on k-bit numbers whose
 * bit i is the coefficient of x^i. The cipher uses k = 8, the MAC subkeys k = 128.
 */
module Doubling {
  import opened Binary

  /** Shift, then take the modulus away when x^k has appeared. */
  function TimesX(a: nat, k: nat, r: nat): (b: nat)
    requires k > 0 && a < Pow2(k) && r < Pow2(k)
    ensures b < Pow2(k)
  {
    if 2 * a >= Pow2(k) then XorBits(Shift(a, k), r, k) else Shift(a, k)
  }

  /** The part of the modulus that `TimesX` takes away. */
  function Taken(a: nat, k: nat, r: nat): nat {
    if 2 * a >= Pow2(k) then r else 0
  }

  lemma TimesXIsShift(a: nat, k: nat, r: nat)
    requires k > 0 && a < Pow2(k) && r < Pow2(k)
    ensures TimesX(a, k, r) == XorBits(Shift(a, k), Taken(a, k, r), k)
  {
    hide XorBits, Shift;
    XorBitsZero(Shift(a, k), k);
  }

  /**
   * Coefficient i of x * a is coefficient i - 1 of a, plus coefficient i of r whenever a has
   * degree k - 1: exactly the product in GF(2)[x] modulo x^k + r(x).
   */
  lemma TimesXCoefficients(a: nat, k: nat, r: nat, i: nat)
    requires k > 0 && a < Pow2(k) && r < Pow2(k) && i < k
    ensures var d := Digits(a, k);
      Digits(TimesX(a, k, r), k)[i] == ((i > 0 && d[i - 1]) != (d[k - 1] && Digits(r, k)[i]))
  {
    hide XorBits, Digits, Shift;
    TopDigit(a, k);
    ShiftDigits(a, k);
    XorBitsDigits(Shift(a, k), r, k);
  }

  lemma TakenXor(a: nat, b: nat, k: nat, r: nat)
    requires k > 0 && a < Pow2(k) && b < Pow2(k) && r < Pow2(k)
    ensures Taken(XorBits(a, b, k), k, r) == XorBits(Taken(a, k, r), Taken(b, k, r), k)
  {
    hide XorBits, Digits;
    XorBitsDigits(a, b, k);
    TopDigit(a, k);
    TopDigit(b, k);
    TopDigit(XorBits(a, b, k), k);
    XorBitsSelf(r, k);
    XorBitsZero(0, k);
    XorBitsZero(r, k);
    XorBitsComm(r, 0, k);
  }

  lemma XorBitsRegroup(p: nat, q: nat, r: nat, s: nat, k: nat)
    ensures XorBits(XorBits(p, q, k), XorBits(r, s, k), k) == XorBits(XorBits(p, r, k), XorBits(q, s, k), k)
  {
    hide XorBits;
    XorBitsAssoc(p, q, XorBits(r, s, k), k);
    XorBitsAssoc(q, r, s, k);
    XorBitsComm(q, r, k);
    XorBitsAssoc(r, q, s, k);
    XorBitsAssoc(p, r, XorBits(q, s, k), k);
  }

  /** Multiplication by x is additive. */
  lemma TimesXLinear(a: nat, b: nat, k: nat, r: nat)
    requires k > 0 && a < Pow2(k) && b < Pow2(k) && r < Pow2(k)
    ensures TimesX(XorBits(a, b, k), k, r) == XorBits(TimesX(a, k, r), TimesX(b, k, r), k)
  {
    hide XorBits, Shift, Taken, TimesX;
    TimesXIsShift(a, k, r);
    TimesXIsShift(b, k, r);
    TimesXIsShift(XorBits(a, b, k), k, r);
    ShiftXor(a, b, k);
    TakenXor(a, b, k, r);
    XorBitsRegroup(Shift(a, k), Shift(b, k), Taken(a, k, r), Taken(b, k, r), k);
  }

  /** With constant term 1 in the modulus, multiplication by x is injective. */
  lemma TimesXInjective(a: nat, b: nat, k: nat, r: nat)
    requires k > 0 && a < Pow2(k) && b < Pow2(k) && r < Pow2(k) && Digits(r, k)[0]
    requires TimesX(a, k, r) == TimesX(b, k, r)
    ensures a == b
  {
    hide XorBits, Digits, Shift, TimesX;
    TimesXCoefficients(a, k, r, 0);
    TimesXCoefficients(b, k, r, 0);
    forall i | 0 <= i < k ensures Digits(a, k)[i] == Digits(b, k)[i] {
      if i < k - 1 {
        TimesXCoefficients(a, k, r, i + 1);
        TimesXCoefficients(b, k, r, i + 1);
      }
    }
    DigitsInjective(a, b, k);
  }
}

/** Arithmetic in GF(2^8) modulo x^8 + x^7 + x^6 + x + 1 (section 2.2 of RFC 7801). */
module Galois {
  import opened Binary
  import opened Bytes
  import opened Doubling

  /** The field polynomial x^8 + x^7 + x^6 + x + 1 without its leading term. */
  const MODULUS_LOW: byte := 0xC3

  /** Multiplication by x. */
  function XTime(a: byte): byte {
    Pow2Byte();
    TimesX(a, 8, MODULUS_LOW)
  }

  /** `a` if the constant term of `c` is 1, else zero. */
  function Gate(c: byte, a: byte): byte { if c % 2 == 1 then a else 0 }

  /** Shift-and-add product of two field elements. */
  function Mul(c: byte, a: byte): byte
    decreases c
  {
    if c == 0 then 0 else XorByte(Gate(c, a), Mul(c / 2, XTime(a)))
  }

  lemma XTimeLinear(a: byte, b: byte)
    ensures XTime(XorByte(a, b)) == XorByte(XTime(a), XTime(b))
  {
    Pow2Byte();
    hide XorBits, TimesX;
    TimesXLinear(a, b, 8, MODULUS_LOW);
  }

  lemma GateLinear(c: byte, a: byte, b: byte)
    ensures Gate(c, XorByte(a, b)) == XorByte(Gate(c, a), Gate(c, b))
  {
    hide XorByte;
    XorByteZero(0);
  }

  /** Multiplication by a fixed field element is additive. */
  lemma {:induction false} MulLinear(c: byte, a: byte, b: byte)
    ensures Mul(c, XorByte(a, b)) == XorByte(Mul(c, a), Mul(c, b))
    decreases c
  {
    hide XorByte, XTime, Gate;
    if c == 0 {
      XorByteZero(0);
    } else {
      XTimeLinear(a, b);
      GateLinear(c, a, b);
      MulLinear(c / 2, XTime(a), XTime(b));
      XorByteRegroup(Gate(c, a), Gate(c, b), Mul(c / 2, XTime(a)), Mul(c / 2, XTime(b)));
    }
  }

  lemma MulOne(a: byte)
    ensures Mul(1, a) == a
  {
    hide XorByte, XTime;
    assert Mul(0, XTime(a)) == 0;
    XorByteZero(a);
  }

  // The reference: plain products of polynomials over GF(2), degree at most 15.

  lemma Pow2Poly()
    ensures Pow2(8) == 256 && Pow2(16) == 65536
  {
    Pow2Byte();
    assert Pow2(12) == 4096;
  }

  type Poly = p: nat | p < 65536

  function Add(p: Poly, q: Poly): Poly { Pow2Poly(); XorBits(p, q, 16) }

  function TimesPolyX(p: Poly): Poly { Pow2Poly(); Shift(p, 16) }

  function PolyGate(c: byte, p: Poly): Poly { if c % 2 == 1 then p else 0 }

  /** The full field polynomial. */
  const MODULUS: Poly := 0x1C3

  /** Product of `c`, of degree at most 7, and `p`, without reduction. */
  function PolyMul(c: byte, p: Poly): Poly
    decreases c
  {
    if c == 0 then 0 else Add(PolyGate(c, p), PolyMul(c / 2, TimesPolyX(p)))
  }

  /** What reducing c * a divides out: its multiplier of the modulus. */
  function Quotient(c: byte, a: byte): byte
    decreases c
  {
    if c == 0 then 0 else XorByte(Quotient(c / 2, XTime(a)), if a >= 128 then c / 2 else 0)
  }

  lemma AddLaws(p: Poly, q: Poly, r: Poly, s: Poly)
    ensures Add(p, 0) == p && Add(0, p) == p
    ensures Add(Add(p, q), Add(r, s)) == Add(Add(p, r), Add(q, s))
    ensures Add(p, Add(Add(q, r), s)) == Add(Add(q, s), Add(p, r))
  {
    Pow2Poly();
    hide XorBits;
    XorBitsZero(p, 16);
    XorBitsComm(p, 0, 16);
    XorBitsRegroup(p, q, r, s, 16);
    XorBitsComm(p, XorBits(XorBits(q, r, 16), s, 16), 16);
    XorBitsAssoc(XorBits(q, r, 16), s, p, 16);
    XorBitsComm(s, p, 16);
    XorBitsAssoc(XorBits(q, r, 16), p, s, 16);
    XorBitsRegroup(q, r, s, p, 16);
    XorBitsComm(r, p, 16);
  }

  lemma PolyMulUnfold(c: byte, p: Poly)
    ensures PolyMul(c, p) == Add(PolyGate(c, p), PolyMul(c / 2, TimesPolyX(p)))
  {
    hide Add;
    AddLaws(0, 0, 0, 0);
  }

  lemma TimesPolyXLinear(p: Poly, q: Poly)
    ensures TimesPolyX(Add(p, q)) == Add(TimesPolyX(p), TimesPolyX(q))
    ensures TimesPolyX(0) == 0
  {
    Pow2Poly();
    ShiftXor(p, q, 16);
  }

  lemma {:induction false} PolyMulAddRight(c: byte, p: Poly, q: Poly)
    ensures PolyMul(c, Add(p, q)) == Add(PolyMul(c, p), PolyMul(c, q))
    ensures PolyMul(c, 0) == 0
    decreases c
  {
    hide Add, TimesPolyX;
    AddLaws(0, 0, 0, 0);
    TimesPolyXLinear(p, q);
    if c != 0 {
      PolyMulAddRight(c / 2, TimesPolyX(p), TimesPolyX(q));
      AddLaws(PolyGate(c, p), PolyGate(c, q),
              PolyMul(c / 2, TimesPolyX(p)), PolyMul(c / 2, TimesPolyX(q)));
    }
  }

  lemma HalfXor(c: byte, d: byte)
    ensures XorByte(c, d) / 2 == XorByte(c / 2, d / 2)
    ensures XorByte(c, d) % 2 == (c + d) % 2
  {
    Pow2Byte();
    hide Digits, XorBits;
    var x := XorByte(c, d);
    XorBitsDigits(c, d, 8);
    HalfDigits(c, 8);
    HalfDigits(d, 8);
    HalfDigits(x, 8);
    XorBitsDigits(c / 2, d / 2, 8);
    assert Digits(x / 2, 8) == XorDigits(Digits(c / 2, 8), Digits(d / 2, 8));
    DigitsInjective(x / 2, XorByte(c / 2, d / 2), 8);
    Parity(c, d, x);
  }

  lemma Parity(c: nat, d: nat, x: nat)
    requires (x % 2 == 1) <==> ((c % 2 == 1) != (d % 2 == 1))
    ensures x % 2 == (c + d) % 2
  {
  }

  lemma {:induction false} PolyMulAddLeft(c: byte, d: byte, p: Poly)
    ensures PolyMul(XorByte(c, d), p) == Add(PolyMul(c, p), PolyMul(d, p))
    decreases c + d
  {
    hide Add, TimesPolyX, XorByte;
    if c == 0 && d == 0 {
      XorByteZero(0);
      AddLaws(0, 0, 0, 0);
    } else {
      PolyMulAddLeft(c / 2, d / 2, TimesPolyX(p));
      PolyMulUnfold(XorByte(c, d), p);
      PolyMulUnfold(c, p);
      PolyMulUnfold(d, p);
      HalfXor(c, d);
      GateAdd(c, d, p);
      AddLaws(PolyGate(c, p), PolyGate(d, p),
              PolyMul(c / 2, TimesPolyX(p)), PolyMul(d / 2, TimesPolyX(p)));
    }
  }

  lemma GateAdd(c: byte, d: byte, p: Poly)
    ensures PolyGate(XorByte(c, d), p) == Add(PolyGate(c, p), PolyGate(d, p))
  {
    hide XorByte, XorBits;
    HalfXor(c, d);
    Pow2Poly();
    XorBitsSelf(p, 16);
    XorBitsZero(p, 16);
    XorBitsZero(0, 16);
    XorBitsComm(p, 0, 16);
  }

  /** On numbers below 256 the 16-bit and the 8-bit exclusive or agree. */
  lemma AddOfBytes(a: byte, b: byte)
    ensures Add(a, b) == XorByte(a, b)
    ensures Add(256 + a, 256 + b) == XorByte(a, b)
  {
    Pow2Poly();
    hide XorBits;
    XorBitsAbove(a, 0, b, 0, 8, 8);
    XorBitsAbove(a, 1, b, 1, 8, 8);
    XorBitsSelf(0, 8);
    XorBitsSelf(1, 8);
  }

  /** Doubling as a polynomial is doubling in the field plus the modulus when x^8 appears. */
  lemma DoubleByte(a: byte)
    ensures TimesPolyX(a) == Add(XTime(a), if a >= 128 then MODULUS else 0)
  {
    Pow2Poly();
    hide XorBits;
    AddLaws(XTime(a), 0, 0, 0);
    if a >= 128 {
      var s := 2 * a - 256;
      AddOfBytes(s, MODULUS_LOW);
      assert XTime(a) == Add(256 + s, 256 + MODULUS_LOW);
      XorBitsAssoc(256 + s, MODULUS, MODULUS, 16);
      XorBitsSelf(MODULUS, 16);
      XorBitsZero(256 + s, 16);
    }
  }

  lemma ProductOfDouble(h: byte, a: byte)
    ensures PolyMul(h, TimesPolyX(a)) ==
            Add(PolyMul(h, XTime(a)), PolyMul(if a >= 128 then h else 0, MODULUS))
  {
    hide Add, XTime, TimesPolyX;
    DoubleByte(a);
    PolyMulAddRight(h, XTime(a), if a >= 128 then MODULUS else 0);
  }

  /**
   * `Mul` is multiplication modulo the field polynomial: the plain product of the two
   * polynomials is a multiple of the modulus plus the remainder `Mul(c, a)` of degree below 8.
   */
  lemma {:induction false} MulIsProductModulo(c: byte, a: byte)
    ensures PolyMul(c, a) == Add(PolyMul(Quotient(c, a), MODULUS), Mul(c, a))
    decreases c
  {
    hide Add, XTime, TimesPolyX, XorByte;
    if c == 0 {
      AddLaws(0, 0, 0, 0);
    } else {
      var h, x := c / 2, XTime(a);
      var taken := if a >= 128 then h else 0;
      MulIsProductModulo(h, x);
      ProductOfDouble(h, a);
      PolyMulAddLeft(Quotient(h, x), taken, MODULUS);
      AddOfBytes(Gate(c, a), Mul(h, x));
      AddLaws(Gate(c, a), PolyMul(Quotient(h, x), MODULUS), Mul(h, x), PolyMul(taken, MODULUS));
    }
  }
}
