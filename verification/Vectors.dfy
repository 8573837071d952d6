/**
 * Bytes as bit-vectors, for working with concrete blocks: the field arithmetic, the linear layer and the rounds on
 * constants, each proved to be the one on bytes.
 */
module Vectors {
  import opened Binary
  import opened Bytes
  import opened Doubling
  import opened Galois
  import opened LinearLayer
  import opened SBox
  import opened Rfc7801

  // Bytes.

  predicate Bit(v: bv8, m: bv8) { v & m != 0 }

  predicate Single(m: bv8) {
    m == 1 || m == 2 || m == 4 || m == 8 || m == 16 || m == 32 || m == 64 || m == 128
  }

  function Mask(i: nat): (m: bv8)
    requires i < 8
    ensures Single(m)
  {
    match i case 0 => 1 case 1 => 2 case 2 => 4 case 3 => 8 case 4 => 16 case 5 => 32 case 6 => 64 case _ => 128
  }

  function Bits(v: bv8): (d: seq<bool>)
    ensures |d| == 8
  {
    seq(8, i requires 0 <= i < 8 => Bit(v, Mask(i)))
  }

  /** The number with these bits. */
  function B(v: bv8): byte {
    (if v & 1 != 0 then 1 else 0) + (if v & 2 != 0 then 2 else 0) + (if v & 4 != 0 then 4 else 0)
    + (if v & 8 != 0 then 8 else 0) + (if v & 16 != 0 then 16 else 0) + (if v & 32 != 0 then 32 else 0)
    + (if v & 64 != 0 then 64 else 0) + (if v & 128 != 0 then 128 else 0)
  }

  /** Four digits and what is above them. */
  lemma NumberOfFour(d: seq<bool>, i: nat)
    requires i + 4 <= |d|
    ensures Number(d[i..]) ==
            (if d[i] then 1 else 0) + (if d[i + 1] then 2 else 0) + (if d[i + 2] then 4 else 0)
            + (if d[i + 3] then 8 else 0) + 16 * Number(d[i + 4..])
  {
    hide Number;
    NumberFrom(d, i + 3);
    NumberFrom(d, i + 2);
    NumberFrom(d, i + 1);
    NumberFrom(d, i);
  }

  lemma NumberFrom(d: seq<bool>, i: nat)
    requires i < |d|
    ensures Number(d[i..]) == (if d[i] then 1 else 0) + 2 * Number(d[i + 1..])
  {
    hide Number;
    NumberStep(d[i..]);
    assert d[i..][1..] == d[i + 1..];
  }

  lemma NumberNone()
    ensures Number([]) == 0
  {
  }

  lemma NumberOfBits(v: bv8)
    ensures Number(Bits(v)) == B(v)
  {
    hide Number;
    var d := Bits(v);
    assert d[0..] == d && d[8..] == [];
    NumberNone();
    NumberOfFour(d, 4);
    NumberOfFour(d, 0);
  }

  lemma BitsOf(v: bv8)
    ensures B(v) == Number(Bits(v)) && Digits(B(v), 8) == Bits(v)
  {
    hide Number, Digits, B, Bits;
    NumberOfBits(v);
    DigitsNumber(Bits(v));
  }

  lemma BitXor(u: bv8, v: bv8, m: bv8)
    requires Single(m)
    ensures Bit(u ^ v, m) == (Bit(u, m) != Bit(v, m))
  {
  }

  lemma XorOf(u: bv8, v: bv8)
    ensures B(u ^ v) == XorByte(B(u), B(v))
  {
    hide B, Number, Digits, Bit, Mask, Single;
    BitsOf(u);
    BitsOf(v);
    BitsOf(u ^ v);
    forall i | 0 <= i < 8 ensures Bit(u ^ v, Mask(i)) == (Bit(u, Mask(i)) != Bit(v, Mask(i))) {
      BitXor(u, v, Mask(i));
    }
    assert XorDigits(Bits(u), Bits(v)) == Bits(u ^ v);
  }

  /** Multiplication by x. */
  function Times2(a: bv8): bv8 {
    (a << 1) ^ (if a & 0x80 != 0 then 0xC3 else 0)
  }

  lemma ShiftOf(a: bv8)
    ensures B(a << 1) == if a & 0x80 != 0 then 2 * B(a) - 256 else 2 * B(a)
    ensures a & 0x80 != 0 <==> B(a) >= 128
  {
    assert (a << 1) & 1 == 0;
    assert (a << 1) & 2 != 0 <==> a & 1 != 0;
    assert (a << 1) & 4 != 0 <==> a & 2 != 0;
    assert (a << 1) & 8 != 0 <==> a & 4 != 0;
    assert (a << 1) & 16 != 0 <==> a & 8 != 0;
    assert (a << 1) & 32 != 0 <==> a & 16 != 0;
    assert (a << 1) & 64 != 0 <==> a & 32 != 0;
    assert (a << 1) & 128 != 0 <==> a & 64 != 0;
  }

  lemma Times2Of(a: bv8)
    ensures B(Times2(a)) == XTime(B(a))
  {
    Pow2Byte();
    ShiftOf(a);
    assert B(0xC3) == 0xC3 && B(0) == 0;
    XorOf(a << 1, 0xC3);
    XorOf(a << 1, 0);
    hide B, XorBits;
    XorByteZero(B(a << 1));
  }

  // Products.

  function Half(c: bv8): bv8 { c >> 1 }

  lemma HalfOf(c: bv8)
    ensures B(Half(c)) == B(c) / 2 && (B(c) % 2 == 1 <==> Bit(c, 1))
  {
    assert (c >> 1) & 128 == 0;
    assert (c >> 1) & 64 != 0 <==> c & 128 != 0;
    assert (c >> 1) & 32 != 0 <==> c & 64 != 0;
    assert (c >> 1) & 16 != 0 <==> c & 32 != 0;
    assert (c >> 1) & 8 != 0 <==> c & 16 != 0;
    assert (c >> 1) & 4 != 0 <==> c & 8 != 0;
    assert (c >> 1) & 2 != 0 <==> c & 4 != 0;
    assert (c >> 1) & 1 != 0 <==> c & 2 != 0;
  }

  lemma HalfBits(c: bv8)
    ensures Bit(Half(c), 1) == Bit(c, 2)
    ensures Bit(Half(Half(c)), 1) == Bit(c, 4)
    ensures Bit(Half(Half(Half(c))), 1) == Bit(c, 8)
    ensures Bit(Half(Half(Half(Half(c)))), 1) == Bit(c, 16)
    ensures Bit(Half(Half(Half(Half(Half(c))))), 1) == Bit(c, 32)
    ensures Bit(Half(Half(Half(Half(Half(Half(c)))))), 1) == Bit(c, 64)
    ensures Bit(Half(Half(Half(Half(Half(Half(Half(c))))))), 1) == Bit(c, 128)
  {
  }

  /** `a`, if this bit of `c` is set. */
  function Masked(c: bv8, m: bv8, a: bv8): bv8 { if c & m != 0 then a else 0 }

  lemma MaskedOf(c: bv8, m: bv8, n: byte, a: bv8)
    requires n % 2 == 1 <==> Bit(c, m)
    ensures B(Masked(c, m, a)) == Gate(n, B(a))
  {
    assert B(0) == 0;
  }

  /** Shift and add. */
  function Times(c: bv8, a: bv8): bv8 {
    var b := Times2(a);
    var b2 := Times2(b);
    var b3 := Times2(b2);
    var b4 := Times2(b3);
    var b5 := Times2(b4);
    var b6 := Times2(b5);
    var b7 := Times2(b6);
    Join(if c & 1 != 0 then a else 0, Join(if c & 2 != 0 then b else 0, Join(if c & 4 != 0 then b2 else 0,
      Join(if c & 8 != 0 then b3 else 0, Join(if c & 16 != 0 then b4 else 0, Join(if c & 32 != 0 then b5 else 0,
      Join(if c & 64 != 0 then b6 else 0, if c & 128 != 0 then b7 else 0)))))))
  }

  function Join(term: bv8, rest: bv8): bv8 { term ^ rest }

  lemma TimesIs(c: bv8, a: bv8)
    ensures var b := Times2(a); var b2 := Times2(b); var b3 := Times2(b2); var b4 := Times2(b3);
      var b5 := Times2(b4); var b6 := Times2(b5); var b7 := Times2(b6);
      Times(c, a) == Join(Masked(c, 1, a), Join(Masked(c, 2, b), Join(Masked(c, 4, b2), Join(Masked(c, 8, b3),
        Join(Masked(c, 16, b4), Join(Masked(c, 32, b5), Join(Masked(c, 64, b6), Masked(c, 128, b7))))))))
  {
    hide Times2, Join;
  }

  lemma MulStep(c: byte, a: byte)
    ensures Mul(c, a) == XorByte(Gate(c, a), Mul(c / 2, XTime(a)))
  {
    hide XorByte, XTime;
    XorByteZero(0);
  }

  /** One turn: a term, and what the later turns give. */
  lemma TurnOf(n: byte, half: byte, a: bv8, b: bv8, term: bv8, rest: bv8)
    requires B(term) == Gate(n, B(a)) && b == Times2(a) && half == n / 2
    requires B(rest) == Mul(half, B(b))
    ensures B(Join(term, rest)) == Mul(n, B(a))
  {
    hide B, Mul, Gate, XTime, XorByte, Times2;
    Times2Of(a);
    XorOf(term, rest);
    MulStep(n, B(a));
  }

  lemma LastTurnOf(n: byte, a: bv8, term: bv8)
    requires B(term) == Gate(n, B(a)) && n < 2
    ensures B(term) == Mul(n, B(a))
  {
    hide B, Gate, XTime, XorByte;
    MulStep(n, B(a));
    assert Mul(0, XTime(B(a))) == 0;
    XorByteZero(Gate(n, B(a)));
  }

  lemma TimesOf(c: bv8, a: bv8)
    ensures B(Times(c, a)) == Mul(B(c), B(a))
  {
    hide B, Mul, Gate, Times2, Half, Bit, Masked, Join, Times;
    var b := Times2(a);
    var b2 := Times2(b);
    var b3 := Times2(b2);
    var b4 := Times2(b3);
    var b5 := Times2(b4);
    var b6 := Times2(b5);
    var b7 := Times2(b6);
    var d := Half(c);
    var d2 := Half(d);
    var d3 := Half(d2);
    var d4 := Half(d3);
    var d5 := Half(d4);
    var d6 := Half(d5);
    var d7 := Half(d6);
    HalfBits(c);
    HalfOf(c);
    HalfOf(d);
    HalfOf(d2);
    HalfOf(d3);
    HalfOf(d4);
    HalfOf(d5);
    HalfOf(d6);
    HalfOf(d7);
    MaskedOf(c, 1, B(c), a);
    MaskedOf(c, 2, B(d), b);
    MaskedOf(c, 4, B(d2), b2);
    MaskedOf(c, 8, B(d3), b3);
    MaskedOf(c, 16, B(d4), b4);
    MaskedOf(c, 32, B(d5), b5);
    MaskedOf(c, 64, B(d6), b6);
    MaskedOf(c, 128, B(d7), b7);
    LastTurnOf(B(d7), b7, Masked(c, 128, b7));
    var r6 := Join(Masked(c, 64, b6), Masked(c, 128, b7));
    TurnOf(B(d6), B(d7), b6, b7, Masked(c, 64, b6), Masked(c, 128, b7));
    var r5 := Join(Masked(c, 32, b5), r6);
    TurnOf(B(d5), B(d6), b5, b6, Masked(c, 32, b5), r6);
    var r4 := Join(Masked(c, 16, b4), r5);
    TurnOf(B(d4), B(d5), b4, b5, Masked(c, 16, b4), r5);
    var r3 := Join(Masked(c, 8, b3), r4);
    TurnOf(B(d3), B(d4), b3, b4, Masked(c, 8, b3), r4);
    var r2 := Join(Masked(c, 4, b2), r3);
    TurnOf(B(d2), B(d3), b2, b3, Masked(c, 4, b2), r3);
    var r := Join(Masked(c, 2, b), r2);
    TurnOf(B(d), B(d2), b, b2, Masked(c, 2, b), r2);
    TurnOf(B(c), B(d), a, b, Masked(c, 1, a), r);
    TimesIs(c, a);
  }

  // The products with the coefficients of the linear form.

  function Times16(a: bv8): bv8 {
    var b := Times2(a);
    var b2 := Times2(b);
    var b3 := Times2(b2);
    var b4 := Times2(b3);
    b4
  }

  function Times32(a: bv8): bv8 {
    var b := Times2(a);
    var b2 := Times2(b);
    var b3 := Times2(b2);
    var b4 := Times2(b3);
    var b5 := Times2(b4);
    b5
  }

  function Times133(a: bv8): bv8 {
    var b := Times2(a);
    var b2 := Times2(b);
    var b3 := Times2(b2);
    var b4 := Times2(b3);
    var b5 := Times2(b4);
    var b6 := Times2(b5);
    var b7 := Times2(b6);
    a ^ (b2 ^ b7)
  }

  function Times148(a: bv8): bv8 {
    var b := Times2(a);
    var b2 := Times2(b);
    var b3 := Times2(b2);
    var b4 := Times2(b3);
    var b5 := Times2(b4);
    var b6 := Times2(b5);
    var b7 := Times2(b6);
    b2 ^ (b4 ^ b7)
  }

  function Times192(a: bv8): bv8 {
    var b := Times2(a);
    var b2 := Times2(b);
    var b3 := Times2(b2);
    var b4 := Times2(b3);
    var b5 := Times2(b4);
    var b6 := Times2(b5);
    var b7 := Times2(b6);
    b6 ^ b7
  }

  function Times194(a: bv8): bv8 {
    var b := Times2(a);
    var b2 := Times2(b);
    var b3 := Times2(b2);
    var b4 := Times2(b3);
    var b5 := Times2(b4);
    var b6 := Times2(b5);
    var b7 := Times2(b6);
    b ^ (b6 ^ b7)
  }

  function Times251(a: bv8): bv8 {
    var b := Times2(a);
    var b2 := Times2(b);
    var b3 := Times2(b2);
    var b4 := Times2(b3);
    var b5 := Times2(b4);
    var b6 := Times2(b5);
    var b7 := Times2(b6);
    a ^ (b ^ (b3 ^ (b4 ^ (b5 ^ (b6 ^ b7)))))
  }

  lemma Times16Of(a: bv8)
    ensures B(Times16(a)) == Mul(16, B(a))
  {
    assert B(16) == 16;
    TimesOf(16, a);
    hide B, Mul, Times2;
    assert Times16(a) == Times(16, a);
  }

  lemma Times32Of(a: bv8)
    ensures B(Times32(a)) == Mul(32, B(a))
  {
    assert B(32) == 32;
    TimesOf(32, a);
    hide B, Mul, Times2;
    assert Times32(a) == Times(32, a);
  }

  lemma Times133Of(a: bv8)
    ensures B(Times133(a)) == Mul(133, B(a))
  {
    assert B(133) == 133;
    TimesOf(133, a);
    hide B, Mul, Times2;
    assert Times133(a) == Times(133, a);
  }

  lemma Times148Of(a: bv8)
    ensures B(Times148(a)) == Mul(148, B(a))
  {
    assert B(148) == 148;
    TimesOf(148, a);
    hide B, Mul, Times2;
    assert Times148(a) == Times(148, a);
  }

  lemma Times192Of(a: bv8)
    ensures B(Times192(a)) == Mul(192, B(a))
  {
    assert B(192) == 192;
    TimesOf(192, a);
    hide B, Mul, Times2;
    assert Times192(a) == Times(192, a);
  }

  lemma Times194Of(a: bv8)
    ensures B(Times194(a)) == Mul(194, B(a))
  {
    assert B(194) == 194;
    TimesOf(194, a);
    hide B, Mul, Times2;
    assert Times194(a) == Times(194, a);
  }

  lemma Times251Of(a: bv8)
    ensures B(Times251(a)) == Mul(251, B(a))
  {
    assert B(251) == 251;
    hide B, Mul, Times, Times251;
    TimesOf(251, a);
    Terms251(a);
  }

  lemma Terms251(a: bv8)
    ensures Times251(a) == Times(251, a)
  {
    hide Times2;
  }

  // Blocks.

  /** A block as sixteen bit-vectors, a15 first. */
  datatype Vec = Vec(
    a15: bv8, a14: bv8, a13: bv8, a12: bv8, a11: bv8, a10: bv8, a9: bv8, a8: bv8,
    a7: bv8, a6: bv8, a5: bv8, a4: bv8, a3: bv8, a2: bv8, a1: bv8, a0: bv8)

  function At(w: Vec, i: nat): bv8
    requires i < 16
  {
    match i
    case 0 => w.a15 case 1 => w.a14 case 2 => w.a13 case 3 => w.a12 case 4 => w.a11 case 5 => w.a10 case 6 => w.a9 case 7 => w.a8
    case 8 => w.a7 case 9 => w.a6 case 10 => w.a5 case 11 => w.a4 case 12 => w.a3 case 13 => w.a2 case 14 => w.a1 case _ => w.a0
  }

  function Of(w: Vec): Block {
    seq(16, i requires 0 <= i < 16 => B(At(w, i)))
  }

  /** The linear form. */
  function Sum(b0: bv8, b1: bv8, b2: bv8, b3: bv8, b4: bv8, b5: bv8, b6: bv8, b7: bv8,
               b8: bv8, b9: bv8, b10: bv8, b11: bv8, b12: bv8, b13: bv8, b14: bv8, b15: bv8): bv8
  {
    var low := Join(Join(Join(Join(Join(Times148(b0), Times32(b1)), Times133(b2)), Times16(b3)), Times194(b4)), Times192(b5));
    var middle := Join(Join(Join(Join(Join(low, b6), Times251(b7)), b8), Times192(b9)), Times194(b10));
    Join(Join(Join(Join(Join(middle, Times16(b11)), Times133(b12)), Times32(b13)), Times148(b14)), b15)
  }

  /** One more term of the linear form. */
  lemma FormMore(b: Block, n: nat, sum: bv8, term: bv8)
    requires n < 16 && Form(b, n) == B(sum) && Mul(COEF[n], b[n]) == B(term)
    ensures Form(b, n + 1) == B(Join(sum, term))
  {
    hide B, Mul, XorByte;
    XorOf(sum, term);
  }

  lemma FormFirst(b: Block, term: bv8)
    requires Mul(148, b[0]) == B(term)
    ensures Form(b, 1) == B(term)
  {
    hide B, Mul, XorByte;
    assert COEF[0] == 148;
    XorByteZero(B(term));
  }

  lemma Coefficients()
    ensures COEF[0] == 148
    ensures COEF[1] == 32
    ensures COEF[2] == 133
    ensures COEF[3] == 16
    ensures COEF[4] == 194
    ensures COEF[5] == 192
    ensures COEF[6] == 1
    ensures COEF[7] == 251
    ensures COEF[8] == 1
    ensures COEF[9] == 192
    ensures COEF[10] == 194
    ensures COEF[11] == 16
    ensures COEF[12] == 133
    ensures COEF[13] == 32
    ensures COEF[14] == 148
    ensures COEF[15] == 1
  {
  }

  lemma FormFive(b: Block, n: nat, sum: bv8, t0: bv8, t1: bv8, t2: bv8, t3: bv8, t4: bv8)
    requires n + 5 <= 16 && Form(b, n) == B(sum)
    requires Mul(COEF[n], b[n]) == B(t0) && Mul(COEF[n + 1], b[n + 1]) == B(t1) && Mul(COEF[n + 2], b[n + 2]) == B(t2)
    requires Mul(COEF[n + 3], b[n + 3]) == B(t3) && Mul(COEF[n + 4], b[n + 4]) == B(t4)
    ensures Form(b, n + 5) == B(Join(Join(Join(Join(Join(sum, t0), t1), t2), t3), t4))
  {
    hide B, Mul, Form, Join;
    FormMore(b, n, sum, t0);
    var s1 := Join(sum, t0);
    FormMore(b, n + 1, s1, t1);
    var s2 := Join(s1, t1);
    FormMore(b, n + 2, s2, t2);
    var s3 := Join(s2, t2);
    FormMore(b, n + 3, s3, t3);
    FormMore(b, n + 4, Join(s3, t3), t4);
  }

  lemma SumOf(b: Block, w: Vec)
    requires b == Of(w)
    ensures Form(b, 16) == B(Sum(w.a15, w.a14, w.a13, w.a12, w.a11, w.a10, w.a9, w.a8, w.a7, w.a6, w.a5, w.a4, w.a3, w.a2, w.a1, w.a0))
  {
    hide B, Mul, XorByte, Form, Of, Join, Times16, Times32, Times133, Times148, Times192, Times194, Times251;
    BytesOf(w);
    Coefficients();
    Times148Of(w.a15);
    Times32Of(w.a14);
    Times133Of(w.a13);
    Times16Of(w.a12);
    Times194Of(w.a11);
    Times192Of(w.a10);
    TimesOneOf(w.a9);
    Times251Of(w.a8);
    TimesOneOf(w.a7);
    Times192Of(w.a6);
    Times194Of(w.a5);
    Times16Of(w.a4);
    Times133Of(w.a3);
    Times32Of(w.a2);
    Times148Of(w.a1);
    TimesOneOf(w.a0);
    FormFirst(b, Times148(w.a15));
    FormFive(b, 1, Times148(w.a15), Times32(w.a14), Times133(w.a13), Times16(w.a12), Times194(w.a11), Times192(w.a10));
    var low := Join(Join(Join(Join(Join(Times148(w.a15), Times32(w.a14)), Times133(w.a13)), Times16(w.a12)), Times194(w.a11)), Times192(w.a10));
    FormFive(b, 6, low, w.a9, Times251(w.a8), w.a7, Times192(w.a6), Times194(w.a5));
    var middle := Join(Join(Join(Join(Join(low, w.a9), Times251(w.a8)), w.a7), Times192(w.a6)), Times194(w.a5));
    FormFive(b, 11, middle, Times16(w.a4), Times133(w.a3), Times32(w.a2), Times148(w.a1), w.a0);
  }

  lemma TimesOneOf(a: bv8)
    ensures B(a) == Mul(1, B(a))
  {
    hide B;
    MulOne(B(a));
  }

  lemma BytesOf(w: Vec)
    ensures Of(w)[0] == B(w.a15)
    ensures Of(w)[1] == B(w.a14)
    ensures Of(w)[2] == B(w.a13)
    ensures Of(w)[3] == B(w.a12)
    ensures Of(w)[4] == B(w.a11)
    ensures Of(w)[5] == B(w.a10)
    ensures Of(w)[6] == B(w.a9)
    ensures Of(w)[7] == B(w.a8)
    ensures Of(w)[8] == B(w.a7)
    ensures Of(w)[9] == B(w.a6)
    ensures Of(w)[10] == B(w.a5)
    ensures Of(w)[11] == B(w.a4)
    ensures Of(w)[12] == B(w.a3)
    ensures Of(w)[13] == B(w.a2)
    ensures Of(w)[14] == B(w.a1)
    ensures Of(w)[15] == B(w.a0)
  {
    hide B;
  }

  // The linear layer.

  /** The block moves on by one byte, `v` comes in. */
  function Next(w: Vec, v: bv8): Vec {
    Vec(v, w.a15, w.a14, w.a13, w.a12, w.a11, w.a10, w.a9, w.a8, w.a7, w.a6, w.a5, w.a4, w.a3, w.a2, w.a1)
  }

  lemma NextOf(w: Vec, v: bv8)
    ensures Of(Next(w, v)) == [B(v)] + Of(w)[..15]
  {
    hide B;
  }

  lemma ROf(w: Vec, v: bv8, w': Vec, b: Block)
    requires Sum(w.a15, w.a14, w.a13, w.a12, w.a11, w.a10, w.a9, w.a8, w.a7, w.a6, w.a5, w.a4, w.a3, w.a2, w.a1, w.a0) == v && w' == Next(w, v) && b == Of(w)
    ensures R(b) == Of(w')
  {
    hide B, Sum, Form, Of, Next;
    SumOf(b, w);
    NextOf(w, v);
  }

  /** The condition on `x` and `y` is on bit-vectors, the conclusion about blocks. */
  lemma LinearOf(x: Vec, y: Vec)
    requires Sum(y.a14, y.a13, y.a12, y.a11, y.a10, y.a9, y.a8, y.a7, y.a6, y.a5, y.a4, y.a3, y.a2, y.a1, y.a0, x.a15) == y.a15
    requires Sum(y.a13, y.a12, y.a11, y.a10, y.a9, y.a8, y.a7, y.a6, y.a5, y.a4, y.a3, y.a2, y.a1, y.a0, x.a15, x.a14) == y.a14
    requires Sum(y.a12, y.a11, y.a10, y.a9, y.a8, y.a7, y.a6, y.a5, y.a4, y.a3, y.a2, y.a1, y.a0, x.a15, x.a14, x.a13) == y.a13
    requires Sum(y.a11, y.a10, y.a9, y.a8, y.a7, y.a6, y.a5, y.a4, y.a3, y.a2, y.a1, y.a0, x.a15, x.a14, x.a13, x.a12) == y.a12
    requires Sum(y.a10, y.a9, y.a8, y.a7, y.a6, y.a5, y.a4, y.a3, y.a2, y.a1, y.a0, x.a15, x.a14, x.a13, x.a12, x.a11) == y.a11
    requires Sum(y.a9, y.a8, y.a7, y.a6, y.a5, y.a4, y.a3, y.a2, y.a1, y.a0, x.a15, x.a14, x.a13, x.a12, x.a11, x.a10) == y.a10
    requires Sum(y.a8, y.a7, y.a6, y.a5, y.a4, y.a3, y.a2, y.a1, y.a0, x.a15, x.a14, x.a13, x.a12, x.a11, x.a10, x.a9) == y.a9
    requires Sum(y.a7, y.a6, y.a5, y.a4, y.a3, y.a2, y.a1, y.a0, x.a15, x.a14, x.a13, x.a12, x.a11, x.a10, x.a9, x.a8) == y.a8
    requires Sum(y.a6, y.a5, y.a4, y.a3, y.a2, y.a1, y.a0, x.a15, x.a14, x.a13, x.a12, x.a11, x.a10, x.a9, x.a8, x.a7) == y.a7
    requires Sum(y.a5, y.a4, y.a3, y.a2, y.a1, y.a0, x.a15, x.a14, x.a13, x.a12, x.a11, x.a10, x.a9, x.a8, x.a7, x.a6) == y.a6
    requires Sum(y.a4, y.a3, y.a2, y.a1, y.a0, x.a15, x.a14, x.a13, x.a12, x.a11, x.a10, x.a9, x.a8, x.a7, x.a6, x.a5) == y.a5
    requires Sum(y.a3, y.a2, y.a1, y.a0, x.a15, x.a14, x.a13, x.a12, x.a11, x.a10, x.a9, x.a8, x.a7, x.a6, x.a5, x.a4) == y.a4
    requires Sum(y.a2, y.a1, y.a0, x.a15, x.a14, x.a13, x.a12, x.a11, x.a10, x.a9, x.a8, x.a7, x.a6, x.a5, x.a4, x.a3) == y.a3
    requires Sum(y.a1, y.a0, x.a15, x.a14, x.a13, x.a12, x.a11, x.a10, x.a9, x.a8, x.a7, x.a6, x.a5, x.a4, x.a3, x.a2) == y.a2
    requires Sum(y.a0, x.a15, x.a14, x.a13, x.a12, x.a11, x.a10, x.a9, x.a8, x.a7, x.a6, x.a5, x.a4, x.a3, x.a2, x.a1) == y.a1
    requires Sum(x.a15, x.a14, x.a13, x.a12, x.a11, x.a10, x.a9, x.a8, x.a7, x.a6, x.a5, x.a4, x.a3, x.a2, x.a1, x.a0) == y.a0
    ensures L(Of(x)) == Of(y)
  {
    hide B, Sum, Form, Of, R;
    var b := Of(x);
    assert RPower(b, 0) == b;
    var w1 := Vec(y.a0, x.a15, x.a14, x.a13, x.a12, x.a11, x.a10, x.a9, x.a8, x.a7, x.a6, x.a5, x.a4, x.a3, x.a2, x.a1);
    ROf(x, y.a0, w1, RPower(b, 0));
    var w2 := Vec(y.a1, y.a0, x.a15, x.a14, x.a13, x.a12, x.a11, x.a10, x.a9, x.a8, x.a7, x.a6, x.a5, x.a4, x.a3, x.a2);
    ROf(w1, y.a1, w2, RPower(b, 1));
    var w3 := Vec(y.a2, y.a1, y.a0, x.a15, x.a14, x.a13, x.a12, x.a11, x.a10, x.a9, x.a8, x.a7, x.a6, x.a5, x.a4, x.a3);
    ROf(w2, y.a2, w3, RPower(b, 2));
    var w4 := Vec(y.a3, y.a2, y.a1, y.a0, x.a15, x.a14, x.a13, x.a12, x.a11, x.a10, x.a9, x.a8, x.a7, x.a6, x.a5, x.a4);
    ROf(w3, y.a3, w4, RPower(b, 3));
    var w5 := Vec(y.a4, y.a3, y.a2, y.a1, y.a0, x.a15, x.a14, x.a13, x.a12, x.a11, x.a10, x.a9, x.a8, x.a7, x.a6, x.a5);
    ROf(w4, y.a4, w5, RPower(b, 4));
    var w6 := Vec(y.a5, y.a4, y.a3, y.a2, y.a1, y.a0, x.a15, x.a14, x.a13, x.a12, x.a11, x.a10, x.a9, x.a8, x.a7, x.a6);
    ROf(w5, y.a5, w6, RPower(b, 5));
    var w7 := Vec(y.a6, y.a5, y.a4, y.a3, y.a2, y.a1, y.a0, x.a15, x.a14, x.a13, x.a12, x.a11, x.a10, x.a9, x.a8, x.a7);
    ROf(w6, y.a6, w7, RPower(b, 6));
    var w8 := Vec(y.a7, y.a6, y.a5, y.a4, y.a3, y.a2, y.a1, y.a0, x.a15, x.a14, x.a13, x.a12, x.a11, x.a10, x.a9, x.a8);
    ROf(w7, y.a7, w8, RPower(b, 7));
    var w9 := Vec(y.a8, y.a7, y.a6, y.a5, y.a4, y.a3, y.a2, y.a1, y.a0, x.a15, x.a14, x.a13, x.a12, x.a11, x.a10, x.a9);
    ROf(w8, y.a8, w9, RPower(b, 8));
    var w10 := Vec(y.a9, y.a8, y.a7, y.a6, y.a5, y.a4, y.a3, y.a2, y.a1, y.a0, x.a15, x.a14, x.a13, x.a12, x.a11, x.a10);
    ROf(w9, y.a9, w10, RPower(b, 9));
    var w11 := Vec(y.a10, y.a9, y.a8, y.a7, y.a6, y.a5, y.a4, y.a3, y.a2, y.a1, y.a0, x.a15, x.a14, x.a13, x.a12, x.a11);
    ROf(w10, y.a10, w11, RPower(b, 10));
    var w12 := Vec(y.a11, y.a10, y.a9, y.a8, y.a7, y.a6, y.a5, y.a4, y.a3, y.a2, y.a1, y.a0, x.a15, x.a14, x.a13, x.a12);
    ROf(w11, y.a11, w12, RPower(b, 11));
    var w13 := Vec(y.a12, y.a11, y.a10, y.a9, y.a8, y.a7, y.a6, y.a5, y.a4, y.a3, y.a2, y.a1, y.a0, x.a15, x.a14, x.a13);
    ROf(w12, y.a12, w13, RPower(b, 12));
    var w14 := Vec(y.a13, y.a12, y.a11, y.a10, y.a9, y.a8, y.a7, y.a6, y.a5, y.a4, y.a3, y.a2, y.a1, y.a0, x.a15, x.a14);
    ROf(w13, y.a13, w14, RPower(b, 13));
    var w15 := Vec(y.a14, y.a13, y.a12, y.a11, y.a10, y.a9, y.a8, y.a7, y.a6, y.a5, y.a4, y.a3, y.a2, y.a1, y.a0, x.a15);
    ROf(w14, y.a14, w15, RPower(b, 14));
    ROf(w15, y.a15, y, RPower(b, 15));
  }

  // One round.

  function XorVec(a: Vec, b: Vec): Vec {
    Vec(Join(a.a15, b.a15), Join(a.a14, b.a14), Join(a.a13, b.a13), Join(a.a12, b.a12),
        Join(a.a11, b.a11), Join(a.a10, b.a10), Join(a.a9, b.a9), Join(a.a8, b.a8),
        Join(a.a7, b.a7), Join(a.a6, b.a6), Join(a.a5, b.a5), Join(a.a4, b.a4),
        Join(a.a3, b.a3), Join(a.a2, b.a2), Join(a.a1, b.a1), Join(a.a0, b.a0))
  }

  lemma XorVecAt(a: Vec, b: Vec, i: nat)
    requires i < 16
    ensures At(XorVec(a, b), i) == Join(At(a, i), At(b, i))
  {
    hide Join, At;
    var c := XorVec(a, b);
    AllAt(a);
    AllAt(b);
    AllAt(c);
    match i
    case 0 => case 1 => case 2 => case 3 => case 4 => case 5 => case 6 => case 7 =>
    case 8 => case 9 => case 10 => case 11 => case 12 => case 13 => case 14 => case _ =>
  }

  lemma XorVecOf(a: Vec, b: Vec)
    ensures Of(XorVec(a, b)) == Xor(Of(a), Of(b))
  {
    hide B, XorByte, At, XorVec;
    var c := XorVec(a, b);
    forall i | 0 <= i < 16 ensures Of(c)[i] == Xor(Of(a), Of(b))[i] {
      XorVecAt(a, b, i);
      XorOf(At(a, i), At(b, i));
    }
  }

  /** The substitution, byte by byte. */
  lemma SubstitutedOf(x: Vec, s: Vec)
    requires S(B(x.a15)) == B(s.a15)
    requires S(B(x.a14)) == B(s.a14)
    requires S(B(x.a13)) == B(s.a13)
    requires S(B(x.a12)) == B(s.a12)
    requires S(B(x.a11)) == B(s.a11)
    requires S(B(x.a10)) == B(s.a10)
    requires S(B(x.a9)) == B(s.a9)
    requires S(B(x.a8)) == B(s.a8)
    requires S(B(x.a7)) == B(s.a7)
    requires S(B(x.a6)) == B(s.a6)
    requires S(B(x.a5)) == B(s.a5)
    requires S(B(x.a4)) == B(s.a4)
    requires S(B(x.a3)) == B(s.a3)
    requires S(B(x.a2)) == B(s.a2)
    requires S(B(x.a1)) == B(s.a1)
    requires S(B(x.a0)) == B(s.a0)
    ensures SLayer(Of(x)) == Of(s)
  {
    hide B, S, At;
    AllAt(x);
    AllAt(s);
    forall i | 0 <= i < 16 ensures S(B(At(x, i))) == B(At(s, i)) {
      match i
      case 0 => case 1 => case 2 => case 3 => case 4 => case 5 => case 6 => case 7 =>
      case 8 => case 9 => case 10 => case 11 => case 12 => case 13 => case 14 => case _ =>
    }
  }

  lemma AllAt(w: Vec)
    ensures At(w, 0) == w.a15
    ensures At(w, 1) == w.a14
    ensures At(w, 2) == w.a13
    ensures At(w, 3) == w.a12
    ensures At(w, 4) == w.a11
    ensures At(w, 5) == w.a10
    ensures At(w, 6) == w.a9
    ensures At(w, 7) == w.a8
    ensures At(w, 8) == w.a7
    ensures At(w, 9) == w.a6
    ensures At(w, 10) == w.a5
    ensures At(w, 11) == w.a4
    ensures At(w, 12) == w.a3
    ensures At(w, 13) == w.a2
    ensures At(w, 14) == w.a1
    ensures At(w, 15) == w.a0
  {
  }

  /** One round: `s` after key addition and substitution, `y` after the linear layer. */
  lemma RoundOf(k: Vec, a: Vec, s: Vec, y: Vec)
    requires SLayer(Xor(Of(a), Of(k))) == Of(s)
    requires Sum(y.a14, y.a13, y.a12, y.a11, y.a10, y.a9, y.a8, y.a7, y.a6, y.a5, y.a4, y.a3, y.a2, y.a1, y.a0, s.a15) == y.a15
    requires Sum(y.a13, y.a12, y.a11, y.a10, y.a9, y.a8, y.a7, y.a6, y.a5, y.a4, y.a3, y.a2, y.a1, y.a0, s.a15, s.a14) == y.a14
    requires Sum(y.a12, y.a11, y.a10, y.a9, y.a8, y.a7, y.a6, y.a5, y.a4, y.a3, y.a2, y.a1, y.a0, s.a15, s.a14, s.a13) == y.a13
    requires Sum(y.a11, y.a10, y.a9, y.a8, y.a7, y.a6, y.a5, y.a4, y.a3, y.a2, y.a1, y.a0, s.a15, s.a14, s.a13, s.a12) == y.a12
    requires Sum(y.a10, y.a9, y.a8, y.a7, y.a6, y.a5, y.a4, y.a3, y.a2, y.a1, y.a0, s.a15, s.a14, s.a13, s.a12, s.a11) == y.a11
    requires Sum(y.a9, y.a8, y.a7, y.a6, y.a5, y.a4, y.a3, y.a2, y.a1, y.a0, s.a15, s.a14, s.a13, s.a12, s.a11, s.a10) == y.a10
    requires Sum(y.a8, y.a7, y.a6, y.a5, y.a4, y.a3, y.a2, y.a1, y.a0, s.a15, s.a14, s.a13, s.a12, s.a11, s.a10, s.a9) == y.a9
    requires Sum(y.a7, y.a6, y.a5, y.a4, y.a3, y.a2, y.a1, y.a0, s.a15, s.a14, s.a13, s.a12, s.a11, s.a10, s.a9, s.a8) == y.a8
    requires Sum(y.a6, y.a5, y.a4, y.a3, y.a2, y.a1, y.a0, s.a15, s.a14, s.a13, s.a12, s.a11, s.a10, s.a9, s.a8, s.a7) == y.a7
    requires Sum(y.a5, y.a4, y.a3, y.a2, y.a1, y.a0, s.a15, s.a14, s.a13, s.a12, s.a11, s.a10, s.a9, s.a8, s.a7, s.a6) == y.a6
    requires Sum(y.a4, y.a3, y.a2, y.a1, y.a0, s.a15, s.a14, s.a13, s.a12, s.a11, s.a10, s.a9, s.a8, s.a7, s.a6, s.a5) == y.a5
    requires Sum(y.a3, y.a2, y.a1, y.a0, s.a15, s.a14, s.a13, s.a12, s.a11, s.a10, s.a9, s.a8, s.a7, s.a6, s.a5, s.a4) == y.a4
    requires Sum(y.a2, y.a1, y.a0, s.a15, s.a14, s.a13, s.a12, s.a11, s.a10, s.a9, s.a8, s.a7, s.a6, s.a5, s.a4, s.a3) == y.a3
    requires Sum(y.a1, y.a0, s.a15, s.a14, s.a13, s.a12, s.a11, s.a10, s.a9, s.a8, s.a7, s.a6, s.a5, s.a4, s.a3, s.a2) == y.a2
    requires Sum(y.a0, s.a15, s.a14, s.a13, s.a12, s.a11, s.a10, s.a9, s.a8, s.a7, s.a6, s.a5, s.a4, s.a3, s.a2, s.a1) == y.a1
    requires Sum(s.a15, s.a14, s.a13, s.a12, s.a11, s.a10, s.a9, s.a8, s.a7, s.a6, s.a5, s.a4, s.a3, s.a2, s.a1, s.a0) == y.a0
    ensures LSX(Of(k), Of(a)) == Of(y)
  {
    hide B, Sum, L, Of, Xor, SLayer;
    LinearOf(s, y);
  }

  lemma LayerOf(k: Vec, a: Vec, x: Vec, s: Vec)
    requires x == XorVec(a, k)
    requires S(B(x.a15)) == B(s.a15)
    requires S(B(x.a14)) == B(s.a14)
    requires S(B(x.a13)) == B(s.a13)
    requires S(B(x.a12)) == B(s.a12)
    requires S(B(x.a11)) == B(s.a11)
    requires S(B(x.a10)) == B(s.a10)
    requires S(B(x.a9)) == B(s.a9)
    requires S(B(x.a8)) == B(s.a8)
    requires S(B(x.a7)) == B(s.a7)
    requires S(B(x.a6)) == B(s.a6)
    requires S(B(x.a5)) == B(s.a5)
    requires S(B(x.a4)) == B(s.a4)
    requires S(B(x.a3)) == B(s.a3)
    requires S(B(x.a2)) == B(s.a2)
    requires S(B(x.a1)) == B(s.a1)
    requires S(B(x.a0)) == B(s.a0)
    ensures SLayer(Xor(Of(a), Of(k))) == Of(s)
  {
    hide B, S, Of, Xor, SLayer, XorVec;
    XorVecOf(a, k);
    SubstitutedOf(x, s);
  }

  /** One step of the key schedule: the round's result `y` plus the older key is the new key `q`. */
  lemma FeistelOf(i: nat, c: Vec, p1: Vec, p0: Vec, s: Vec, y: Vec, q: Vec)
    requires i < 32 && C(i) == Of(c) && q == XorVec(y, p0)
    requires SLayer(Xor(Of(p1), Of(c))) == Of(s)
    requires Sum(y.a14, y.a13, y.a12, y.a11, y.a10, y.a9, y.a8, y.a7, y.a6, y.a5, y.a4, y.a3, y.a2, y.a1, y.a0, s.a15) == y.a15
    requires Sum(y.a13, y.a12, y.a11, y.a10, y.a9, y.a8, y.a7, y.a6, y.a5, y.a4, y.a3, y.a2, y.a1, y.a0, s.a15, s.a14) == y.a14
    requires Sum(y.a12, y.a11, y.a10, y.a9, y.a8, y.a7, y.a6, y.a5, y.a4, y.a3, y.a2, y.a1, y.a0, s.a15, s.a14, s.a13) == y.a13
    requires Sum(y.a11, y.a10, y.a9, y.a8, y.a7, y.a6, y.a5, y.a4, y.a3, y.a2, y.a1, y.a0, s.a15, s.a14, s.a13, s.a12) == y.a12
    requires Sum(y.a10, y.a9, y.a8, y.a7, y.a6, y.a5, y.a4, y.a3, y.a2, y.a1, y.a0, s.a15, s.a14, s.a13, s.a12, s.a11) == y.a11
    requires Sum(y.a9, y.a8, y.a7, y.a6, y.a5, y.a4, y.a3, y.a2, y.a1, y.a0, s.a15, s.a14, s.a13, s.a12, s.a11, s.a10) == y.a10
    requires Sum(y.a8, y.a7, y.a6, y.a5, y.a4, y.a3, y.a2, y.a1, y.a0, s.a15, s.a14, s.a13, s.a12, s.a11, s.a10, s.a9) == y.a9
    requires Sum(y.a7, y.a6, y.a5, y.a4, y.a3, y.a2, y.a1, y.a0, s.a15, s.a14, s.a13, s.a12, s.a11, s.a10, s.a9, s.a8) == y.a8
    requires Sum(y.a6, y.a5, y.a4, y.a3, y.a2, y.a1, y.a0, s.a15, s.a14, s.a13, s.a12, s.a11, s.a10, s.a9, s.a8, s.a7) == y.a7
    requires Sum(y.a5, y.a4, y.a3, y.a2, y.a1, y.a0, s.a15, s.a14, s.a13, s.a12, s.a11, s.a10, s.a9, s.a8, s.a7, s.a6) == y.a6
    requires Sum(y.a4, y.a3, y.a2, y.a1, y.a0, s.a15, s.a14, s.a13, s.a12, s.a11, s.a10, s.a9, s.a8, s.a7, s.a6, s.a5) == y.a5
    requires Sum(y.a3, y.a2, y.a1, y.a0, s.a15, s.a14, s.a13, s.a12, s.a11, s.a10, s.a9, s.a8, s.a7, s.a6, s.a5, s.a4) == y.a4
    requires Sum(y.a2, y.a1, y.a0, s.a15, s.a14, s.a13, s.a12, s.a11, s.a10, s.a9, s.a8, s.a7, s.a6, s.a5, s.a4, s.a3) == y.a3
    requires Sum(y.a1, y.a0, s.a15, s.a14, s.a13, s.a12, s.a11, s.a10, s.a9, s.a8, s.a7, s.a6, s.a5, s.a4, s.a3, s.a2) == y.a2
    requires Sum(y.a0, s.a15, s.a14, s.a13, s.a12, s.a11, s.a10, s.a9, s.a8, s.a7, s.a6, s.a5, s.a4, s.a3, s.a2, s.a1) == y.a1
    requires Sum(s.a15, s.a14, s.a13, s.a12, s.a11, s.a10, s.a9, s.a8, s.a7, s.a6, s.a5, s.a4, s.a3, s.a2, s.a1, s.a0) == y.a0
    ensures F(KeyPair(Of(p1), Of(p0)), i) == KeyPair(Of(q), Of(p1))
  {
    hide B, Sum, C, LSX, Of, Xor, SLayer, XorVec;
    RoundOf(c, p1, s, y);
    XorVecOf(y, p0);
  }

  /** An iteration constant, as the difference of the linear layer on two blocks that differ in the last byte. */
  lemma DifferenceOf(i: nat, a: Vec, b: Vec, c: Vec, d: Vec, y: Vec)
    requires i < 32 && B(Join(a.a0, b.a0)) == i + 1
    requires b == Vec(a.a15, a.a14, a.a13, a.a12, a.a11, a.a10, a.a9, a.a8, a.a7, a.a6, a.a5, a.a4, a.a3, a.a2, a.a1, b.a0)
    requires L(Of(a)) == Of(c)
    requires L(Of(b)) == Of(d)
    requires y == XorVec(c, d)
    ensures C(i) == Of(y)
  {
    hide B, L, Of, XorVec, Xor, Place, Join;
    LastDiffers(a, b);
    LLinear(Of(a), Of(b));
    XorVecOf(c, d);
  }

  lemma LastDiffers(a: Vec, b: Vec)
    requires b == Vec(a.a15, a.a14, a.a13, a.a12, a.a11, a.a10, a.a9, a.a8, a.a7, a.a6, a.a5, a.a4, a.a3, a.a2, a.a1, b.a0)
    ensures Xor(Of(a), Of(b)) == Place(15, B(Join(a.a0, b.a0)))
  {
    hide B, Of, XorByte;
    BytesOf(a);
    BytesOf(b);
    XorOf(a.a0, b.a0);
    var x, y := Of(a), Of(b);
    forall j | 0 <= j < 16 ensures Xor(x, y)[j] == Place(15, B(Join(a.a0, b.a0)))[j] {
      if j < 15 {
        assert x[j] == y[j];
        XorByteSelf(x[j]);
      }
    }
  }

  /** The iteration constants add up as their numbers do, bit by bit. */
  lemma SumOfConstants(i: nat, j: nat, k: nat, u: bv8, v: bv8, c: Vec, d: Vec, y: Vec)
    requires i < 32 && j < 32 && k < 32
    requires B(u) == i + 1
    requires B(v) == j + 1
    requires B(Join(u, v)) == k + 1
    requires C(i) == Of(c) && C(j) == Of(d)
    requires y == XorVec(c, d)
    ensures C(k) == Of(y)
  {
    hide B, L, Of, XorVec, Xor, Place, XorByte;
    XorOf(u, v);
    PlaceXor(B(u), B(v));
    LLinear(Place(15, B(u)), Place(15, B(v)));
    XorVecOf(c, d);
  }

  lemma PlaceXor(u: byte, v: byte)
    ensures Place(15, XorByte(u, v)) == Xor(Place(15, u), Place(15, v))
  {
    hide XorByte;
    XorByteZero(0);
  }

  /** The sixteen bytes one by one. */
  lemma Bytes16(w: Vec)
    ensures Of(w) == [B(w.a15), B(w.a14), B(w.a13), B(w.a12), B(w.a11), B(w.a10), B(w.a9), B(w.a8),
                      B(w.a7), B(w.a6), B(w.a5), B(w.a4), B(w.a3), B(w.a2), B(w.a1), B(w.a0)]
  {
    hide B, Of;
    BytesOf(w);
  }
}
