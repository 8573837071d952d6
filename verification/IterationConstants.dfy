/** The thirty-two iteration constants, as they stand in the array c of the code. */
module IterationConstants {
  import opened Bytes
  import opened LinearLayer
  import opened Rfc7801
  import opened Vectors

  const C1 := Vec(0x6e, 0xa2, 0x76, 0x72, 0x6c, 0x48, 0x7a, 0xb8, 0x5d, 0x27, 0xbd, 0x10, 0xdd, 0x84, 0x94, 0x01)
  const C2 := Vec(0xdc, 0x87, 0xec, 0xe4, 0xd8, 0x90, 0xf4, 0xb3, 0xba, 0x4e, 0xb9, 0x20, 0x79, 0xcb, 0xeb, 0x02)
  const C3 := Vec(0xb2, 0x25, 0x9a, 0x96, 0xb4, 0xd8, 0x8e, 0x0b, 0xe7, 0x69, 0x04, 0x30, 0xa4, 0x4f, 0x7f, 0x03)
  const C4 := Vec(0x7b, 0xcd, 0x1b, 0x0b, 0x73, 0xe3, 0x2b, 0xa5, 0xb7, 0x9c, 0xb1, 0x40, 0xf2, 0x55, 0x15, 0x04)
  const C5 := Vec(0x15, 0x6f, 0x6d, 0x79, 0x1f, 0xab, 0x51, 0x1d, 0xea, 0xbb, 0x0c, 0x50, 0x2f, 0xd1, 0x81, 0x05)
  const C6 := Vec(0xa7, 0x4a, 0xf7, 0xef, 0xab, 0x73, 0xdf, 0x16, 0x0d, 0xd2, 0x08, 0x60, 0x8b, 0x9e, 0xfe, 0x06)
  const C7 := Vec(0xc9, 0xe8, 0x81, 0x9d, 0xc7, 0x3b, 0xa5, 0xae, 0x50, 0xf5, 0xb5, 0x70, 0x56, 0x1a, 0x6a, 0x07)
  const C8 := Vec(0xf6, 0x59, 0x36, 0x16, 0xe6, 0x05, 0x56, 0x89, 0xad, 0xfb, 0xa1, 0x80, 0x27, 0xaa, 0x2a, 0x08)
  const C9 := Vec(0x98, 0xfb, 0x40, 0x64, 0x8a, 0x4d, 0x2c, 0x31, 0xf0, 0xdc, 0x1c, 0x90, 0xfa, 0x2e, 0xbe, 0x09)
  const C10 := Vec(0x2a, 0xde, 0xda, 0xf2, 0x3e, 0x95, 0xa2, 0x3a, 0x17, 0xb5, 0x18, 0xa0, 0x5e, 0x61, 0xc1, 0x0a)
  const C11 := Vec(0x44, 0x7c, 0xac, 0x80, 0x52, 0xdd, 0xd8, 0x82, 0x4a, 0x92, 0xa5, 0xb0, 0x83, 0xe5, 0x55, 0x0b)
  const C12 := Vec(0x8d, 0x94, 0x2d, 0x1d, 0x95, 0xe6, 0x7d, 0x2c, 0x1a, 0x67, 0x10, 0xc0, 0xd5, 0xff, 0x3f, 0x0c)
  const C13 := Vec(0xe3, 0x36, 0x5b, 0x6f, 0xf9, 0xae, 0x07, 0x94, 0x47, 0x40, 0xad, 0xd0, 0x08, 0x7b, 0xab, 0x0d)
  const C14 := Vec(0x51, 0x13, 0xc1, 0xf9, 0x4d, 0x76, 0x89, 0x9f, 0xa0, 0x29, 0xa9, 0xe0, 0xac, 0x34, 0xd4, 0x0e)
  const C15 := Vec(0x3f, 0xb1, 0xb7, 0x8b, 0x21, 0x3e, 0xf3, 0x27, 0xfd, 0x0e, 0x14, 0xf0, 0x71, 0xb0, 0x40, 0x0f)
  const C16 := Vec(0x2f, 0xb2, 0x6c, 0x2c, 0x0f, 0x0a, 0xac, 0xd1, 0x99, 0x35, 0x81, 0xc3, 0x4e, 0x97, 0x54, 0x10)
  const C17 := Vec(0x41, 0x10, 0x1a, 0x5e, 0x63, 0x42, 0xd6, 0x69, 0xc4, 0x12, 0x3c, 0xd3, 0x93, 0x13, 0xc0, 0x11)
  const C18 := Vec(0xf3, 0x35, 0x80, 0xc8, 0xd7, 0x9a, 0x58, 0x62, 0x23, 0x7b, 0x38, 0xe3, 0x37, 0x5c, 0xbf, 0x12)
  const C19 := Vec(0x9d, 0x97, 0xf6, 0xba, 0xbb, 0xd2, 0x22, 0xda, 0x7e, 0x5c, 0x85, 0xf3, 0xea, 0xd8, 0x2b, 0x13)
  const C20 := Vec(0x54, 0x7f, 0x77, 0x27, 0x7c, 0xe9, 0x87, 0x74, 0x2e, 0xa9, 0x30, 0x83, 0xbc, 0xc2, 0x41, 0x14)
  const C21 := Vec(0x3a, 0xdd, 0x01, 0x55, 0x10, 0xa1, 0xfd, 0xcc, 0x73, 0x8e, 0x8d, 0x93, 0x61, 0x46, 0xd5, 0x15)
  const C22 := Vec(0x88, 0xf8, 0x9b, 0xc3, 0xa4, 0x79, 0x73, 0xc7, 0x94, 0xe7, 0x89, 0xa3, 0xc5, 0x09, 0xaa, 0x16)
  const C23 := Vec(0xe6, 0x5a, 0xed, 0xb1, 0xc8, 0x31, 0x09, 0x7f, 0xc9, 0xc0, 0x34, 0xb3, 0x18, 0x8d, 0x3e, 0x17)
  const C24 := Vec(0xd9, 0xeb, 0x5a, 0x3a, 0xe9, 0x0f, 0xfa, 0x58, 0x34, 0xce, 0x20, 0x43, 0x69, 0x3d, 0x7e, 0x18)
  const C25 := Vec(0xb7, 0x49, 0x2c, 0x48, 0x85, 0x47, 0x80, 0xe0, 0x69, 0xe9, 0x9d, 0x53, 0xb4, 0xb9, 0xea, 0x19)
  const C26 := Vec(0x05, 0x6c, 0xb6, 0xde, 0x31, 0x9f, 0x0e, 0xeb, 0x8e, 0x80, 0x99, 0x63, 0x10, 0xf6, 0x95, 0x1a)
  const C27 := Vec(0x6b, 0xce, 0xc0, 0xac, 0x5d, 0xd7, 0x74, 0x53, 0xd3, 0xa7, 0x24, 0x73, 0xcd, 0x72, 0x01, 0x1b)
  const C28 := Vec(0xa2, 0x26, 0x41, 0x31, 0x9a, 0xec, 0xd1, 0xfd, 0x83, 0x52, 0x91, 0x03, 0x9b, 0x68, 0x6b, 0x1c)
  const C29 := Vec(0xcc, 0x84, 0x37, 0x43, 0xf6, 0xa4, 0xab, 0x45, 0xde, 0x75, 0x2c, 0x13, 0x46, 0xec, 0xff, 0x1d)
  const C30 := Vec(0x7e, 0xa1, 0xad, 0xd5, 0x42, 0x7c, 0x25, 0x4e, 0x39, 0x1c, 0x28, 0x23, 0xe2, 0xa3, 0x80, 0x1e)
  const C31 := Vec(0x10, 0x03, 0xdb, 0xa7, 0x2e, 0x34, 0x5f, 0xf6, 0x64, 0x3b, 0x95, 0x33, 0x3f, 0x27, 0x14, 0x1f)
  const C32 := Vec(0x5e, 0xa7, 0xd8, 0x58, 0x1e, 0x14, 0x9b, 0x61, 0xf1, 0x6a, 0xc1, 0x45, 0x9c, 0xed, 0xa8, 0x20)

  // Sums over zero bytes are slow to evaluate, so the constants with one bit are differences: D0 has no zero byte, each
  // other D one bit more in its last byte, and each E is the linear layer on its D.

  const D0 := Vec(0x91, 0x8a, 0xa7, 0xb6, 0xc5, 0xd4, 0xe3, 0xf2, 0x1d, 0x2c, 0x3b, 0x4e, 0x59, 0x68, 0x77, 0x80)
  const E0 := Vec(0x0c, 0x3e, 0xd9, 0x45, 0x56, 0x79, 0x91, 0x1a, 0x5e, 0xe2, 0x5b, 0x95, 0xf2, 0x42, 0xfe, 0x2d)
  const D1 := Vec(0x91, 0x8a, 0xa7, 0xb6, 0xc5, 0xd4, 0xe3, 0xf2, 0x1d, 0x2c, 0x3b, 0x4e, 0x59, 0x68, 0x77, 0x81)
  const E1 := Vec(0x62, 0x9c, 0xaf, 0x37, 0x3a, 0x31, 0xeb, 0xa2, 0x03, 0xc5, 0xe6, 0x85, 0x2f, 0xc6, 0x6a, 0x2c)
  const D2 := Vec(0x91, 0x8a, 0xa7, 0xb6, 0xc5, 0xd4, 0xe3, 0xf2, 0x1d, 0x2c, 0x3b, 0x4e, 0x59, 0x68, 0x77, 0x82)
  const E2 := Vec(0xd0, 0xb9, 0x35, 0xa1, 0x8e, 0xe9, 0x65, 0xa9, 0xe4, 0xac, 0xe2, 0xb5, 0x8b, 0x89, 0x15, 0x2f)
  const D4 := Vec(0x91, 0x8a, 0xa7, 0xb6, 0xc5, 0xd4, 0xe3, 0xf2, 0x1d, 0x2c, 0x3b, 0x4e, 0x59, 0x68, 0x77, 0x84)
  const E4 := Vec(0x77, 0xf3, 0xc2, 0x4e, 0x25, 0x9a, 0xba, 0xbf, 0xe9, 0x7e, 0xea, 0xd5, 0x00, 0x17, 0xeb, 0x29)
  const D8 := Vec(0x91, 0x8a, 0xa7, 0xb6, 0xc5, 0xd4, 0xe3, 0xf2, 0x1d, 0x2c, 0x3b, 0x4e, 0x59, 0x68, 0x77, 0x88)
  const E8 := Vec(0xfa, 0x67, 0xef, 0x53, 0xb0, 0x7c, 0xc7, 0x93, 0xf3, 0x19, 0xfa, 0x15, 0xd5, 0xe8, 0xd4, 0x25)
  const D16 := Vec(0x91, 0x8a, 0xa7, 0xb6, 0xc5, 0xd4, 0xe3, 0xf2, 0x1d, 0x2c, 0x3b, 0x4e, 0x59, 0x68, 0x77, 0x90)
  const E16 := Vec(0x23, 0x8c, 0xb5, 0x69, 0x59, 0x73, 0x3d, 0xcb, 0xc7, 0xd7, 0xda, 0x56, 0xbc, 0xd5, 0xaa, 0x3d)
  const D32 := Vec(0x91, 0x8a, 0xa7, 0xb6, 0xc5, 0xd4, 0xe3, 0xf2, 0x1d, 0x2c, 0x3b, 0x4e, 0x59, 0x68, 0x77, 0xa0)
  const E32 := Vec(0x52, 0x99, 0x01, 0x1d, 0x48, 0x6d, 0x0a, 0x7b, 0xaf, 0x88, 0x9a, 0xd0, 0x6e, 0xaf, 0x56, 0x0d)

  lemma Layer0()
    ensures L(Of(D0)) == Of(E0)
  {
    hide L, Of;
    LinearOf(D0, E0);
  }

  lemma Layer1()
    ensures L(Of(D1)) == Of(E1)
  {
    hide L, Of;
    LinearOf(D1, E1);
  }

  lemma Layer2()
    ensures L(Of(D2)) == Of(E2)
  {
    hide L, Of;
    LinearOf(D2, E2);
  }

  lemma Layer4()
    ensures L(Of(D4)) == Of(E4)
  {
    hide L, Of;
    LinearOf(D4, E4);
  }

  lemma Layer8()
    ensures L(Of(D8)) == Of(E8)
  {
    hide L, Of;
    LinearOf(D8, E8);
  }

  lemma Layer16()
    ensures L(Of(D16)) == Of(E16)
  {
    hide L, Of;
    LinearOf(D16, E16);
  }

  lemma Layer32()
    ensures L(Of(D32)) == Of(E32)
  {
    hide L, Of;
    LinearOf(D32, E32);
  }

  lemma Constant1()
    ensures C(0) == Of(C1)
  {
    hide C, L, Of;
    Layer0();
    Layer1();
    DifferenceOf(0, D0, D1, E0, E1, C1);
  }

  lemma Constant2()
    ensures C(1) == Of(C2)
  {
    hide C, L, Of;
    Layer0();
    Layer2();
    DifferenceOf(1, D0, D2, E0, E2, C2);
  }

  lemma Constant3()
    ensures C(2) == Of(C3)
  {
    hide C, L, Of;
    Constant2();
    Constant1();
    SumOfConstants(1, 0, 2, 2, 1, C2, C1, C3);
  }

  lemma Constant4()
    ensures C(3) == Of(C4)
  {
    hide C, L, Of;
    Layer0();
    Layer4();
    DifferenceOf(3, D0, D4, E0, E4, C4);
  }

  lemma Constant5()
    ensures C(4) == Of(C5)
  {
    hide C, L, Of;
    Constant4();
    Constant1();
    SumOfConstants(3, 0, 4, 4, 1, C4, C1, C5);
  }

  lemma Constant6()
    ensures C(5) == Of(C6)
  {
    hide C, L, Of;
    Constant4();
    Constant2();
    SumOfConstants(3, 1, 5, 4, 2, C4, C2, C6);
  }

  lemma Constant7()
    ensures C(6) == Of(C7)
  {
    hide C, L, Of;
    Constant4();
    Constant3();
    SumOfConstants(3, 2, 6, 4, 3, C4, C3, C7);
  }

  lemma Constant8()
    ensures C(7) == Of(C8)
  {
    hide C, L, Of;
    Layer0();
    Layer8();
    DifferenceOf(7, D0, D8, E0, E8, C8);
  }

  lemma Constant9()
    ensures C(8) == Of(C9)
  {
    hide C, L, Of;
    Constant8();
    Constant1();
    SumOfConstants(7, 0, 8, 8, 1, C8, C1, C9);
  }

  lemma Constant10()
    ensures C(9) == Of(C10)
  {
    hide C, L, Of;
    Constant8();
    Constant2();
    SumOfConstants(7, 1, 9, 8, 2, C8, C2, C10);
  }

  lemma Constant11()
    ensures C(10) == Of(C11)
  {
    hide C, L, Of;
    Constant8();
    Constant3();
    SumOfConstants(7, 2, 10, 8, 3, C8, C3, C11);
  }

  lemma Constant12()
    ensures C(11) == Of(C12)
  {
    hide C, L, Of;
    Constant8();
    Constant4();
    SumOfConstants(7, 3, 11, 8, 4, C8, C4, C12);
  }

  lemma Constant13()
    ensures C(12) == Of(C13)
  {
    hide C, L, Of;
    Constant8();
    Constant5();
    SumOfConstants(7, 4, 12, 8, 5, C8, C5, C13);
  }

  lemma Constant14()
    ensures C(13) == Of(C14)
  {
    hide C, L, Of;
    Constant8();
    Constant6();
    SumOfConstants(7, 5, 13, 8, 6, C8, C6, C14);
  }

  lemma Constant15()
    ensures C(14) == Of(C15)
  {
    hide C, L, Of;
    Constant8();
    Constant7();
    SumOfConstants(7, 6, 14, 8, 7, C8, C7, C15);
  }

  lemma Constant16()
    ensures C(15) == Of(C16)
  {
    hide C, L, Of;
    Layer0();
    Layer16();
    DifferenceOf(15, D0, D16, E0, E16, C16);
  }

  lemma Constant17()
    ensures C(16) == Of(C17)
  {
    hide C, L, Of;
    Constant16();
    Constant1();
    SumOfConstants(15, 0, 16, 16, 1, C16, C1, C17);
  }

  lemma Constant18()
    ensures C(17) == Of(C18)
  {
    hide C, L, Of;
    Constant16();
    Constant2();
    SumOfConstants(15, 1, 17, 16, 2, C16, C2, C18);
  }

  lemma Constant19()
    ensures C(18) == Of(C19)
  {
    hide C, L, Of;
    Constant16();
    Constant3();
    SumOfConstants(15, 2, 18, 16, 3, C16, C3, C19);
  }

  lemma Constant20()
    ensures C(19) == Of(C20)
  {
    hide C, L, Of;
    Constant16();
    Constant4();
    SumOfConstants(15, 3, 19, 16, 4, C16, C4, C20);
  }

  lemma Constant21()
    ensures C(20) == Of(C21)
  {
    hide C, L, Of;
    Constant16();
    Constant5();
    SumOfConstants(15, 4, 20, 16, 5, C16, C5, C21);
  }

  lemma Constant22()
    ensures C(21) == Of(C22)
  {
    hide C, L, Of;
    Constant16();
    Constant6();
    SumOfConstants(15, 5, 21, 16, 6, C16, C6, C22);
  }

  lemma Constant23()
    ensures C(22) == Of(C23)
  {
    hide C, L, Of;
    Constant16();
    Constant7();
    SumOfConstants(15, 6, 22, 16, 7, C16, C7, C23);
  }

  lemma Constant24()
    ensures C(23) == Of(C24)
  {
    hide C, L, Of;
    Constant16();
    Constant8();
    SumOfConstants(15, 7, 23, 16, 8, C16, C8, C24);
  }

  lemma Constant25()
    ensures C(24) == Of(C25)
  {
    hide C, L, Of;
    Constant16();
    Constant9();
    SumOfConstants(15, 8, 24, 16, 9, C16, C9, C25);
  }

  lemma Constant26()
    ensures C(25) == Of(C26)
  {
    hide C, L, Of;
    Constant16();
    Constant10();
    SumOfConstants(15, 9, 25, 16, 10, C16, C10, C26);
  }

  lemma Constant27()
    ensures C(26) == Of(C27)
  {
    hide C, L, Of;
    Constant16();
    Constant11();
    SumOfConstants(15, 10, 26, 16, 11, C16, C11, C27);
  }

  lemma Constant28()
    ensures C(27) == Of(C28)
  {
    hide C, L, Of;
    Constant16();
    Constant12();
    SumOfConstants(15, 11, 27, 16, 12, C16, C12, C28);
  }

  lemma Constant29()
    ensures C(28) == Of(C29)
  {
    hide C, L, Of;
    Constant16();
    Constant13();
    SumOfConstants(15, 12, 28, 16, 13, C16, C13, C29);
  }

  lemma Constant30()
    ensures C(29) == Of(C30)
  {
    hide C, L, Of;
    Constant16();
    Constant14();
    SumOfConstants(15, 13, 29, 16, 14, C16, C14, C30);
  }

  lemma Constant31()
    ensures C(30) == Of(C31)
  {
    hide C, L, Of;
    Constant16();
    Constant15();
    SumOfConstants(15, 14, 30, 16, 15, C16, C15, C31);
  }

  lemma Constant32()
    ensures C(31) == Of(C32)
  {
    hide C, L, Of;
    Layer0();
    Layer32();
    DifferenceOf(31, D0, D32, E0, E32, C32);
  }

  /** The array, row by row. */
  function Array(i: nat): Vec
    requires i < 32
  {
    match i
    case 0 => C1 case 1 => C2 case 2 => C3 case 3 => C4
    case 4 => C5 case 5 => C6 case 6 => C7 case 7 => C8
    case 8 => C9 case 9 => C10 case 10 => C11 case 11 => C12
    case 12 => C13 case 13 => C14 case 14 => C15 case 15 => C16
    case 16 => C17 case 17 => C18 case 18 => C19 case 19 => C20
    case 20 => C21 case 21 => C22 case 22 => C23 case 23 => C24
    case 24 => C25 case 25 => C26 case 26 => C27 case 27 => C28
    case 28 => C29 case 29 => C30 case 30 => C31 case _ => C32
  }

  /** Every iteration constant is the one in the array. */
  lemma IterationConstant(i: nat)
    requires i < 32
    ensures C(i) == Of(Array(i))
  {
    hide C, L, Of;
    match i
    case 0 => Constant1();
    case 1 => Constant2();
    case 2 => Constant3();
    case 3 => Constant4();
    case 4 => Constant5();
    case 5 => Constant6();
    case 6 => Constant7();
    case 7 => Constant8();
    case 8 => Constant9();
    case 9 => Constant10();
    case 10 => Constant11();
    case 11 => Constant12();
    case 12 => Constant13();
    case 13 => Constant14();
    case 14 => Constant15();
    case 15 => Constant16();
    case 16 => Constant17();
    case 17 => Constant18();
    case 18 => Constant19();
    case 19 => Constant20();
    case 20 => Constant21();
    case 21 => Constant22();
    case 22 => Constant23();
    case 23 => Constant24();
    case 24 => Constant25();
    case 25 => Constant26();
    case 26 => Constant27();
    case 27 => Constant28();
    case 28 => Constant29();
    case 29 => Constant30();
    case 30 => Constant31();
    case _ => Constant32();
  }

  /** The first constant byte by byte: the impulse response of L, all coefficients of the linear form. */
  lemma ImpulseResponse()
    ensures L(Place(15, 1)) == [
              0x6e, 0xa2, 0x76, 0x72, 0x6c, 0x48, 0x7a, 0xb8, 0x5d, 0x27, 0xbd, 0x10, 0xdd, 0x84, 0x94, 0x01]
  {
    FirstConstant();
    hide L, Place, Of, C;
    Constant1();
    Bytes16(C1);
  }

  lemma FirstConstant()
    ensures C(0) == L(Place(15, 1))
  {
    hide L;
  }
}
