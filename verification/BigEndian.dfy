/** Byte strings as big-endian numbers: the counter and the MAC subkeys are read this way. */
module BigEndian {
  import opened Binary
  import opened Bytes

  function Init(s: seq<byte>): seq<byte>
    requires s != []
  {
    s[..|s| - 1]
  }

  function Last(s: seq<byte>): byte
    requires s != []
  {
    s[|s| - 1]
  }

  /** The number a byte string denotes, most significant byte first. */
  function Value(s: seq<byte>): nat {
    if s == [] then 0 else 256 * Value(Init(s)) + Last(s)
  }

  /** The number of values `n` bytes can hold. */
  function Range(n: nat): (r: nat)
    ensures r > 0
  {
    Pow2(8 * n)
  }

  lemma RangeStep(n: nat)
    ensures Range(0) == 1
    ensures Range(n + 1) == 256 * Range(n)
  {
    Pow2Byte();
    Pow2Add(8, 8 * n);
    assert 8 + 8 * n == 8 * (n + 1);
  }

  lemma {:induction false} ValueBound(s: seq<byte>)
    ensures Value(s) < Range(|s|)
  {
    if s != [] {
      ValueBound(Init(s));
      hide Range;
      RangeStep(|s| - 1);
    } else {
      RangeStep(0);
    }
  }

  lemma {:induction false} ValueInjective(s: seq<byte>, t: seq<byte>)
    requires |s| == |t| && Value(s) == Value(t)
    ensures s == t
  {
    if s == [] {
    } else {
      assert Last(s) == Last(t) && Value(Init(s)) == Value(Init(t));
      ValueInjective(Init(s), Init(t));
      assert s == Init(s) + [Last(s)] && t == Init(t) + [Last(t)];
    }
  }

  lemma {:induction false} ValueZeros(n: nat)
    ensures Value(Zeros(n)) == 0
  {
    if n == 0 {
    } else {
      ValueZeros(n - 1);
      assert Init(Zeros(n)) == Zeros(n - 1);
    }
  }

  /** Exclusive or of byte strings is exclusive or of the numbers. */
  lemma {:induction false} ValueXor(a: seq<byte>, b: seq<byte>)
    requires |a| == |b|
    ensures Value(Xor(a, b)) == XorBits(Value(a), Value(b), 8 * |a|)
  {
    if a == [] {
      XorBitsSelf(0, 0);
    } else {
      var k := 8 * (|a| - 1);
      ValueXor(Init(a), Init(b));
      XorInit(a, b);
      ValueSplit(a);
      ValueSplit(b);
      ValueSplit(Xor(a, b));
      hide Value, XorBits, Xor;
      XorLowByte(Value(a), Last(a), Value(Init(a)), Value(b), Last(b), Value(Init(b)), k, 8 * |a|);
    }
  }

  lemma ValueSplit(s: seq<byte>)
    requires s != []
    ensures Value(s) == Last(s) + 256 * Value(Init(s))
  {
  }

  lemma XorInit(a: seq<byte>, b: seq<byte>)
    requires |a| == |b| > 0
    ensures Init(Xor(a, b)) == Xor(Init(a), Init(b)) && Last(Xor(a, b)) == XorBits(Last(a), Last(b), 8)
  {
    hide XorBits;
  }

  // Adding one.

  /** Go's `b++` on a byte. */
  function Inc(b: byte): byte { if b == 255 then 0 else b + 1 }

  /** One more, the carry running from the last byte towards the first and lost beyond it. */
  function Successor(s: seq<byte>): (t: seq<byte>)
    ensures |t| == |s|
  {
    if s == [] then []
    else if Last(s) == 255 then Successor(Init(s)) + [0]
    else Init(s) + [Inc(Last(s))]
  }

  /** Only a string of 0xFF bytes wraps. */
  lemma {:induction false} ValueSuccessor(s: seq<byte>)
    ensures Value(Successor(s)) == if Value(s) + 1 == Range(|s|) then 0 else Value(s) + 1
  {
    ValueBound(s);
    if s == [] {
      RangeStep(0);
    } else {
      ValueSuccessor(Init(s));
      ValueBound(Init(s));
      hide Range;
      RangeStep(|s| - 1);
      ValueAppend(Successor(Init(s)), 0);
      ValueAppend(Init(s), Inc(Last(s)));
    }
  }

  lemma ValueAppend(s: seq<byte>, v: byte)
    ensures Value(s + [v]) == 256 * Value(s) + v
  {
    assert Init(s + [v]) == s;
  }

  // Doubling.

  /** Go's `(b << 1) | carry` on a byte. */
  function Shl(b: byte, carry: nat): byte
    requires carry <= 1
  {
    (if b >= 128 then 2 * b - 256 else 2 * b) + carry
  }

  /** Go's `b >> 7`. */
  function TopBitOf(b: byte): nat { if b >= 128 then 1 else 0 }

  /** Every byte shifted left by one, the bit pushed out of a byte entering the one before it. */
  function ShiftLeft(s: seq<byte>, carry: nat): (t: seq<byte>)
    requires carry <= 1
    ensures |t| == |s|
  {
    if s == [] then []
    else ShiftLeft(Init(s), TopBitOf(Last(s))) + [Shl(Last(s), carry)]
  }

  lemma {:induction false} ValueShiftLeft(s: seq<byte>, carry: nat)
    requires carry <= 1
    ensures Value(ShiftLeft(s, carry)) == Doubled(Value(s), carry, Range(|s|))
  {
    if s == [] {
      RangeStep(0);
    } else {
      var c := TopBitOf(Last(s));
      ValueShiftLeft(Init(s), c);
      ValueAppend(ShiftLeft(Init(s), c), Shl(Last(s), carry));
      assert ShiftLeft(s, carry) == ShiftLeft(Init(s), c) + [Shl(Last(s), carry)];
      ValueSplit(s);
      ValueBound(Init(s));
      hide Range, Value, ShiftLeft;
      RangeStep(|s| - 1);
      DoubleStep(Value(Init(s)), Last(s), carry, Range(|s| - 1));
    }
  }

  /** Doubling with a carry, modulo `r`. */
  function Doubled(v: nat, carry: nat, r: nat): int {
    if 2 * v + carry >= r then 2 * v + carry - r else 2 * v + carry
  }

  lemma DoubleStep(v: nat, last: byte, carry: nat, r: nat)
    requires v < r && carry <= 1
    ensures 256 * Doubled(v, TopBitOf(last), r) + Shl(last, carry) == Doubled(256 * v + last, carry, 256 * r)
  {
  }

  /** Shifting the bytes doubles the number and drops what no longer fits. */
  lemma ShiftLeftDoubles(s: seq<byte>)
    ensures Value(s) < Pow2(8 * |s|)
    ensures Value(ShiftLeft(s, 0)) == Shift(Value(s), 8 * |s|)
  {
    ValueBound(s);
    ValueShiftLeft(s, 0);
  }
}
