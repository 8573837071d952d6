/** Binary digits of naturals and the exclusive or of fixed-width unsigned integers. */
module Binary {

  function Pow2(k: nat): (p: nat)
    ensures p > 0
  {
    if k == 0 then 1 else 2 * Pow2(k - 1)
  }

  lemma {:induction false} Pow2Add(j: nat, k: nat)
    ensures Pow2(j + k) == Pow2(j) * Pow2(k)
  {
    if j == 0 {
    } else {
      Pow2Add(j - 1, k);
      assert Pow2(j + k) == 2 * (Pow2(j - 1) * Pow2(k));
    }
  }

  /** The `k` low-order binary digits of `n`, least significant first. */
  function Digits(n: nat, k: nat): (d: seq<bool>)
    ensures |d| == k
  {
    if k == 0 then [] else [n % 2 == 1] + Digits(n / 2, k - 1)
  }

  /** The number with digits `d`, least significant first. */
  function Number(d: seq<bool>): (n: nat)
    ensures n < Pow2(|d|)
  {
    if d == [] then 0 else (if d[0] then 1 else 0) + 2 * Number(d[1..])
  }

  lemma DigitsStep(n: nat, k: nat)
    requires k > 0
    ensures Digits(n, k) == [n % 2 == 1] + Digits(n / 2, k - 1)
  {
  }

  lemma NumberStep(d: seq<bool>)
    requires d != []
    ensures Number(d) == (if d[0] then 1 else 0) + 2 * Number(d[1..])
  {
  }

  lemma {:induction false} NumberDigits(n: nat, k: nat)
    requires n < Pow2(k)
    ensures Number(Digits(n, k)) == n
  {
    if k == 0 {
    } else {
      NumberDigits(n / 2, k - 1);
      assert Digits(n, k)[1..] == Digits(n / 2, k - 1);
    }
  }

  lemma {:induction false} DigitsNumber(d: seq<bool>)
    ensures Digits(Number(d), |d|) == d
  {
    if d == [] {
    } else {
      DigitsNumber(d[1..]);
      var rest := Number(d[1..]);
      assert Number(d) / 2 == rest && Number(d) % 2 == (if d[0] then 1 else 0);
    }
  }

  /** Numbers of one width are equal when their digits are. */
  lemma DigitsInjective(a: nat, b: nat, k: nat)
    requires a < Pow2(k) && b < Pow2(k)
    requires Digits(a, k) == Digits(b, k)
    ensures a == b
  {
    NumberDigits(a, k);
    NumberDigits(b, k);
  }

  lemma {:induction false} DigitsZero(k: nat)
    ensures Digits(0, k) == seq(k, _ => false)
  {
    if k == 0 {
    } else {
      DigitsZero(k - 1);
    }
  }

  function XorDigits(a: seq<bool>, b: seq<bool>): (c: seq<bool>)
    requires |a| == |b|
    ensures |c| == |a|
  {
    seq(|a|, i requires 0 <= i < |a| => a[i] != b[i])
  }

  /** Exclusive or of two `k`-bit unsigned integers. */
  function XorBits(a: nat, b: nat, k: nat): (c: nat)
    ensures c < Pow2(k)
  {
    Number(XorDigits(Digits(a, k), Digits(b, k)))
  }

  lemma XorBitsDigits(a: nat, b: nat, k: nat)
    ensures Digits(XorBits(a, b, k), k) == XorDigits(Digits(a, k), Digits(b, k))
  {
    DigitsNumber(XorDigits(Digits(a, k), Digits(b, k)));
  }

  lemma XorBitsSelf(a: nat, k: nat)
    ensures XorBits(a, a, k) == 0
  {
    XorBitsDigits(a, a, k);
    DigitsZero(k);
    assert XorDigits(Digits(a, k), Digits(a, k)) == Digits(0, k);
    NumberDigits(0, k);
  }

  lemma XorBitsZero(a: nat, k: nat)
    requires a < Pow2(k)
    ensures XorBits(a, 0, k) == a
  {
    DigitsZero(k);
    assert XorDigits(Digits(a, k), Digits(0, k)) == Digits(a, k);
    NumberDigits(a, k);
  }

  lemma XorBitsComm(a: nat, b: nat, k: nat)
    ensures XorBits(a, b, k) == XorBits(b, a, k)
  {
    assert XorDigits(Digits(a, k), Digits(b, k)) == XorDigits(Digits(b, k), Digits(a, k));
  }

  lemma XorDigitsAssoc(a: seq<bool>, b: seq<bool>, c: seq<bool>)
    requires |a| == |b| == |c|
    ensures XorDigits(XorDigits(a, b), c) == XorDigits(a, XorDigits(b, c))
  {
  }

  lemma XorBitsAssoc(a: nat, b: nat, c: nat, k: nat)
    ensures XorBits(XorBits(a, b, k), c, k) == XorBits(a, XorBits(b, c, k), k)
  {
    hide Digits, Number, XorDigits;
    XorBitsDigits(a, b, k);
    XorBitsDigits(b, c, k);
    XorDigitsAssoc(Digits(a, k), Digits(b, k), Digits(c, k));
  }

  // Shifts.

  /** A `k`-bit number shifted left by one place, its top bit lost. */
  function Shift(a: nat, k: nat): (b: nat)
    requires a < Pow2(k)
    ensures k > 0 ==> b < Pow2(k)
  {
    if 2 * a >= Pow2(k) then 2 * a - Pow2(k) else 2 * a
  }

  lemma {:induction false} DigitsPrefix(a: nat, k: nat)
    ensures Digits(a, k + 1)[..k] == Digits(a, k)
  {
    if k == 0 {
    } else {
      DigitsPrefix(a / 2, k - 1);
    }
  }

  lemma {:induction false} DigitsModulo(a: nat, k: nat)
    ensures Digits(a + Pow2(k), k) == Digits(a, k)
  {
    if k == 0 {
    } else {
      DigitsModulo(a / 2, k - 1);
      assert (a + Pow2(k)) / 2 == a / 2 + Pow2(k - 1);
      assert (a + Pow2(k)) % 2 == a % 2;
    }
  }

  lemma {:induction false} TopDigit(a: nat, k: nat)
    requires k > 0 && a < Pow2(k)
    ensures Digits(a, k)[k - 1] <==> 2 * a >= Pow2(k)
  {
    if k > 1 {
      var h := a / 2;
      assert a == 2 * h + a % 2;
      assert h < Pow2(k - 1);
      TopDigit(h, k - 1);
      assert Digits(a, k)[k - 1] == Digits(h, k - 1)[k - 2];
      assert Pow2(k) == 2 * Pow2(k - 1) && Pow2(k - 1) == 2 * Pow2(k - 2);
    }
  }

  lemma ShiftDigits(a: nat, k: nat)
    requires k > 0 && a < Pow2(k)
    ensures Digits(Shift(a, k), k) == [false] + Digits(a, k)[..k - 1]
  {
    hide Digits;
    DigitsStep(2 * a, k);
    DigitsPrefix(a, k - 1);
    if 2 * a >= Pow2(k) {
      DigitsModulo(2 * a - Pow2(k), k);
    }
  }

  /** Halving drops the lowest digit and brings in a zero at the top. */
  lemma HalfDigits(n: nat, k: nat)
    requires k > 0 && n < Pow2(k)
    ensures Digits(n / 2, k) == Digits(n, k)[1..] + [false]
    ensures Digits(n, k)[0] == (n % 2 == 1)
  {
    var h := n / 2;
    DigitsStep(n, k);
    DigitsPrefix(h, k - 1);
    TopDigit(h, k);
    hide Digits;
    var d := Digits(h, k);
    assert d == d[..k - 1] + [d[k - 1]];
  }

  /** Shifting distributes over exclusive or. */
  lemma ShiftXor(a: nat, b: nat, k: nat)
    requires k > 0 && a < Pow2(k) && b < Pow2(k)
    ensures Shift(XorBits(a, b, k), k) == XorBits(Shift(a, k), Shift(b, k), k)
  {
    hide XorBits, Digits, Shift;
    var c := XorBits(a, b, k);
    ShiftDigits(a, k);
    ShiftDigits(b, k);
    ShiftDigits(c, k);
    XorBitsDigits(a, b, k);
    XorBitsDigits(Shift(a, k), Shift(b, k), k);
    var x, y := Digits(a, k)[..k - 1], Digits(b, k)[..k - 1];
    assert XorDigits([false] + x, [false] + y) == [false] + XorDigits(Digits(a, k), Digits(b, k))[..k - 1];
    DigitsInjective(Shift(c, k), XorBits(Shift(a, k), Shift(b, k), k), k);
  }

  // Numbers made of a low and a high part.

  /** `high` written above the `j` digits of `low`. */
  function Above(low: nat, high: nat, j: nat): nat { low + Pow2(j) * high }

  lemma {:induction false} DigitsAbove(low: nat, high: nat, j: nat, k: nat)
    requires low < Pow2(j)
    ensures Digits(Above(low, high, j), j + k) == Digits(low, j) + Digits(high, k)
  {
    if j == 0 {
      assert Digits(low, 0) == [];
      assert Above(low, high, 0) == high;
    } else {
      var n, m := Above(low, high, j), Above(low / 2, high, j - 1);
      AboveStep(low % 2, low / 2, high, j - 1);
      assert n == low % 2 + 2 * m;
      DigitsAbove(low / 2, high, j - 1, k);
      assert n / 2 == m && n % 2 == low % 2;
      assert Digits(n, j + k) == [n % 2 == 1] + Digits(n / 2, j + k - 1);
    }
  }

  lemma {:induction false} NumberConcat(d: seq<bool>, e: seq<bool>)
    ensures Number(d + e) == Above(Number(d), Number(e), |d|)
  {
    hide Above, Number;
    if d == [] {
      assert d + e == e;
      AboveNothing(Number(e));
    } else {
      NumberConcat(d[1..], e);
      assert (d + e)[1..] == d[1..] + e && (d + e)[0] == d[0];
      NumberStep(d);
      NumberStep(d + e);
      AboveStep(if d[0] then 1 else 0, Number(d[1..]), Number(e), |d| - 1);
    }
  }

  lemma AboveNothing(high: nat)
    ensures Number([]) == 0 && Above(0, high, 0) == high
  {
  }

  lemma AboveStep(digit: nat, low: nat, high: nat, j: nat)
    ensures Above(digit + 2 * low, high, j + 1) == digit + 2 * Above(low, high, j)
  {
    assert Pow2(j + 1) * high == 2 * (Pow2(j) * high);
  }

  /** Exclusive or works on the low and the high parts separately. */
  lemma XorBitsAbove(low: nat, high: nat, low': nat, high': nat, j: nat, k: nat)
    requires low < Pow2(j) && low' < Pow2(j)
    ensures XorBits(Above(low, high, j), Above(low', high', j), j + k) ==
            Above(XorBits(low, low', j), XorBits(high, high', k), j)
  {
    hide Digits, Number, Above;
    DigitsAbove(low, high, j, k);
    DigitsAbove(low', high', j, k);
    var d, e, d', e' := Digits(low, j), Digits(high, k), Digits(low', j), Digits(high', k);
    assert XorDigits(d + e, d' + e') == XorDigits(d, d') + XorDigits(e, e');
    NumberConcat(XorDigits(d, d'), XorDigits(e, e'));
  }

  function OrDigits(a: seq<bool>, b: seq<bool>): (c: seq<bool>)
    requires |a| == |b|
    ensures |c| == |a|
  {
    seq(|a|, i requires 0 <= i < |a| => a[i] || b[i])
  }

  /** Inclusive or of two `k`-bit unsigned integers. */
  function OrBits(a: nat, b: nat, k: nat): (c: nat)
    ensures c < Pow2(k)
  {
    Number(OrDigits(Digits(a, k), Digits(b, k)))
  }

  lemma AboveParts(low: nat, high: nat, j: nat)
    ensures Above(low, 0, j) == low && Above(0, high, j) == Pow2(j) * high
    ensures Above(low, high, j) == low + Pow2(j) * high
  {
    hide Pow2;
  }

  lemma {:induction false} RoomAbove(p: nat, high: nat, q: nat)
    requires high < q
    ensures p * high + p <= p * q
    decreases q
  {
    if q == high + 1 {
      assert p * q == p * high + p;
    } else {
      RoomAbove(p, high, q - 1);
      assert p * q == p * (q - 1) + p;
    }
  }

  lemma AboveBound(low: nat, high: nat, j: nat, k: nat)
    requires low < Pow2(j) && high < Pow2(k)
    ensures Above(low, high, j) < Pow2(j + k)
  {
    AboveParts(low, high, j);
    hide Pow2, Above;
    Pow2Add(j, k);
    RoomAbove(Pow2(j), high, Pow2(k));
  }

  /** Two digit strings that are false where the other is not. */
  lemma OrDigitsApart(d: seq<bool>, e: seq<bool>)
    ensures OrDigits(d + seq(|e|, _ => false), seq(|d|, _ => false) + e) == d + e
  {
  }

  lemma OrOfParts(low: nat, high: nat, j: nat, k: nat)
    requires low < Pow2(j) && high < Pow2(k)
    ensures OrBits(Above(low, 0, j), Above(0, high, j), j + k) == Above(low, high, j)
  {
    hide Digits, Number, Above, Pow2, OrDigits;
    AboveBound(low, high, j, k);
    DigitsAbove(low, high, j, k);
    DigitsAbove(low, 0, j, k);
    DigitsAbove(0, high, j, k);
    DigitsZero(j);
    DigitsZero(k);
    OrDigitsApart(Digits(low, j), Digits(high, k));
    NumberDigits(Above(low, high, j), j + k);
  }

  /** Bits that do not overlap: the inclusive or adds. */
  lemma OrAbove(low: nat, high: nat, j: nat, k: nat)
    requires low < Pow2(j) && high < Pow2(k)
    ensures OrBits(low, Pow2(j) * high, j + k) == low + Pow2(j) * high
  {
    hide Above, Pow2, OrBits;
    AboveParts(low, high, j);
    OrOfParts(low, high, j, k);
  }
}
