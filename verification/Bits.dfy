/** Bitwise or on natural numbers. */
module Bits {
  import opened Arithmetic

  function Or(a: nat, b: nat): nat {
    if a == 0 && b == 0 then 0
    else 2 * Or(a / 2, b / 2) + One(a % 2 == 1 || b % 2 == 1)
  }

  /** Bit k of the result is set iff it is in either operand. */
  lemma {:induction false} OrBit(a: nat, b: nat, k: nat)
    ensures Or(a, b) / Pow2(k) % 2 == One(a / Pow2(k) % 2 == 1 || b / Pow2(k) % 2 == 1)
    decreases k
  {
    if k > 0 {
      OrBit(a / 2, b / 2, k - 1);
      assert Or(a, b) / 2 == Or(a / 2, b / 2);
      DivHalf(a, Pow2(k - 1));
      DivHalf(b, Pow2(k - 1));
      DivHalf(Or(a, b), Pow2(k - 1));
    } else {
      assert Pow2(0) == 1;
    }
  }

  lemma DivHalf(v: nat, p: nat)
    requires p > 0
    ensures v / (2 * p) == v / 2 / p
  {
    var q, r := v / 2 / p, v / 2 % p;
    assert v / 2 == q * p + r;
    assert v == q * (2 * p) + (2 * r + v % 2);
    DivModUnique(v, q, 2 * p, 2 * r + v % 2);
  }

  lemma OrStep(x: nat, y: nat, bit: nat)
    requires bit < 2
    ensures Or(2 * x + bit, 2 * y) == 2 * Or(x, y) + bit
  {
  }

  /** Or-ing a word whose k low bits are zero leaves the low bits alone. */
  lemma {:induction false} OrHigh(q: nat, r: nat, high: nat, k: nat)
    requires r < Pow2(k)
    ensures Or(q * Pow2(k) + r, high * Pow2(k)) == Or(q, high) * Pow2(k) + r
  {
    if k > 0 {
      var p := Pow2(k - 1);
      OrHigh(q, r / 2, high, k - 1);
      OrDouble(q, r, high, p);
    }
  }

  lemma OrDouble(q: nat, r: nat, high: nat, p: nat)
    requires Or(q * p + r / 2, high * p) == Or(q, high) * p + r / 2
    ensures Or(q * (2 * p) + r, high * (2 * p)) == Or(q, high) * (2 * p) + r
  {
    OrStep(q * p + r / 2, high * p, r % 2);
    Double(q, p);
    Double(high, p);
    Double(Or(q, high), p);
  }

  lemma Double(x: nat, p: nat)
    ensures x * (2 * p) == 2 * (x * p)
  {
  }

  lemma {:induction false} OrZero(b: nat)
    ensures Or(0, b) == b
  {
    if b > 0 {
      OrZero(b / 2);
    }
  }

  lemma OrLow(r: nat, high: nat, k: nat)
    requires r < Pow2(k)
    ensures Or(r, high * Pow2(k)) == r + high * Pow2(k)
  {
    OrHigh(0, r, high, k);
    OrZero(high);
    assert 0 * Pow2(k) + r == r;
  }

  lemma OrThree(x: nat)
    requires x < 4
    ensures Or(x, 3) == 3
  {
    assert Or(0, 0) == 0;
    assert Or(x / 2, 1) == 1;
  }

  lemma {:induction false} PowSum(a: nat, b: nat)
    ensures Pow2(a + b) == Pow2(a) * Pow2(b)
  {
    if b > 0 {
      PowSum(a, b - 1);
      Double(Pow2(a), Pow2(b - 1));
    }
  }

  /** The powers that separate the length classes. */
  lemma Powers()
    ensures Pow2(8) == 0x100 && Pow2(14) == 0x4000 && Pow2(30) == 0x4000_0000 && Pow2(62) == 0x4000_0000_0000_0000
  {
    SmallPowers();
    PowSum(8, 8);
    PowSum(14, 16);
    PowSum(30, 16);
    PowSum(46, 16);
  }

  lemma SmallPowers()
    ensures Pow2(8) == 0x100 && Pow2(14) == 0x4000
  {
    assert Pow2(3) == 8;
    PowSum(3, 3);
    PowSum(6, 2);
    PowSum(8, 6);
  }
}
