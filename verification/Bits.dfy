/** Bitwise operators on unbounded naturals, digit by digit, and what they mean arithmetically. */
module Bits {
  import opened Quotients

  function Pow2(k: nat): (p: nat)
    ensures p > 0
  {
    if k == 0 then 1 else 2 * Pow2(k - 1)
  }

  function Xor(a: nat, b: nat): nat
    decreases a + b
  {
    if a == 0 && b == 0 then 0 else (a + b) % 2 + 2 * Xor(a / 2, b / 2)
  }

  function Or(a: nat, b: nat): nat
    decreases a + b
  {
    if a == 0 && b == 0 then 0 else (if a % 2 == 1 || b % 2 == 1 then 1 else 0) + 2 * Or(a / 2, b / 2)
  }

  /** The lowest `k` bits. */
  function Low(n: nat, k: nat): nat {
    if k == 0 then 0 else n % 2 + 2 * Low(n / 2, k - 1)
  }

  lemma Digits(d: nat, y: nat)
    requires d < 2
    ensures (d + 2 * y) % 2 == d && (d + 2 * y) / 2 == y
  {
  }

  lemma XorUnfolds(a: nat, b: nat)
    ensures Xor(a, b) == (a + b) % 2 + 2 * Xor(a / 2, b / 2)
  {
    if a == 0 && b == 0 {
      assert Xor(0, 0) == 0;
    }
  }

  lemma XorDigits(a: nat, b: nat)
    ensures Xor(a, b) % 2 == (a + b) % 2 && Xor(a, b) / 2 == Xor(a / 2, b / 2)
  {
    hide Xor;
    XorUnfolds(a, b);
    var x, d, y := Xor(a, b), (a + b) % 2, Xor(a / 2, b / 2);
    assert x == d + 2 * y && d < 2;
    Digits(d, y);
  }

  lemma XorFromDigits(a: nat, b: nat, x: nat)
    requires x % 2 == (a + b) % 2 && x / 2 == Xor(a / 2, b / 2)
    ensures x == Xor(a, b)
  {
    hide Xor;
    XorUnfolds(a, b);
    assert x == x % 2 + 2 * (x / 2);
  }

  lemma {:induction false} XorTwiceCancels(a: nat, b: nat)
    ensures Xor(Xor(a, b), b) == a
    decreases a + b
  {
    if a != 0 || b != 0 {
      hide Xor;
      XorTwiceCancels(a / 2, b / 2);
      XorDigits(a, b);
      var x := Xor(a, b);
      SumParity(x, b, a + b, b);
      ShiftByMultiple(a, 2, b);
      XorFromDigits(x, b, a);
    } else {
      assert Xor(0, 0) == 0;
    }
  }

  lemma {:induction false} XorSymmetric(a: nat, b: nat)
    ensures Xor(a, b) == Xor(b, a)
    decreases a + b
  {
    if a != 0 || b != 0 {
      XorSymmetric(a / 2, b / 2);
    }
  }

  lemma LowDigits(n: nat, k: nat)
    requires k > 0
    ensures Low(n, k) % 2 == n % 2 && Low(n, k) / 2 == Low(n / 2, k - 1)
  {
    var y := Low(n / 2, k - 1);
    assert Low(n, k) == n % 2 + 2 * y;
    hide Low;
    Digits(n % 2, y);
  }

  lemma SumParity(x: nat, y: nat, a: nat, b: nat)
    requires x % 2 == a % 2 && y % 2 == b % 2
    ensures (x + y) % 2 == (a + b) % 2
  {
  }

  lemma {:induction false} XorActsPerBit(a: nat, b: nat, k: nat)
    ensures Low(Xor(a, b), k) == Xor(Low(a, k), Low(b, k))
    decreases k
  {
    if k != 0 {
      XorActsPerBit(a / 2, b / 2, k - 1);
      XorDigits(a, b);
      LowDigits(a, k);
      LowDigits(b, k);
      LowDigits(Xor(a, b), k);
      hide Xor, Low;
      var x, y := Low(a, k), Low(b, k);
      assert x / 2 == Low(a / 2, k - 1) && y / 2 == Low(b / 2, k - 1);
      SumParity(x, y, a, b);
      XorFromDigits(x, y, Low(Xor(a, b), k));
    } else {
      assert Low(Xor(a, b), 0) == 0 && Xor(0, 0) == 0;
    }
  }

  lemma RemainderOfDouble(n: nat, p: nat)
    requires p > 0
    ensures n % (2 * p) == n % 2 + 2 * (n / 2 % p)
  {
    var m, d := n / 2, n % 2;
    var q, r := m / p, m % p;
    assert m == p * q + r && 0 <= r < p;
    assert n == 2 * m + d && 0 <= d < 2;
    assert 2 * p * q == 2 * (p * q);
    QuotientUnique(n, 2 * p, q, d + 2 * r);
  }

  lemma {:induction false} LowIsRemainder(n: nat, k: nat)
    ensures Low(n, k) == n % Pow2(k)
  {
    if k != 0 {
      LowIsRemainder(n / 2, k - 1);
      RemainderOfDouble(n, Pow2(k - 1));
    }
  }

  lemma LowByte(n: nat)
    ensures Low(n, 8) == n % 0x100
  {
    assert Pow2(8) == 0x100;
    LowIsRemainder(n, 8);
  }

  /** Bits that do not overlap: or is sum. */
  lemma {:induction false} OrOfDisjoint(a: nat, v: nat, k: nat)
    requires a < Pow2(k)
    ensures Or(a, v * Pow2(k)) == a + v * Pow2(k)
    decreases k
  {
    hide Or;
    if k == 0 {
      OrOfZero(v);
    } else {
      OrOfDisjoint(a / 2, v, k - 1);
      OrDoubled(a, v * Pow2(k - 1));
      assert v * Pow2(k) == 2 * (v * Pow2(k - 1));
    }
  }

  lemma OrUnfolds(a: nat, b: nat)
    ensures Or(a, b) == (if a % 2 == 1 || b % 2 == 1 then 1 else 0) + 2 * Or(a / 2, b / 2)
  {
    if a == 0 && b == 0 {
      assert Or(0, 0) == 0;
    }
  }

  lemma OrDoubled(a: nat, w: nat)
    ensures Or(a, 2 * w) == a % 2 + 2 * Or(a / 2, w)
  {
    hide Or;
    OrUnfolds(a, 2 * w);
    Digits(0, w);
  }

  lemma {:induction false} OrOfZero(a: nat)
    ensures Or(0, a) == a && Or(a, 0) == a
  {
    if a != 0 {
      OrOfZero(a / 2);
    }
  }

  // ----- numbers as polynomials over two elements -----

  /** The product of two bit polynomials: shifted copies of `b` added without carry. */
  function CarrylessProduct(a: nat, b: nat): nat {
    if a == 0 then 0 else Xor(if a % 2 == 1 then b else 0, 2 * CarrylessProduct(a / 2, b))
  }

  lemma {:induction false} XorAssociates(a: nat, b: nat, c: nat)
    ensures Xor(Xor(a, b), c) == Xor(a, Xor(b, c))
    decreases a + b + c
  {
    if a != 0 || b != 0 || c != 0 {
      XorAssociates(a / 2, b / 2, c / 2);
      XorDigits(a, b);
      XorDigits(b, c);
      hide Xor;
      var x, y := Xor(a, b), Xor(b, c);
      SumParity(x, c, a + b, c);
      SumParity(a, y, a, b + c);
      XorDigits(x, c);
      XorDigits(a, y);
      XorFromDigits(a, y, Xor(x, c));
    } else {
      assert Xor(0, 0) == 0;
    }
  }

  lemma XorOfDoubles(a: nat, b: nat)
    ensures Xor(2 * a, 2 * b) == 2 * Xor(a, b)
  {
    hide Xor;
    XorUnfolds(2 * a, 2 * b);
    Digits(0, a);
    Digits(0, b);
    Digits(0, a + b);
  }

  /** A digit shifted in at the low end. */
  lemma {:induction false} XorOfLowDigits(a: nat, b: nat, k: nat)
    requires b < Pow2(k)
    ensures Xor(a * Pow2(k), b) == a * Pow2(k) + b
    decreases k
  {
    if k == 0 {
      XorWithZero(a);
    } else {
      hide Xor;
      XorOfLowDigits(a, b / 2, k - 1);
      TwiceProduct(a, Pow2(k - 1));
      XorShiftsIn(a * Pow2(k - 1), b);
    }
  }

  lemma XorShiftsIn(high: nat, b: nat)
    requires Xor(high, b / 2) == high + b / 2
    ensures Xor(2 * high, b) == 2 * high + b
  {
    hide Xor;
    XorUnfolds(2 * high, b);
    Digits(0, high);
    SumParity(2 * high, b, 0, b);
  }

  lemma {:induction false} XorWithZero(a: nat)
    ensures Xor(a, 0) == a && Xor(0, a) == a
  {
    if a != 0 {
      XorWithZero(a / 2);
    }
  }

  /** A number of more bits keeps them when one of fewer is added without carry. */
  lemma {:induction false} XorKeepsHigh(a: nat, b: nat, k: nat)
    requires a < Pow2(k) <= b
    ensures Xor(a, b) >= Pow2(k)
    decreases k
  {
    if k == 0 {
      XorWithZero(b);
    } else {
      XorKeepsHigh(a / 2, b / 2, k - 1);
      XorDigits(a, b);
      hide Xor;
      assert Xor(a, b) >= 2 * (Xor(a, b) / 2);
    }
  }

  /** Two sums without carry, regrouped. */
  lemma XorRegroups(a: nat, b: nat, c: nat, d: nat)
    ensures Xor(Xor(a, b), Xor(c, d)) == Xor(Xor(a, c), Xor(b, d))
  {
    hide Xor;
    XorAssociates(a, b, Xor(c, d));
    XorAssociates(b, c, d);
    XorSymmetric(b, c);
    XorAssociates(c, b, d);
    XorAssociates(a, c, Xor(b, d));
  }

  lemma ProductUnfolds(a: nat, f: nat)
    ensures CarrylessProduct(a, f) == Xor(if a % 2 == 1 then f else 0, 2 * CarrylessProduct(a / 2, f))
  {
    if a == 0 {
      XorWithZero(0);
    }
  }

  lemma {:induction false} ProductOfSum(a: nat, b: nat, f: nat)
    ensures CarrylessProduct(Xor(a, b), f) == Xor(CarrylessProduct(a, f), CarrylessProduct(b, f))
    decreases a + b
  {
    if a == 0 && b == 0 {
      XorWithZero(0);
    } else {
      ProductOfSum(a / 2, b / 2, f);
      XorDigits(a, b);
      hide Xor, CarrylessProduct;
      ProductUnfolds(a, f);
      ProductUnfolds(b, f);
      ProductUnfolds(Xor(a, b), f);
      var fa, fb := if a % 2 == 1 then f else 0, if b % 2 == 1 then f else 0;
      ChosenSum(a, b, f);
      var pa, pb := CarrylessProduct(a / 2, f), CarrylessProduct(b / 2, f);
      XorRegroups(fa, 2 * pa, fb, 2 * pb);
      XorOfDoubles(pa, pb);
    }
  }

  lemma ChosenSum(a: nat, b: nat, f: nat)
    ensures Xor(if a % 2 == 1 then f else 0, if b % 2 == 1 then f else 0) == if (a + b) % 2 == 1 then f else 0
  {
    XorWithZero(f);
    XorWithZero(0);
    XorTwiceCancels(0, f);
    hide Xor;
  }

  /** No multiple of a polynomial but nought is of lower degree. */
  lemma {:induction false} ProductKeepsDegree(a: nat, f: nat, k: nat)
    requires a > 0 && Pow2(k) <= f < Pow2(k + 1)
    ensures CarrylessProduct(a, f) >= Pow2(k)
  {
    ProductUnfolds(a, f);
    if a == 1 {
      assert CarrylessProduct(0, f) == 0;
      XorWithZero(f);
    } else {
      ProductKeepsDegree(a / 2, f, k);
      hide Xor, CarrylessProduct;
      XorKeepsHigh(if a % 2 == 1 then f else 0, 2 * CarrylessProduct(a / 2, f), k + 1);
    }
  }
}
