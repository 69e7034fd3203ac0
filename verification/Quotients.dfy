/** The few facts about products, quotients and remainders that the other modules lean on. */
module Quotients {
  lemma MulMonotone(a: int, b: int, c: int)
    requires a <= b && 0 <= c
    ensures a * c <= b * c && c * a <= c * b
  {
  }

  lemma TwiceProduct(a: int, p: int)
    ensures a * (2 * p) == 2 * (a * p)
  {
  }

  lemma FloorBound(a: int, b: int)
    requires b > 0
    ensures a / b * b <= a < a / b * b + b
  {
    assert a == a / b * b + a % b;
  }

  lemma QuotientUnique(n: int, d: int, q: int, r: int)
    requires d > 0 && n == d * q + r && 0 <= r < d
    ensures n / d == q && n % d == r
  {
    var k := n / d - q;
    assert n == d * (n / d) + n % d;
    assert d * k == r - n % d by {
      assert d * k == d * (n / d) - d * q;
    }
    if k > 0 {
      MulMonotone(1, k, d);
      assert false;
    }
    if k < 0 {
      MulMonotone(k, -1, d);
      assert false;
    }
  }

  lemma ShiftByMultiple(n: int, d: int, k: int)
    requires d > 0
    ensures (n + d * k) % d == n % d && (n + d * k) / d == n / d + k
  {
    assert n + d * k == d * (n / d + k) + n % d;
    QuotientUnique(n + d * k, d, n / d + k, n % d);
  }

  lemma DividesTransitively(a: int, b: int, n: int)
    requires a > 0 && b > 0 && b % a == 0 && n % b == 0
    ensures n % a == 0
  {
    var k, m := b / a, n / b;
    assert b == a * k && n == b * m;
    assert n == a * (k * m) by {
      assert (a * k) * m == a * (k * m);
    }
    QuotientUnique(n, a, k * m, 0);
  }

  lemma ModOfMod(n: int, d: int)
    requires d > 0
    ensures (n % d + 1) % d == (n + 1) % d
  {
    ShiftByMultiple(n % d + 1, d, n / d);
    assert n + 1 == n % d + 1 + d * (n / d);
  }
}
