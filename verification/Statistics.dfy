/**
 The window of signal-to-noise samples behind dynamic power: a ring buffer with running sums, cached
 mean and standard deviation in fixed point, and the integer square root.
 */
module Statistics {
  import opened Words
  import opened Quotients
  import opened Bits

  const WINDOW_SIZE := 48
  const FIXED_POINT_SCALE := 256 // 8 fractional bits

  /** Digit by digit, from the highest power of four: the exact floor of the root. */
  method FastSqrtUint(x: uint32) returns (r: nat)
    ensures Square(r) <= x < Square(r + 1) && r < 0x1_0000
  {
    if x == 0 {
      return 0;
    }
    var op: uint32, res: uint32, one: uint32 := x, 0, 0x4000_0000;
    ghost var j: nat := 16; // what is still open of the root is below 2^j
    PowersOfTwo();
    hide RootBelow, Pow2, Square;
    while one > op
      invariant j > 0 && one == Square(Pow2(j - 1)) && op < 4 * one && Pow2(j) <= 0x1_0000
      decreases one
    {
      QuarterOfSquare(j - 1);
      j := j - 1;
      one := one / 4;
    }
    ghost var root: nat := 0;
    NoDigitYet(j, one, x);
    while one != 0
      invariant RootBelow(j, root, op, res, one, x)
      decreases one
    {
      TryDigit(j, root, op, res, one, x);
      if op >= res + one {
        op := op - (res + one);
        res := res / 2 + one;
        root := root + Pow2(j - 1);
      } else {
        res := res / 2;
      }
      one := one / 4;
      j := j - 1;
    }
    AllDigitsTried(j, root, op, res, x);
    return res;
  }

  /** `root` agrees with the root of `x` down to bit `j`; `op`, `res` and `one` are kept in step. */
  ghost predicate RootBelow(j: nat, root: nat, op: int, res: int, one: int, x: nat) {
    var w := Pow2(j);
    && one == (if j == 0 then 0 else Square(Pow2(j - 1)))
    && res == root * w && Square(root) + op == x < Square(root + w)
    && op >= 0 && root + w <= 0x1_0000
  }

  lemma NoDigitYet(j: nat, one: nat, x: nat)
    requires j > 0 && one == Square(Pow2(j - 1)) && x < 4 * one && Pow2(j) <= 0x1_0000
    ensures RootBelow(j, 0, x, 0, one, x)
  {
    SquareOfDouble(j - 1);
  }

  lemma AllDigitsTried(j: nat, root: nat, op: nat, res: nat, x: nat)
    requires RootBelow(j, root, op, res, 0, x)
    ensures Square(res) <= x < Square(res + 1) && res < 0x1_0000
  {
    if j > 0 {
      MulMonotone(1, Pow2(j - 1), Pow2(j - 1));
    }
    assert Pow2(0) == 1;
  }

  /** Whether the next binary digit of the root is set, and what either choice leaves. */
  lemma TryDigit(j: nat, root: nat, op: nat, res: nat, one: nat, x: nat)
    requires one != 0 && RootBelow(j, root, op, res, one, x)
    ensures j > 0 && res + one < 0x1_0000_0000
    ensures op >= res + one ==> RootBelow(j - 1, root + Pow2(j - 1), op - (res + one), res / 2 + one, one / 4, x)
    ensures op < res + one ==> RootBelow(j - 1, root, op, res / 2, one / 4, x)
  {
    QuarterOfSquare(j - 1);
    var h := Pow2(j - 1);
    assert Pow2(j) == 2 * h;
    hide Pow2, Square;
    TwiceProduct(root, h);
    Squares(root, h);
    SumFits(root, h);
  }

  lemma Squares(root: nat, h: nat)
    ensures (root + h) * h == root * h + Square(h)
    ensures Square(root + h) == Square(root) + 2 * (root * h) + Square(h)
    ensures Square(root + 2 * h) == Square((root + h) + h)
  {
  }

  lemma SumFits(root: nat, h: nat)
    requires 0 < h && root + 2 * h <= 0x1_0000
    ensures 2 * (root * h) + Square(h) < 0x1_0000_0000
  {
    Squares(root, h);
    MulMonotone(root + h, 0xFFFF, root + h);
    MulMonotone(root + h, 0xFFFF, 0xFFFF);
    MulMonotone(0, root, root);
  }

  lemma PowersOfTwo()
    ensures Square(Pow2(15)) == 0x4000_0000 && Pow2(16) == 0x1_0000
  {
    assert Pow2(8) == 0x100 && Pow2(15) == 0x8000;
  }

  lemma SquareOfDouble(j: nat)
    ensures Pow2(j + 1) == 2 * Pow2(j) && Square(Pow2(j + 1)) == 4 * Square(Pow2(j))
  {
  }

  lemma QuarterOfSquare(j: nat)
    ensures Square(Pow2(j)) / 4 == if j == 0 then 0 else Square(Pow2(j - 1))
    ensures j == 0 ==> Square(Pow2(j)) == 1
    ensures j > 0 ==> Square(Pow2(j)) == 4 * Square(Pow2(j - 1)) && Pow2(j) <= Pow2(j + 1)
  {
    if j > 0 {
      SquareOfDouble(j - 1);
    }
  }

  // ----- the window -----

  function Sum(w: seq<int8>): int {
    if w == [] then 0 else Sum(w[..|w| - 1]) + w[|w| - 1]
  }

  function Square(a: int): nat {
    a * a
  }

  function SumOfSquares(w: seq<int8>): nat {
    if w == [] then 0 else SumOfSquares(w[..|w| - 1]) + Square(w[|w| - 1])
  }

  /** The mean of the window in 256ths, rounded towards zero. */
  function MeanFixed(w: seq<int8>): int {
    if w == [] then 0 else Truncated(Sum(w) * FIXED_POINT_SCALE, |w|)
  }

  /** The sample variance in 256ths, with each of the rounding steps on the way; never negative. */
  function VarianceFixed(w: seq<int8>): nat {
    if |w| < 2 then 0
    else
      var meanSquared := Square(MeanFixed(w)) / FIXED_POINT_SCALE;
      var spread := Truncated(SumOfSquares(w) * FIXED_POINT_SCALE, |w|) - meanSquared;
      Max(0, Truncated(spread * |w|, |w| - 1))
  }

  /** The greatest number whose square is at most `v`, searched from `from` up. */
  function FloorRoot(v: nat, from: nat): (root: nat)
    requires Square(from) <= v
    ensures Square(root) <= v < Square(root + 1)
    decreases v - from
  {
    MulMonotone(1, from + 1, from + 1);
    if Square(from + 1) <= v then FloorRoot(v, from + 1) else from
  }

  lemma RootIsUnique(a: nat, b: nat, v: nat)
    requires Square(a) <= v < Square(a + 1) && Square(b) <= v < Square(b + 1)
    ensures a == b
  {
    if a < b {
      MulMonotone(a + 1, b, a + 1);
      MulMonotone(a + 1, b, b);
    } else if b < a {
      MulMonotone(b + 1, a, b + 1);
      MulMonotone(b + 1, a, a);
    }
  }

  /** The root of the variance, to a sixteenth, in 256ths. */
  function StdevFixed(w: seq<int8>): nat {
    assert Square(0) == 0;
    FloorRoot(VarianceFixed(w), 0) * 16
  }

  /** What is left of the samples `w` when one more arrives. */
  function Slide(w: seq<int8>, value: int8): seq<int8> {
    if |w| < WINDOW_SIZE then w + [value] else w[1..] + [value]
  }

  lemma {:induction false} SumsOfTail(w: seq<int8>)
    requires w != []
    ensures Sum(w) == w[0] + Sum(w[1..]) && SumOfSquares(w) == Square(w[0]) + SumOfSquares(w[1..])
  {
    if |w| > 1 {
      var n := |w| - 1;
      SumsOfTail(w[..n]);
      assert w[1..][..n - 1] == w[..n][1..];
    } else {
      assert w[..0] == w[1..] == [];
    }
  }

  lemma SumsOfAppend(w: seq<int8>, value: int8)
    ensures Sum(w + [value]) == Sum(w) + value && SumOfSquares(w + [value]) == SumOfSquares(w) + Square(value)
  {
    assert (w + [value])[..|w|] == w;
  }

  lemma SumsOfSlide(w: seq<int8>, value: int8)
    ensures Sum(Slide(w, value)) == Sum(w) + value - if |w| < WINDOW_SIZE then 0 else w[0]
    ensures SumOfSquares(Slide(w, value)) == SumOfSquares(w) + Square(value) - if |w| < WINDOW_SIZE then 0 else Square(w[0])
  {
    if |w| < WINDOW_SIZE {
      SumsOfAppend(w, value);
    } else {
      SumsOfTail(w);
      SumsOfAppend(w[1..], value);
    }
  }

  predicate Between(lo: int, w: seq<int8>, hi: int) {
    forall i :: 0 <= i < |w| ==> lo <= w[i] <= hi
  }

  lemma {:induction false} SumInHull(w: seq<int8>, lo: int, hi: int)
    requires Between(lo, w, hi)
    ensures |w| * lo <= Sum(w) <= |w| * hi
  {
    if w != [] {
      var n := |w| - 1;
      SumInHull(w[..n], lo, hi);
      assert |w| * lo == n * lo + lo && |w| * hi == n * hi + hi;
    }
  }

  lemma {:induction false} SumOfSquaresBelow(w: seq<int8>)
    ensures SumOfSquares(w) <= |w| * 0x4000
  {
    if w != [] {
      SumOfSquaresBelow(w[..|w| - 1]);
      SquareBelow(w[|w| - 1], 0x80);
      hide Square;
    }
  }

  lemma SquareBelow(a: int, bound: nat)
    requires 0 - bound <= a <= bound
    ensures Square(a) <= bound * bound
  {
  }

  lemma SquareScaled(v: int8)
    ensures Square(v * FIXED_POINT_SCALE) / FIXED_POINT_SCALE == Square(v) * FIXED_POINT_SCALE
  {
    assert Square(v * FIXED_POINT_SCALE) == Square(v) * FIXED_POINT_SCALE * FIXED_POINT_SCALE;
  }

  lemma QuotientBetween(n: int, d: int, lo: int, hi: int)
    requires d > 0 && d * lo <= n <= d * hi
    ensures lo <= n / d <= hi
  {
    var q := n / d;
    FloorBound(n, d);
    assert q * d <= n < q * d + d;
    if q > hi {
      MulMonotone(hi + 1, q, d);
    }
    if q < lo {
      MulMonotone(q, lo - 1, d);
    }
  }

  lemma TruncatedBetween(n: int, d: int, lo: int, hi: int)
    requires d > 0 && d * lo <= n <= d * hi
    ensures lo <= Truncated(n, d) <= hi
  {
    if n >= 0 {
      QuotientBetween(n, d, lo, hi);
    } else {
      assert d * (-hi) == -(d * hi) && d * (-lo) == -(d * lo);
      QuotientBetween(-n, d, -hi, -lo);
    }
  }

  /** The mean never leaves the range of its samples. */
  lemma MeanInHull(w: seq<int8>, lo: int, hi: int)
    requires w != [] && Between(lo, w, hi)
    ensures lo * FIXED_POINT_SCALE <= MeanFixed(w) <= hi * FIXED_POINT_SCALE
  {
    SumInHull(w, lo, hi);
    TruncatedBetween(Sum(w) * FIXED_POINT_SCALE, |w|, lo * FIXED_POINT_SCALE, hi * FIXED_POINT_SCALE);
  }

  /** Every intermediate result of the variance stays within 28 bits and a sign. */
  lemma NothingOverflows(w: seq<int8>)
    requires 2 <= |w| <= WINDOW_SIZE
    ensures -0x80_0000 <= Sum(w) * FIXED_POINT_SCALE <= 0x80_0000
    ensures SumOfSquares(w) * FIXED_POINT_SCALE <= 0x1000_0000
    ensures Square(MeanFixed(w)) <= 0x4000_0000
    ensures var ex2 := Truncated(SumOfSquares(w) * FIXED_POINT_SCALE, |w|);
            -0x1000_0000 <= (ex2 - Square(MeanFixed(w)) / FIXED_POINT_SCALE) * |w| <= 0x1000_0000
    ensures VarianceFixed(w) <= 0x1000_0000
  {
    SumInHull(w, -0x80, 0x7F);
    SumOfSquaresBelow(w);
    MeanInHull(w, -0x80, 0x7F);
    SquareBelow(MeanFixed(w), 0x8000);
    var ex2 := Truncated(SumOfSquares(w) * FIXED_POINT_SCALE, |w|);
    TruncatedBetween(SumOfSquares(w) * FIXED_POINT_SCALE, |w|, 0, 0x40_0000);
    var meanSquared := Square(MeanFixed(w)) / FIXED_POINT_SCALE;
    assert 0 <= meanSquared <= 0x40_0000;
    MulMonotone(ex2 - meanSquared, 0x40_0000, |w|);
    MulMonotone(-0x40_0000, ex2 - meanSquared, |w|);
    TruncatedBetween((ex2 - meanSquared) * |w|, |w| - 1, -0x1000_0000, 0x1000_0000);
  }

  /** A steady signal: the mean is the signal and the deviation is nought. */
  lemma SteadySignal(w: seq<int8>, v: int8)
    requires w != [] && forall i :: 0 <= i < |w| ==> w[i] == v
    ensures MeanFixed(w) == v * FIXED_POINT_SCALE && StdevFixed(w) == 0
  {
    MeanInHull(w, v, v);
    SteadySquares(w, v);
    SquareScaled(v);
    assert Square(0) == 0 && Square(1) == 1;
    hide Square, MeanFixed, SumOfSquares;
    var squares := Square(v) * FIXED_POINT_SCALE;
    assert SumOfSquares(w) * FIXED_POINT_SCALE == |w| * squares;
    TruncatedBetween(|w| * squares, |w|, squares, squares);
    assert VarianceFixed(w) == 0;
    RootInUnits(0, w);
  }

  lemma {:induction false} SteadySquares(w: seq<int8>, v: int8)
    requires forall i :: 0 <= i < |w| ==> w[i] == v
    ensures SumOfSquares(w) == |w| * Square(v)
  {
    if w != [] {
      SteadySquares(w[..|w| - 1], v);
    }
  }

  // ----- how near to the truth -----

  function SquaredDistances(w: seq<int8>, value: int8): nat {
    if w == [] then 0 else SquaredDistances(w[..|w| - 1], value) + Square(w[|w| - 1] - value)
  }

  /** The squared differences of all pairs, each once: n (n - 1) times the sample variance. */
  function PairSpread(w: seq<int8>): nat {
    if w == [] then 0 else PairSpread(w[..|w| - 1]) + SquaredDistances(w[..|w| - 1], w[|w| - 1])
  }

  lemma {:induction false} DistancesBySums(w: seq<int8>, value: int8)
    ensures SquaredDistances(w, value) == SumOfSquares(w) - 2 * (Sum(w) * value) + |w| * Square(value)
  {
    if w != [] {
      var n := |w| - 1;
      DistancesBySums(w[..n], value);
      SquareOfDifference(w[n], value);
      Distributes(Sum(w[..n]), w[n], value);
      Distributes(n, 1, Square(value));
      hide Square;
    }
  }

  lemma SquareOfDifference(a: int, b: int)
    ensures Square(a - b) == Square(a) - 2 * (a * b) + Square(b)
  {
  }

  lemma SquareOfSum(a: int, b: int)
    ensures Square(a + b) == Square(a) + 2 * (a * b) + Square(b)
  {
  }

  lemma Distributes(a: int, b: int, c: int)
    ensures (a + b) * c == a * c + b * c
  {
  }

  /** Lagrange's identity. */
  lemma {:induction false} PairsBySums(w: seq<int8>)
    ensures PairSpread(w) == |w| * SumOfSquares(w) - Square(Sum(w))
  {
    if w != [] {
      var n, v := |w| - 1, w[|w| - 1];
      var q, s := SumOfSquares(w[..n]), Sum(w[..n]);
      PairsBySums(w[..n]);
      DistancesBySums(w[..n], v);
      SquareOfSum(s, v);
      ProductOfSums(n, q, Square(v));
      hide Square;
      assert SumOfSquares(w) == q + Square(v) && Sum(w) == s + v;
      hide *;
    }
  }

  lemma ProductOfSums(n: int, q: int, r: int)
    ensures (n + 1) * (q + r) == n * q + n * r + q + r
  {
  }

  /** The mean is off by less than one 256th. */
  lemma MeanIsNear(w: seq<int8>)
    requires w != []
    ensures -|w| < |w| * MeanFixed(w) - 256 * Sum(w) < |w|
    ensures Sum(w) >= 0 ==> 0 <= |w| * MeanFixed(w) <= 256 * Sum(w)
    ensures Sum(w) <= 0 ==> 256 * Sum(w) <= |w| * MeanFixed(w) <= 0
  {
    var n, d, q := Sum(w) * 256, |w|, MeanFixed(w);
    assert q == Truncated(n, d);
    hide *;
    TruncatedNear(n, d);
  }

  lemma SquareGrows(a: int, b: int)
    requires 0 <= a <= b
    ensures Square(a) <= Square(b) && Square(-a) == Square(a) && Square(-b) == Square(b)
  {
    MulMonotone(a, b, a);
    MulMonotone(a, b, b);
  }

  lemma TruncatedNear(n: int, d: int)
    requires d > 0
    ensures -d < d * Truncated(n, d) - n < d
    ensures n >= 0 ==> 0 <= d * Truncated(n, d) <= n
    ensures n <= 0 ==> n <= d * Truncated(n, d) <= 0
  {
    var m := if n >= 0 then n else -n;
    var q := m / d;
    FloorBound(m, d);
    assert Truncated(n, d) == if n >= 0 then q else -q;
    hide Truncated;
    ProductSign(d, q);
  }

  lemma ProductSign(d: int, q: int)
    requires d > 0 && q >= 0
    ensures d * -q == -(d * q) && 0 <= d * q == q * d
  {
  }

  /** The square of the mean, as far as rounding the mean and the square moves it. */
  lemma MeanSquaredIsNear(n: nat, s: int, mean: int)
    requires n > 0 && 0 - 128 * n <= s <= 128 * n && 0 - n < n * mean - 256 * s < n
    requires (s >= 0 ==> 0 <= n * mean <= 256 * s) && (s <= 0 ==> 256 * s <= n * mean <= 0)
    ensures 256 * Square(s) - 257 * (n * n) < n * n * (Square(mean) / 256) <= 256 * Square(s)
  {
    hide Square;
    MeanSquareBounds(n, n * mean, 256 * s);
    ScaledSquares(n, mean, s);
    FloorBound(Square(mean), 256);
    MulMonotone(1, n, n);
    FloorScaled(n * n, Square(mean), Square(mean) / 256);
  }

  lemma MeanSquareBounds(n: nat, a: int, b: int)
    requires n > 0 && 0 - n < a - b < n && 0 - 0x8000 * n <= b <= 0x8000 * n
    requires (b >= 0 ==> 0 <= a <= b) && (b <= 0 ==> b <= a <= 0)
    ensures Square(a) <= Square(b) <= Square(a) + 0x1_0000 * (n * n)
  {
    hide Square;
    if b >= 0 {
      SquaresNear(a, b, n);
    } else {
      SquaresNear(-a, -b, n);
      SquareOfNegation(a);
      SquareOfNegation(b);
    }
  }

  lemma FloorScaled(k: nat, a: nat, q: nat)
    requires k > 0 && q * 256 <= a < q * 256 + 256
    ensures k * a - 256 * k < 256 * (k * q) <= k * a
  {
    MulMonotone(q * 256, a, k);
    MulMonotone(a + 1, q * 256 + 256, k);
    assert q * 256 * k == 256 * (k * q) && (q * 256 + 256) * k == 256 * (k * q) + 256 * k && (a + 1) * k == k * a + k;
  }

  lemma MulScaled(a: int, b: int, k: int)
    ensures k * b * a == k * (a * b)
  {
  }

  lemma SquaresNear(a: nat, b: nat, n: nat)
    requires a <= b < a + n && b <= 0x8000 * n
    ensures Square(a) <= Square(b) <= Square(a) + 0x1_0000 * (n * n)
  {
    SquareOfDifference(b, a);
    MulMonotone(b - a, n, b + a);
    MulMonotone(b + a, 0x1_0000 * n, n);
    assert Square(b) - Square(a) == (b - a) * (b + a);
    assert n * (b + a) == (b + a) * n && 0x1_0000 * n * n == 0x1_0000 * (n * n);
    SquareGrows(a, b);
  }

  lemma SquareOfNegation(a: int)
    ensures Square(-a) == Square(a)
  {
  }

  lemma ScaledSquares(n: int, mean: int, s: int)
    ensures Square(n * mean) == n * n * Square(mean) && Square(256 * s) == 0x1_0000 * Square(s)
  {
    var m := n * mean;
    assert m * m == n * n * (mean * mean);
  }

  /**
   The window's variance is the sample variance of its samples, a pair at a time, but for rounding:
   off by less than 259 in 256ths, a little over one quarter of a decibel squared, times n / (n - 1).
   */
  lemma VarianceIsNear(w: seq<int8>)
    requires |w| >= 2
    ensures -258 * (|w| * |w|) < |w| * (|w| - 1) * VarianceFixed(w) - 256 * PairSpread(w) < 258 * (|w| * |w|)
  {
    var n := |w|;
    var s, q, mean := Sum(w), SumOfSquares(w), MeanFixed(w);
    PairsBySums(w);
    MeanIsNear(w);
    SumInHull(w, -128, 127);
    MeanSquaredIsNear(n, s, mean);
    var e, m := Truncated(q * 256, n), Square(mean) / 256;
    TruncatedNear(q * 256, n);
    var t := Truncated((e - m) * n, n - 1);
    TruncatedNear((e - m) * n, n - 1);
    assert VarianceFixed(w) == Max(0, t);
    hide *;
    Unrounded(n, q, Square(s), e, m, t);
  }

  lemma Unrounded(n: nat, q: nat, ss: nat, e: int, m: int, t: int)
    requires n >= 2 && n * q >= ss
    requires 0 - n < n * e - q * 256 <= 0
    requires 256 * ss - 257 * (n * n) < n * n * m <= 256 * ss
    requires 1 - n < (n - 1) * t - (e - m) * n < n - 1
    ensures -258 * (n * n) < n * (n - 1) * Max(0, t) - 256 * (n * q - ss) < 258 * (n * n)
  {
    var spread := e - m;
    ScaleUp(n, n * e, q * 256);
    ScaleUp(n, (n - 1) * t, spread * n);
    Regrouped(n, q, e, m, t);
    if t < 0 {
      NegativeSpread(n, spread, t);
    }
    InBounds(n * n, 256 * (n * q), 256 * ss, n * n * e, n * n * m, n * n * spread, n * (n - 1) * t, t < 0);
  }

  lemma InBounds(k: nat, big: int, small: int, ke: int, km: int, kept: int, scaled: int, negative: bool)
    requires small <= big && 0 - k < ke - big <= 0 && small - 257 * k < km <= small && kept == ke - km
    requires 0 - k < scaled - kept < k && (negative ==> kept <= 0)
    ensures var result := if negative then 0 else scaled; -258 * k < result - (big - small) < 258 * k
  {
  }

  lemma Regrouped(n: nat, q: nat, e: int, m: int, t: int)
    ensures n * (n * e) == n * n * e && n * (q * 256) == 256 * (n * q)
    ensures n * n * (e - m) == n * n * e - n * n * m
    ensures n * ((n - 1) * t) == n * (n - 1) * t && n * ((e - m) * n) == n * n * (e - m)
  {
    var spread := e - m;
    assert n * (spread * n) == n * n * spread;
    assert n * n * spread == n * n * e - n * n * m;
  }

  lemma NegativeSpread(n: nat, spread: int, t: int)
    requires n >= 2 && t < 0 && 1 - n < (n - 1) * t - spread * n
    ensures n * n * spread <= 0
  {
    MulMonotone(t, -1, n - 1);
    if spread >= 0 {
      MulMonotone(0, spread, n);
    } else {
      MulMonotone(spread, 0, n * n);
    }
  }

  /** The deviation is the variance's root to a sixteenth; four fractional bits stay empty. */
  lemma DeviationIsRoot(w: seq<int8>) returns (root: nat)
    ensures StdevFixed(w) == 16 * root && root * root <= VarianceFixed(w) < (root + 1) * (root + 1)
  {
    assert Square(0) == 0;
    root := FloorRoot(VarianceFixed(w), 0);
  }

  function Window(samples: seq<int8>): seq<int8> {
    if samples == [] then [] else Slide(Window(samples[..|samples| - 1]), samples[|samples| - 1])
  }

  function LastSamples(samples: seq<int8>): seq<int8> {
    if |samples| <= 48 then samples else samples[|samples| - 48..]
  }

  lemma OneMoreSample(samples: seq<int8>)
    requires samples != []
    ensures Slide(LastSamples(samples[..|samples| - 1]), samples[|samples| - 1]) == LastSamples(samples)
  {
    var n := |samples| - 1;
    if n < 48 {
      assert samples[..n] + [samples[n]] == samples;
    } else {
      var before := LastSamples(samples[..n]);
      assert before == samples[n - 48..n];
      assert before[1..] + [samples[n]] == samples[n - 47..];
    }
  }

  /** The window holds the last 48 samples, or all there have been. */
  lemma {:induction false} WindowIsLastSamples(samples: seq<int8>)
    ensures Window(samples) == LastSamples(samples)
  {
    if samples != [] {
      var n := |samples| - 1;
      WindowIsLastSamples(samples[..n]);
      hide Slide;
      OneMoreSample(samples);
    }
  }

  lemma ScaleUp(n: nat, a: int, b: int)
    requires n > 0
    ensures 0 - n < a - b < n ==> 0 - n * n < n * a - n * b < n * n
    ensures a <= b ==> n * a <= n * b
  {
    if 0 - n < a - b < n {
      MulMonotone(a - b, n - 1, n);
      MulMonotone(1 - n, a - b, n);
      assert (a - b) * n == n * a - n * b && (n - 1) * n == n * n - n && (1 - n) * n == n - n * n;
    }
    if a <= b {
      MulMonotone(a, b, n);
    }
  }

  lemma RootInUnits(root: nat, w: seq<int8>)
    requires Square(root) <= VarianceFixed(w) < Square(root + 1)
    ensures StdevFixed(w) == root * 16
  {
    assert Square(0) == 0;
    RootIsUnique(root, FloorRoot(VarianceFixed(w), 0), VarianceFixed(w));
  }

  /** The contents of the ring, oldest first. */
  function Ring(buffer: seq<int8>, index: nat, count: nat): seq<int8>
    requires index < |buffer|
  {
    if count < WINDOW_SIZE then buffer[..index] else buffer[index..] + buffer[..index]
  }

  function Next(index: nat): nat {
    (index + 1) % WINDOW_SIZE
  }

  lemma RingFills(buffer: seq<int8>, index: nat, value: int8)
    requires |buffer| == WINDOW_SIZE && index < WINDOW_SIZE
    ensures Ring(buffer[index := value], Next(index), index + 1) == Ring(buffer, index, index) + [value]
  {
    var after := buffer[index := value];
    if index + 1 < WINDOW_SIZE {
      assert after[..index + 1] == buffer[..index] + [value];
    } else {
      assert after[0..] + after[..0] == buffer[..index] + [value];
    }
  }

  lemma FullRingSlides(buffer: seq<int8>, index: nat, value: int8)
    requires |buffer| == WINDOW_SIZE && index < WINDOW_SIZE
    ensures Ring(buffer, index, WINDOW_SIZE)[0] == buffer[index]
    ensures Ring(buffer[index := value], Next(index), WINDOW_SIZE) == Ring(buffer, index, WINDOW_SIZE)[1..] + [value]
  {
    var after, rest := buffer[index := value], buffer[index + 1..];
    RotatedTail(buffer, index);
    if index + 1 < WINDOW_SIZE {
      assert Next(index) == index + 1;
      assert after[index + 1..] == rest && after[..index + 1] == buffer[..index] + [value];
    } else {
      assert Next(index) == 0;
      assert after[0..] + after[..0] == buffer[..index] + [value] && rest == [];
    }
    hide Next;
  }

  lemma RotatedTail(buffer: seq<int8>, index: nat)
    requires index < |buffer|
    ensures (buffer[index..] + buffer[..index])[1..] == buffer[index + 1..] + buffer[..index]
  {
  }

  lemma RingAdds(buffer: seq<int8>, index: nat, count: nat, value: int8)
    requires |buffer| == WINDOW_SIZE && index < WINDOW_SIZE && count <= WINDOW_SIZE
    requires count < WINDOW_SIZE ==> index == count
    ensures var window := Ring(buffer, index, count);
            && |window| == count && (count == WINDOW_SIZE ==> window[0] == buffer[index])
            && |Slide(window, value)| == Min(count + 1, WINDOW_SIZE)
            && Ring(buffer[index := value], Next(index), Min(count + 1, WINDOW_SIZE)) == Slide(window, value)
    ensures Next(index) < WINDOW_SIZE && (count + 1 < WINDOW_SIZE ==> Next(index) == count + 1)
  {
    if count < WINDOW_SIZE {
      RingFills(buffer, index, value);
    } else {
      FullRingSlides(buffer, index, value);
    }
  }

  class StdevAccumulator {
    const buffer: array<int8>
    var index: nat
    var count: nat
    var sum: int
    var sumSq: int
    var lastMeanFixed: int
    var lastStdevFixed: int
    var dirty: bool
    ghost var window: seq<int8> // the samples added since the last reset, at most the last 48

    /** The ring holds the window, oldest at `index` once it is full; the sums and the cache belong to it. */
    ghost predicate Valid()
      reads this, buffer
    {
      && buffer.Length == WINDOW_SIZE && index < WINDOW_SIZE
      && |window| == count <= WINDOW_SIZE
      && (count < WINDOW_SIZE ==> index == count)
      && window == Ring(buffer[..], index, count)
      && sum == Sum(window) && sumSq == SumOfSquares(window)
      && (!dirty ==> lastMeanFixed == MeanFixed(window) && lastStdevFixed == StdevFixed(window))
    }

    constructor ()
      ensures Valid() && window == [] && fresh(buffer)
    {
      buffer := new int8[WINDOW_SIZE](_ => 0);
      index, count, sum, sumSq, lastMeanFixed, lastStdevFixed, dirty := 0, 0, 0, 0, 0, 0, true;
      window := [];
    }

    method Reset()
      requires Valid()
      modifies this, buffer
      ensures Valid() && window == []
    {
      forall i | 0 <= i < buffer.Length {
        buffer[i] := 0;
      }
      index, count, sum, sumSq, lastMeanFixed, lastStdevFixed, dirty := 0, 0, 0, 0, 0, 0, true;
      window := [];
    }

    method Add(value: int8)
      requires Valid()
      modifies this, buffer
      ensures Valid() && window == Slide(old(window), value)
    {
      RingAdds(buffer[..], index, count, value);
      SumsOfSlide(window, value);
      hide Sum, SumOfSquares, MeanFixed, StdevFixed, Square, Ring, Slide, Next;
      ghost var slid := buffer[..][index := value];
      var old_ := buffer[index];
      buffer[index] := value;
      assert buffer[..] == slid;
      if count < WINDOW_SIZE {
        count := count + 1;
        sum := sum + value;
        sumSq := sumSq + Square(value);
      } else {
        sum := sum + (value - old_);
        sumSq := sumSq + (Square(value) - Square(old_));
      }
      index := Next(index);
      dirty := true;
      window := Slide(window, value);
    }

    method MeanRaw() returns (mean: int)
      requires Valid()
      modifies this`lastMeanFixed
      ensures Valid() && mean == MeanFixed(window)
    {
      if count == 0 {
        return 0;
      }
      if !dirty {
        return lastMeanFixed;
      }
      lastMeanFixed := Truncated(sum * FIXED_POINT_SCALE, count);
      return lastMeanFixed;
    }

    method StandardDeviationRaw() returns (stdev: int)
      requires Valid()
      modifies this`lastMeanFixed, this`lastStdevFixed, this`dirty
      ensures Valid() && stdev == StdevFixed(window)
    {
      if count < 2 {
        return 0;
      }
      if !dirty {
        return lastStdevFixed;
      }
      var meanFixed := Truncated(sum * FIXED_POINT_SCALE, count);
      lastMeanFixed := meanFixed;
      var ex2Fixed := Truncated(sumSq * FIXED_POINT_SCALE, count);
      var exFixedSquared := Square(meanFixed) / FIXED_POINT_SCALE;
      var varianceFixed := ex2Fixed - exFixedSquared;
      varianceFixed := Truncated(varianceFixed * count, count - 1);
      if varianceFixed < 0 {
        varianceFixed := 0;
      }
      assert varianceFixed == VarianceFixed(window);
      NothingOverflows(window);
      hide VarianceFixed, MeanFixed, Sum, SumOfSquares, Square;
      var root := FastSqrtUint(varianceFixed);
      RootInUnits(root, window);
      hide StdevFixed;
      lastStdevFixed := root * 16;
      dirty := false;
      return lastStdevFixed;
    }
  }
}
