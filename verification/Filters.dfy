/**
 The two fixed-point low-pass filters. They are written differently, one in unsigned and one in signed
 32-bit arithmetic, and follow one recurrence: move a `k`-th of the way to the input, rounding down.
 */
module Filters {
  import opened Words
  import opened Quotients
  import opened Bits

  type ShiftCount = n: int | 0 <= n < 31

  function S32(n: int): int32 {
    (n + 0x8000_0000) % 0x1_0000_0000 - 0x8000_0000
  }

  // ----- the recurrence -----

  function Smooth(s: int, x: int, k: int): int
    requires k > 0
  {
    s + (x - s) / k
  }

  function SmoothAll(s: int, xs: seq<int>, k: int): int
    requires k > 0
  {
    if xs == [] then s else Smooth(SmoothAll(s, xs[..|xs| - 1], k), xs[|xs| - 1], k)
  }

  /** `n` steps on the same input. */
  function Settle(s: int, x: int, k: int, n: nat): int
    requires k > 0
  {
    if n == 0 then s else Smooth(Settle(s, x, k, n - 1), x, k)
  }

  predicate Within(lo: int, xs: seq<int>, hi: int) {
    forall i :: 0 <= i < |xs| ==> lo <= xs[i] <= hi
  }

  lemma SmoothBetween(s: int, x: int, k: int)
    requires k > 0
    ensures s <= x ==> s <= Smooth(s, x, k) <= x
    ensures s >= x ==> x <= Smooth(s, x, k) <= s
    ensures s > x ==> Smooth(s, x, k) < s
    ensures s <= x - k ==> s < Smooth(s, x, k)
    ensures x - k < s <= x ==> Smooth(s, x, k) == s
  {
    Fraction(x - s, k, (x - s) / k);
  }

  lemma Fraction(d: int, k: int, q: int)
    requires k > 0 && q == d / k
    ensures 0 <= d ==> 0 <= q <= d
    ensures d < 0 ==> d <= q <= -1
    ensures k <= d ==> 1 <= q
    ensures 0 <= d < k ==> q == 0
  {
    FloorBound(d, k);
    assert q * k <= d < q * k + k;
    if q >= 1 {
      MulMonotone(1, k, q);
    } else if q <= -1 {
      MulMonotone(1, k, -q - 1);
    }
  }

  lemma {:induction false} StaysInHull(s: int, xs: seq<int>, k: int, lo: int, hi: int)
    requires k > 0 && lo <= s <= hi && Within(lo, xs, hi)
    ensures lo <= SmoothAll(s, xs, k) <= hi
  {
    if xs != [] {
      StaysInHull(s, xs[..|xs| - 1], k, lo, hi);
      SmoothBetween(SmoothAll(s, xs[..|xs| - 1], k), xs[|xs| - 1], k);
    }
  }

  /** From above the input is reached exactly, from below up to `k - 1` short, after at most the distance in steps. */
  lemma {:induction false} Settles(s: int, x: int, k: int, n: nat)
    requires k > 0
    ensures s >= x ==> x <= Settle(s, x, k, n) <= Max(x, s - n)
    ensures s <= x ==> Min(x - (k - 1), s + n) <= Settle(s, x, k, n) <= x
  {
    if n > 0 {
      Settles(s, x, k, n - 1);
      SmoothBetween(Settle(s, x, k, n - 1), x, k);
    }
  }

  function Power(b: nat, n: nat): nat {
    if n == 0 then 1 else b * Power(b, n - 1)
  }

  /** From above, each step leaves at most the fraction `(k - 1) / k` of the distance. */
  lemma {:induction false} ShrinksFromAbove(s: int, x: int, k: int, n: nat)
    requires k > 0
    ensures (Settle(s, x, k, n) - x) * Power(k, n) <= (s - x) * Power(k - 1, n)
  {
    if n > 0 {
      ShrinksFromAbove(s, x, k, n - 1);
      var before := Settle(s, x, k, n - 1);
      OneStepShrinks(before, x, k);
      hide Smooth;
      Chain(Smooth(before, x, k) - x, before - x, s - x, k, Power(k, n - 1), Power(k - 1, n - 1));
    }
  }

  /** From below, the same of the distance to where it stops at the latest. */
  lemma {:induction false} ShrinksFromBelow(s: int, x: int, k: int, n: nat)
    requires k > 0
    ensures (x - (k - 1) - Settle(s, x, k, n)) * Power(k, n) <= (x - (k - 1) - s) * Power(k - 1, n)
  {
    if n > 0 {
      ShrinksFromBelow(s, x, k, n - 1);
      var before, goal := Settle(s, x, k, n - 1), x - (k - 1);
      OneStepShrinks(before, x, k);
      hide Smooth;
      Chain(goal - Smooth(before, x, k), goal - before, goal - s, k, Power(k, n - 1), Power(k - 1, n - 1));
    }
  }

  lemma OneStepShrinks(s: int, x: int, k: int)
    requires k > 0
    ensures (Smooth(s, x, k) - x) * k <= (s - x) * (k - 1)
    ensures (x - (k - 1) - Smooth(s, x, k)) * k <= (x - (k - 1) - s) * (k - 1)
  {
    var d, q := x - s, (x - s) / k;
    FloorBound(d, k);
    assert (s + q - x) * k == q * k - d * k;
    assert (s - x) * (k - 1) == d - d * k;
  }

  lemma Chain(after: int, before: int, start: int, k: int, a: nat, b: nat)
    requires k > 0 && after * k <= before * (k - 1) && before * a <= start * b
    ensures after * (k * a) <= start * ((k - 1) * b)
  {
    MulMonotone(after * k, before * (k - 1), a);
    MulMonotone(before * a, start * b, k - 1);
    assert after * k * a == after * (k * a);
    assert before * (k - 1) * a == before * a * (k - 1);
    assert start * b * (k - 1) == start * ((k - 1) * b);
  }

  // ----- the unsigned filter -----

  function AddStep(shiftedVal: uint32, v: uint32, k: nat, shift: ShiftCount): uint32
    requires k > 0
  {
    DivisionStays(U32(U32((k - 1) * shiftedVal) + U32(v * Pow2(shift))), k);
    U32(U32((k - 1) * shiftedVal) + U32(v * Pow2(shift))) / k
  }

  lemma DivisionStays(n: int, k: nat)
    requires k > 0
    ensures 0 <= n ==> 0 <= n / k <= n
    ensures n < 0 ==> n <= n / k < 0
  {
    Fraction(n, k, n / k);
  }

  lemma U32OfSum(a: int, b: int)
    ensures U32(U32(a) + b) == U32(a + b)
  {
    FloorBound(a, 0x1_0000_0000);
    var q := a / 0x1_0000_0000;
    assert a + b == U32(a) + b + 0x1_0000_0000 * q;
    ShiftByMultiple(U32(a) + b, 0x1_0000_0000, q);
  }

  lemma EqualQuotientsAreNear(t: int, w: int, k: int)
    requires k > 0 && t / k == w / k
    ensures -k < t - w < k
  {
    FloorBound(t, k);
    FloorBound(w, k);
  }

  lemma SmoothAsMean(s: int, x: int, k: int)
    requires k > 0
    ensures Smooth(s, x, k) == ((k - 1) * s + x) / k
  {
    assert (k - 1) * s + x == (x - s) + k * s;
    ShiftByMultiple(x - s, k, s);
  }

  /** The unsigned filter follows the recurrence exactly when its sum does not overflow. */
  lemma AddStepExactly(shiftedVal: uint32, v: uint32, k: nat, shift: ShiftCount)
    requires 0 < k < 0x100
    ensures var x := U32(v * Pow2(shift));
            AddStep(shiftedVal, v, k, shift) == Smooth(shiftedVal, x, k) <==> (k - 1) * shiftedVal + x < 0x1_0000_0000
  {
    hide Smooth, Pow2, AddStep, U32;
    var x := U32(v * Pow2(shift));
    var sum := (k - 1) * shiftedVal + x;
    AddStepAsMean(shiftedVal, v, k, shift);
    SmoothAsMean(shiftedVal, x, k);
    MulMonotone(0, k - 1, shiftedVal);
    U32Jumps(sum);
    if AddStep(shiftedVal, v, k, shift) == Smooth(shiftedVal, x, k) {
      EqualQuotientsAreNear(sum, U32(sum), k);
    }
  }

  lemma AddStepAsMean(shiftedVal: uint32, v: uint32, k: nat, shift: ShiftCount)
    requires k > 0
    ensures AddStep(shiftedVal, v, k, shift) == U32((k - 1) * shiftedVal + U32(v * Pow2(shift))) / k
  {
    hide U32;
    U32OfSum((k - 1) * shiftedVal, U32(v * Pow2(shift)));
  }

  lemma U32Jumps(n: int)
    ensures U32(n) == n <==> 0 <= n < 0x1_0000_0000
    ensures U32(n) == n || U32(n) - n >= 0x1_0000_0000 || n - U32(n) >= 0x1_0000_0000
  {
    FloorBound(n, 0x1_0000_0000);
  }

  class MovingAvg {
    const k: nat
    const shift: ShiftCount
    var shiftedVal: uint32

    constructor (k: nat, shift: ShiftCount)
      ensures this.k == k && this.shift == shift && shiftedVal == 0
    {
      this.k := k;
      this.shift := shift;
      shiftedVal := 0;
    }

    method Init(v: uint32)
      modifies this
      ensures shiftedVal == U32(v * Pow2(shift))
    {
      shiftedVal := U32(v * Pow2(shift));
    }

    method Add(v: uint32)
      requires 0 < k < 0x100
      modifies this
      ensures shiftedVal == AddStep(old(shiftedVal), v, k, shift)
    {
      DivisionStays(U32(U32((k - 1) * shiftedVal) + U32(v * Pow2(shift))), k);
      shiftedVal := U32(U32((k - 1) * shiftedVal) + U32(v * Pow2(shift))) / k;
    }

    /** Rounds down to the unit of the inputs. */
    method GetValue() returns (v: uint32)
      ensures v * Pow2(shift) <= shiftedVal < (v + 1) * Pow2(shift)
      ensures v == shiftedVal / Pow2(shift)
    {
      FloorBound(shiftedVal, Pow2(shift));
      DivisionStays(shiftedVal, Pow2(shift));
      v := shiftedVal / Pow2(shift);
    }
  }

  // ----- the signed filter -----

  function UpdateStep(smoothDataFP: int32, indata: int32, beta: ShiftCount, shift: ShiftCount): int32 {
    var sum := S32(S32(S32(smoothDataFP * Pow2(beta)) - smoothDataFP) + S32(indata * Pow2(shift)));
    DivisionStays(sum, Pow2(beta));
    sum / Pow2(beta)
  }

  lemma S32OfSum(a: int, b: int)
    ensures S32(S32(a) + b) == S32(a + b)
  {
    U32OfSum(a + 0x8000_0000, b);
  }

  lemma S32Jumps(n: int)
    ensures S32(n) == n <==> -0x8000_0000 <= n < 0x8000_0000
    ensures S32(n) == n || S32(n) - n >= 0x1_0000_0000 || n - S32(n) >= 0x1_0000_0000
  {
    FloorBound(n + 0x8000_0000, 0x1_0000_0000);
  }

  /** The signed filter follows the recurrence exactly when its sum stays in 32 bits. */
  lemma UpdateStepExactly(smoothDataFP: int32, indata: int32, beta: ShiftCount, shift: ShiftCount)
    ensures var k, x := Pow2(beta), S32(indata * Pow2(shift));
            UpdateStep(smoothDataFP, indata, beta, shift) == Smooth(smoothDataFP, x, k) <==>
            -0x8000_0000 <= (k - 1) * smoothDataFP + x < 0x8000_0000
  {
    hide S32, Smooth, UpdateStep, Pow2;
    var k, x := Pow2(beta), S32(indata * Pow2(shift));
    var sum := (k - 1) * smoothDataFP + x;
    UpdateStepAsMean(smoothDataFP, indata, beta, shift);
    SmoothAsMean(smoothDataFP, x, k);
    S32Jumps(sum);
    ShiftCountBound(beta);
    if UpdateStep(smoothDataFP, indata, beta, shift) == Smooth(smoothDataFP, x, k) {
      EqualQuotientsAreNear(sum, S32(sum), k);
    }
  }

  lemma UpdateStepAsMean(smoothDataFP: int32, indata: int32, beta: ShiftCount, shift: ShiftCount)
    ensures UpdateStep(smoothDataFP, indata, beta, shift) ==
            S32((Pow2(beta) - 1) * smoothDataFP + S32(indata * Pow2(shift))) / Pow2(beta)
  {
    hide S32;
    var k, x := Pow2(beta), S32(indata * Pow2(shift));
    S32OfSum(smoothDataFP * k, 0 - smoothDataFP);
    S32OfSum(smoothDataFP * k - smoothDataFP, x);
    assert smoothDataFP * k - smoothDataFP == (k - 1) * smoothDataFP;
  }

  lemma {:induction false} ShiftCountBound(n: ShiftCount)
    ensures Pow2(n) <= 0x4000_0000
  {
    Pow2Grows(n, 30);
    assert Pow2(10) == 0x400 && Pow2(20) == 0x10_0000 && Pow2(30) == 0x4000_0000;
  }

  lemma {:induction false} Pow2Grows(j: nat, k: nat)
    requires j <= k
    ensures Pow2(j) <= Pow2(k)
  {
    if j < k {
      Pow2Grows(j, k - 1);
    }
  }

  class LPF {
    var smoothDataINT: int32
    var smoothDataFP: int32
    const beta: ShiftCount
    const fpShift: ShiftCount
    var needReset: bool

    constructor (beta: ShiftCount, fpShift: ShiftCount)
      ensures this.beta == beta && this.fpShift == fpShift && needReset
    {
      this.beta := beta;
      this.fpShift := fpShift;
      needReset := true;
      smoothDataINT, smoothDataFP := 0, 0;
    }

    method Reset()
      modifies this`needReset
      ensures needReset
    {
      needReset := true;
    }

    method Init(indata: int32)
      modifies this
      ensures !needReset && smoothDataINT == indata && smoothDataFP == S32(indata * Pow2(fpShift))
    {
      needReset := false;
      smoothDataINT := indata;
      smoothDataFP := S32(smoothDataINT * Pow2(fpShift));
    }

    method Update(indata: int32) returns (r: int32)
      modifies this
      ensures !needReset && r == smoothDataINT
      ensures old(needReset) ==> r == indata && smoothDataFP == S32(indata * Pow2(fpShift))
      ensures !old(needReset) ==> smoothDataFP == UpdateStep(old(smoothDataFP), indata, beta, fpShift)
      ensures !old(needReset) ==> r * Pow2(fpShift) <= smoothDataFP < (r + 1) * Pow2(fpShift)
    {
      if needReset {
        Init(indata);
        return smoothDataINT;
      }
      var rawData := S32(indata * Pow2(fpShift));
      smoothDataFP := S32(S32(smoothDataFP * Pow2(beta)) - smoothDataFP);
      smoothDataFP := S32(smoothDataFP + rawData);
      DivisionStays(smoothDataFP, Pow2(beta));
      smoothDataFP := smoothDataFP / Pow2(beta);
      FloorBound(smoothDataFP, Pow2(fpShift));
      DivisionStays(smoothDataFP, Pow2(fpShift));
      smoothDataINT := smoothDataFP / Pow2(fpShift);
      return smoothDataINT;
    }
  }

  // ----- whole runs of the machine filters -----

  function AddAll(shiftedVal: uint32, vs: seq<uint32>, k: nat, shift: ShiftCount): uint32
    requires k > 0
  {
    if vs == [] then shiftedVal else AddStep(AddAll(shiftedVal, vs[..|vs| - 1], k, shift), vs[|vs| - 1], k, shift)
  }

  function UpdateAll(fp: int32, xs: seq<int32>, beta: ShiftCount, shift: ShiftCount): int32 {
    if xs == [] then fp else UpdateStep(UpdateAll(fp, xs[..|xs| - 1], beta, shift), xs[|xs| - 1], beta, shift)
  }

  function Scaled(xs: seq<int>, unit: nat): seq<int> {
    seq(|xs|, i requires 0 <= i < |xs| => xs[i] * unit)
  }

  lemma AddRefines(s: uint32, v: uint32, k: nat, shift: ShiftCount, top: nat)
    requires 0 < k < 0x100 && k * (top * Pow2(shift)) < 0x1_0000_0000
    requires s <= top * Pow2(shift) && v <= top
    ensures AddStep(s, v, k, shift) == Smooth(s, v * Pow2(shift), k) <= top * Pow2(shift)
  {
    hide Pow2, AddStep, Smooth, U32;
    var x, hi := v * Pow2(shift), top * Pow2(shift);
    MulMonotone(v, top, Pow2(shift));
    MulMonotone(1, k, hi);
    SumBound(s, x, k, 0, hi);
    MulMonotone(0, v, Pow2(shift));
    U32Jumps(x);
    AddStepExactly(s, v, k, shift);
    assert AddStep(s, v, k, shift) == Smooth(s, x, k);
    SmoothBetween(s, x, k);
  }

  lemma UpdateRefines(s: int32, v: int32, beta: ShiftCount, shift: ShiftCount, top: nat)
    requires Pow2(beta) * (top * Pow2(shift)) < 0x8000_0000
    requires -(top * Pow2(shift)) <= s <= top * Pow2(shift) && 0 - top <= v <= top
    ensures UpdateStep(s, v, beta, shift) == Smooth(s, v * Pow2(shift), Pow2(beta))
    ensures -(top * Pow2(shift)) <= UpdateStep(s, v, beta, shift) <= top * Pow2(shift)
  {
    hide Pow2, UpdateStep, Smooth, S32;
    var unit, x, k, hi := Pow2(shift), v * Pow2(shift), Pow2(beta), top * Pow2(shift);
    MulMonotone(v, top, unit);
    MulMonotone(0 - top, v, unit);
    assert (0 - top) * unit == 0 - hi;
    InRange(s, x, k, hi);
    UpdateStepExactly(s, v, beta, shift);
    assert UpdateStep(s, v, beta, shift) == Smooth(s, x, k);
    SmoothBetween(s, x, k);
  }

  lemma InRange(s: int, x: int, k: nat, hi: nat)
    requires k > 0 && k * hi < 0x8000_0000 && 0 - hi <= s <= hi && 0 - hi <= x <= hi
    ensures S32(x) == x && -0x8000_0000 <= (k - 1) * s + x < 0x8000_0000
  {
    hide S32;
    MulMonotone(1, k, hi);
    SumBound(s, x, k, 0 - hi, hi);
    assert k * (0 - hi) == 0 - k * hi;
    S32Jumps(x);
  }

  /** Readings up to `top` with `k * top * 2^shift` below 2^32: no step wraps, and the average stays in their range. */
  lemma {:induction false} AddAllRefines(shiftedVal: uint32, vs: seq<uint32>, k: nat, shift: ShiftCount, top: nat)
    requires 0 < k < 0x100 && k * (top * Pow2(shift)) < 0x1_0000_0000
    requires shiftedVal <= top * Pow2(shift) && Within(0, vs, top)
    ensures AddAll(shiftedVal, vs, k, shift) == SmoothAll(shiftedVal, Scaled(vs, Pow2(shift)), k) <= top * Pow2(shift)
  {
    if vs != [] {
      var n, unit := |vs| - 1, Pow2(shift);
      AddAllRefines(shiftedVal, vs[..n], k, shift, top);
      assert Scaled(vs[..n], unit) == Scaled(vs, unit)[..n];
      var s, x := AddAll(shiftedVal, vs[..n], k, shift), vs[n] * unit;
      hide Pow2, AddStep, Smooth;
      AddRefines(s, vs[n], k, shift, top);
    }
  }

  lemma SumBound(s: int, x: int, k: nat, lo: int, hi: int)
    requires k > 0 && lo <= s <= hi && lo <= x <= hi
    ensures k * lo <= (k - 1) * s + x <= k * hi
  {
    MulMonotone(s, hi, k - 1);
    MulMonotone(lo, s, k - 1);
  }

  /** The same for the signed filter, for readings between `-top` and `top`. */
  lemma {:induction false} UpdateAllRefines(fp: int32, xs: seq<int32>, beta: ShiftCount, shift: ShiftCount, top: nat)
    requires Pow2(beta) * (top * Pow2(shift)) < 0x8000_0000
    requires -(top * Pow2(shift)) <= fp <= top * Pow2(shift) && Within(0 - top, xs, top)
    ensures UpdateAll(fp, xs, beta, shift) == SmoothAll(fp, Scaled(xs, Pow2(shift)), Pow2(beta))
    ensures -(top * Pow2(shift)) <= UpdateAll(fp, xs, beta, shift) <= top * Pow2(shift)
  {
    if xs != [] {
      var n, k, unit := |xs| - 1, Pow2(beta), Pow2(shift);
      UpdateAllRefines(fp, xs[..n], beta, shift, top);
      assert Scaled(xs[..n], unit) == Scaled(xs, unit)[..n];
      var s, x := UpdateAll(fp, xs[..n], beta, shift), xs[n] * unit;
      hide Pow2, UpdateStep, Smooth;
      UpdateRefines(s, xs[n], beta, shift, top);
    }
  }

  /**
   On a steady input the output, in the input's own unit, settles at the input or one below, and exactly
   at the input when it came from above, within as many steps as the distance in raw units.
   */
  lemma OutputSettles(s: int, x: int, k: int, unit: nat, n: nat)
    requires 0 < k <= unit && n >= Max(s - x * unit, x * unit - s)
    ensures Settle(s, x * unit, k, n) / unit == x || Settle(s, x * unit, k, n) / unit == x - 1
    ensures s >= x * unit ==> Settle(s, x * unit, k, n) == x * unit && Settle(s, x * unit, k, n) / unit == x
  {
    hide Settle;
    var target := x * unit;
    Settles(s, target, k, n);
    NearMultiple(Settle(s, target, k, n), x, unit);
  }

  lemma NearMultiple(r: int, x: int, unit: int)
    requires unit > 0 && x * unit - unit < r <= x * unit
    ensures r / unit == if r == x * unit then x else x - 1
  {
    var below := (x - 1) * unit;
    assert below == x * unit - unit;
    if r == x * unit {
      QuotientUnique(r, unit, x, 0);
    } else {
      QuotientUnique(r, unit, x - 1, r - below);
    }
  }
}
