/**
 Head-tracker channels on their way to the handset: sixteen 16-bit values squeezed through a 32-bit
 accumulator into the 22 bytes that the CRSF layout reads as sixteen 11-bit fields.
 */
module ChannelPacking {
  import opened Words
  import opened Quotients
  import opened Bits

  type uint16 = n: int | 0 <= n < 0x1_0000

  const NUM_CHANNELS := 16
  const DST_BITS := 11
  const PACKED_SIZE := 22
  const HT_DO_NOT_UPDATE: uint16 := 0xFFFF
  const HT_EDGETX_NO_VALUE: uint16 := 0

  function Effective(chVal: uint16): uint16 {
    if chVal == HT_DO_NOT_UPDATE then HT_EDGETX_NO_VALUE else chVal
  }

  function AllEffective(data: seq<uint16>): seq<uint16> {
    seq(|data|, i requires 0 <= i < |data| => Effective(data[i]))
  }

  /** The number that bytes spell, the first byte lowest. */
  function LittleEndian(bytes: seq<uint8>): nat {
    if bytes == [] then 0
    else LittleEndian(bytes[..|bytes| - 1]) + bytes[|bytes| - 1] * Pow2(8 * (|bytes| - 1))
  }

  /** All values over one another, value `i` from bit `11 * i` up; what is too wide runs into the next. */
  function Overlaid(values: seq<uint16>): nat {
    if values == [] then 0
    else Or(Overlaid(values[..|values| - 1]), values[|values| - 1] * Pow2(11 * (|values| - 1)))
  }

  /** Bit-field `i` of the packed structure. */
  function Field(packed: nat, i: nat): nat {
    packed / Pow2(11 * i) % 0x800
  }

  predicate Fits(values: seq<uint16>) {
    forall i :: 0 <= i < |values| ==> values[i] < 0x800
  }

  // ----- arithmetic of the accumulator -----

  lemma {:induction false} Pow2Adds(j: nat, k: nat)
    ensures Pow2(j + k) == Pow2(j) * Pow2(k)
  {
    if j > 0 {
      Pow2Adds(j - 1, k);
    }
  }

  lemma {:induction false} OrAbove(low: nat, a: nat, b: nat, k: nat)
    requires low < Pow2(k)
    ensures Or(low + a * Pow2(k), b * Pow2(k)) == low + Or(a, b) * Pow2(k)
    decreases k
  {
    if k > 0 {
      OrAbove(low / 2, a, b, k - 1);
      DoubleAbove(low, a, b, Pow2(k - 1));
    } else {
      assert Pow2(0) == 1;
    }
  }

  lemma DoubleAbove(low: nat, a: nat, b: nat, p: nat)
    requires Or(low / 2 + a * p, b * p) == low / 2 + Or(a, b) * p
    ensures Or(low + a * (2 * p), b * (2 * p)) == low + Or(a, b) * (2 * p)
  {
    hide Or;
    TwiceProduct(a, p);
    TwiceProduct(b, p);
    TwiceProduct(Or(a, b), p);
    OrDigits(low % 2, low / 2 + a * p, b * p);
  }

  lemma OrDigits(d: nat, x: nat, y: nat)
    requires d < 2
    ensures Or(d + 2 * x, 2 * y) == d + 2 * Or(x, y)
  {
    Digits(d, x);
    Digits(0, y);
  }

  lemma {:induction false} OrBelow(a: nat, b: nat, k: nat)
    requires a < Pow2(k) && b < Pow2(k)
    ensures Or(a, b) < Pow2(k)
    decreases k
  {
    if k > 0 {
      OrBelow(a / 2, b / 2, k - 1);
    }
  }

  lemma {:induction false} LittleEndianBelow(bytes: seq<uint8>)
    ensures LittleEndian(bytes) < Pow2(8 * |bytes|)
  {
    if bytes != [] {
      var n := |bytes| - 1;
      LittleEndianBelow(bytes[..n]);
      Pow2Adds(8, 8 * n);
      assert Pow2(8) == 0x100;
      MulMonotone(bytes[n], 0xFF, Pow2(8 * n));
    }
  }

  /** What is in the bytes written so far and, above them, in the accumulator. */
  ghost function InHand(bytes: seq<uint8>, accumulator: nat): nat {
    LittleEndian(bytes) + accumulator * Pow2(8 * |bytes|)
  }

  lemma EmitKeeps(bytes: seq<uint8>, accumulator: nat)
    ensures InHand(bytes + [U8(accumulator)], accumulator / 0x100) == InHand(bytes, accumulator)
  {
    var n := |bytes|;
    assert (bytes + [U8(accumulator)])[..n] == bytes;
    Pow2Adds(8, 8 * n);
    assert Pow2(8) == 0x100;
    var p, q, r := Pow2(8 * n), accumulator / 0x100, accumulator % 0x100;
    assert accumulator == 0x100 * q + r;
    assert accumulator * p == q * (0x100 * p) + r * p;
  }

  /** `v << n` in 32 bits. */
  function ShiftLeft(v: uint32, n: nat): uint32 {
    U32(v * Pow2(n))
  }

  lemma MergeAdds(bytes: seq<uint8>, accumulator: nat, values: seq<uint16>, bitCnt: nat)
    requires values != [] && 8 * |bytes| + bitCnt == 11 * (|values| - 1) && bitCnt < 8
    requires InHand(bytes, accumulator) == Overlaid(values[..|values| - 1]) && accumulator < LIMIT
    ensures var merged := Or(accumulator, ShiftLeft(values[|values| - 1], bitCnt));
            InHand(bytes, merged) == Overlaid(values) && merged < LIMIT
  {
    var v := values[|values| - 1];
    ShiftedBelow(v, bitCnt);
    MergedBelow(accumulator, v * Pow2(bitCnt));
    var low, m, high := LittleEndian(bytes), Pow2(bitCnt), Pow2(8 * |bytes|);
    LittleEndianBelow(bytes);
    Pow2Adds(bitCnt, 8 * |bytes|);
    OrAbove(low, accumulator, v * m, 8 * |bytes|);
    hide Or, Pow2;
    Associates(v, m, high);
  }

  lemma Associates(a: int, b: int, c: int)
    ensures a * b * c == a * (b * c)
  {
  }

  lemma MergedBelow(a: nat, b: nat)
    requires a < LIMIT && b < LIMIT
    ensures Or(a, b) < LIMIT
  {
    assert Pow2(13) == 0x2000 && Pow2(23) == LIMIT;
    OrBelow(a, b, 23);
  }

  const LIMIT := 0x80_0000 // 23 bits: the widest value shifted by the most

  lemma ShiftedBelow(v: uint16, bitCnt: nat)
    requires bitCnt < 8
    ensures v * Pow2(bitCnt) < LIMIT && ShiftLeft(v, bitCnt) == v * Pow2(bitCnt)
  {
    assert Pow2(0) == 1 && Pow2(1) == 2 && Pow2(2) == 4 && Pow2(3) == 8 && Pow2(4) == 16;
    assert Pow2(5) == 32 && Pow2(6) == 64 && Pow2(7) == 128;
  }

  /** The 32-bit accumulator never loses a bit, and the 16 channels fill the 22 bytes with none left over. */
  method PublishChannels(ptrChannelData: seq<uint16>, p: array<uint8>)
    requires |ptrChannelData| == NUM_CHANNELS && p.Length == PACKED_SIZE
    modifies p
    ensures LittleEndian(p[..]) == Overlaid(AllEffective(ptrChannelData)) % Pow2(176)
  {
    ghost var values := AllEffective(ptrChannelData);
    var dst: nat := 0;
    var accumulator: uint32 := 0;
    var bitCnt: nat := 0;
    hide InHand, Overlaid, Or, ShiftLeft, Pow2, LittleEndian, Effective;
    NothingInHand();
    assert p[..0] == [] && values[..0] == [];
    for ch := 0 to NUM_CHANNELS
      invariant 0 <= dst <= PACKED_SIZE && 8 * dst + bitCnt == 11 * ch && bitCnt < 8 && accumulator < LIMIT
      invariant InHand(p[..dst], accumulator) == Overlaid(values[..ch])
    {
      var val: uint32 := Effective(ptrChannelData[ch]);
      assert values[..ch + 1][..ch] == values[..ch];
      MergeAdds(p[..dst], accumulator, values[..ch + 1], bitCnt);
      accumulator := Or(accumulator, ShiftLeft(val, bitCnt));
      bitCnt := bitCnt + DST_BITS;
      while bitCnt >= 8
        invariant 0 <= dst <= PACKED_SIZE && 8 * dst + bitCnt == 11 * (ch + 1) && 0 <= bitCnt < 19
        invariant accumulator < LIMIT && InHand(p[..dst], accumulator) == Overlaid(values[..ch + 1])
      {
        EmitKeeps(p[..dst], accumulator);
        WriteOne(p, dst, accumulator);
        dst := dst + 1;
        accumulator := accumulator / 0x100;
        bitCnt := bitCnt - 8;
      }
    }
    ghost var all := p[..];
    assert values[..NUM_CHANNELS] == values && p[..dst] == all;
    LowestBytes(all, accumulator);
  }

  method WriteOne(p: array<uint8>, dst: nat, value: nat)
    requires dst < p.Length
    modifies p
    ensures p[..] == old(p[..])[dst := U8(value)] && p[..dst + 1] == old(p[..dst]) + [U8(value)]
  {
    p[dst] := U8(value);
  }

  lemma NothingInHand()
    ensures InHand([], 0) == Overlaid([])
  {
  }

  lemma LowestBytes(bytes: seq<uint8>, rest: nat)
    ensures LittleEndian(bytes) == InHand(bytes, rest) % Pow2(8 * |bytes|)
  {
    LittleEndianBelow(bytes);
    QuotientUnique(InHand(bytes, rest), Pow2(8 * |bytes|), rest, LittleEndian(bytes));
  }

  // ----- reading the fields back -----

  /** Values that fit do not overlap: laid over one another they add up. */
  lemma {:induction false} OverlaidFits(values: seq<uint16>)
    requires Fits(values)
    ensures Overlaid(values) < Pow2(11 * |values|)
    ensures values != [] ==>
              var n := |values| - 1;
              Overlaid(values) == Overlaid(values[..n]) + values[n] * Pow2(11 * n)
  {
    if values != [] {
      var n := |values| - 1;
      OverlaidFits(values[..n]);
      OrOfDisjoint(Overlaid(values[..n]), values[n], 11 * n);
      Pow2Adds(11, 11 * n);
      assert Pow2(11) == 0x800;
      MulMonotone(values[n], 0x7FF, Pow2(11 * n));
    }
  }

  lemma FieldBelow(low: nat, v: nat, i: nat, n: nat)
    requires i < n
    ensures Field(low + v * Pow2(11 * n), i) == Field(low, i)
  {
    var p, gap := Pow2(11 * i), Pow2(11 * (n - i) - 11);
    Pow2Adds(11 * (n - i) - 11, 11);
    Pow2Adds(11 * (n - i), 11 * i);
    assert Pow2(11) == 0x800;
    hide Pow2;
    assert Pow2(11 * n) == (gap * 0x800) * p;
    assert v * Pow2(11 * n) == p * (0x800 * (v * gap)) by {
      Reorder(v, gap, p);
    }
    ShiftByMultiple(low, p, 0x800 * (v * gap));
    ShiftByMultiple(low / p, 0x800, v * gap);
  }

  lemma TopField(low: nat, v: nat, n: nat)
    requires low < Pow2(11 * n) && v < 0x800
    ensures Field(low + v * Pow2(11 * n), n) == v
  {
    QuotientUnique(low + v * Pow2(11 * n), Pow2(11 * n), v, low);
  }

  lemma Reorder(v: nat, gap: nat, p: nat)
    ensures v * (gap * 0x800 * p) == p * (0x800 * (v * gap))
  {
    assert v * (gap * 0x800 * p) == (v * gap) * (0x800 * p);
  }

  lemma {:induction false} FieldOfOverlaid(values: seq<uint16>, i: nat)
    requires Fits(values) && i < |values|
    ensures Field(Overlaid(values), i) == values[i]
  {
    var n := |values| - 1;
    OverlaidFits(values);
    OverlaidFits(values[..n]);
    hide Overlaid, Field, Pow2;
    if i == n {
      TopField(Overlaid(values[..n]), values[n], n);
    } else {
      FieldOfOverlaid(values[..n], i);
      FieldBelow(Overlaid(values[..n]), values[n], i, n);
    }
  }

  // ----- what a value too wide does -----

  /** The bits from `k` up. */
  function High(n: nat, k: nat): nat {
    if k == 0 then n else High(n / 2, k - 1)
  }

  lemma {:induction false} HighIsQuotient(n: nat, k: nat)
    ensures High(n, k) == n / Pow2(k)
  {
    if k > 0 {
      HighIsQuotient(n / 2, k - 1);
      QuotientOfHalf(n, Pow2(k - 1));
    }
  }

  lemma QuotientOfHalf(n: nat, p: nat)
    requires p > 0
    ensures n / 2 / p == n / (2 * p)
  {
    var m, d := n / 2, n % 2;
    var q, r := m / p, m % p;
    assert m == p * q + r;
    assert 2 * p * q == 2 * (p * q);
    QuotientUnique(n, 2 * p, q, 2 * r + d);
  }

  lemma OrHalves(a: nat, b: nat)
    ensures Or(a, b) / 2 == Or(a / 2, b / 2)
    ensures Or(a, b) % 2 == if a % 2 == 1 || b % 2 == 1 then 1 else 0
  {
    hide Or;
    OrUnfolds(a, b);
    Digits(if a % 2 == 1 || b % 2 == 1 then 1 else 0, Or(a / 2, b / 2));
  }

  lemma {:induction false} OrOfHighs(a: nat, b: nat, k: nat)
    ensures High(Or(a, b), k) == Or(High(a, k), High(b, k))
    decreases k
  {
    if k > 0 {
      OrOfHighs(a / 2, b / 2, k - 1);
      OrHalves(a, b);
      hide Or;
    }
  }

  lemma {:induction false} OrOfLows(a: nat, b: nat, k: nat)
    ensures Low(Or(a, b), k) == Or(Low(a, k), Low(b, k))
    decreases k
  {
    if k > 0 {
      OrOfLows(a / 2, b / 2, k - 1);
      OrHalves(a, b);
      LowDigits(a, k);
      LowDigits(b, k);
      OrUnfolds(Low(a, k), Low(b, k));
      hide Or;
    } else {
      assert Or(0, 0) == 0;
    }
  }

  lemma FieldIsBits(n: nat, i: nat)
    ensures Field(n, i) == Low(High(n, 11 * i), 11)
  {
    assert Pow2(11) == 0x800;
    hide Pow2, Low, High;
    HighIsQuotient(n, 11 * i);
    LowIsRemainder(High(n, 11 * i), 11);
  }

  lemma FieldOfOr(a: nat, b: nat, i: nat)
    ensures Field(Or(a, b), i) == Or(Field(a, i), Field(b, i))
  {
    hide Or, Low, High, Field;
    FieldIsBits(a, i);
    FieldIsBits(b, i);
    FieldIsBits(Or(a, b), i);
    OrOfHighs(a, b, 11 * i);
    OrOfLows(High(a, 11 * i), High(b, 11 * i), 11);
  }

  /** A 16-bit value laid at field `n`: its low eleven bits there, the other five in the next. */
  lemma FieldOfShifted(v: uint16, n: nat, i: nat)
    ensures Field(v * Pow2(11 * n), i) == if i == n then v % 0x800 else if i == n + 1 then v / 0x800 else 0
  {
    if i < n {
      FieldBelow(0, v, i, n);
      assert Field(0, i) == 0;
    } else {
      ShiftedQuotient(v, n, i);
    }
  }

  lemma ShiftedQuotient(v: uint16, n: nat, i: nat)
    requires i >= n
    ensures v * Pow2(11 * n) / Pow2(11 * i) == if i == n then v else if i == n + 1 then v / 0x800 else 0
  {
    var p, gap := Pow2(11 * n), Pow2(11 * (i - n));
    Pow2Adds(11 * (i - n), 11 * n);
    GapQuotient(v, i - n);
    hide Pow2;
    QuotientScaled(v, gap, p);
  }

  lemma GapQuotient(v: uint16, d: nat)
    ensures v / Pow2(11 * d) == if d == 0 then v else if d == 1 then v / 0x800 else 0
  {
    assert Pow2(0) == 1 && Pow2(11) == 0x800 && Pow2(22) == 0x40_0000;
    if d > 1 {
      var rest := Pow2(11 * d - 22);
      Pow2Adds(11 * d - 22, 22);
      MulMonotone(1, rest, 0x40_0000);
      QuotientUnique(v, Pow2(11 * d), 0, v);
    }
  }

  lemma QuotientScaled(v: nat, gap: nat, p: nat)
    requires gap > 0 && p > 0
    ensures gap * p > 0 && v * p / (gap * p) == v / gap
  {
    var q, r := v / gap, v % gap;
    assert v == gap * q + r;
    MulMonotone(r + 1, gap, p);
    MulMonotone(0, r, p);
    Regroup(gap, p, q, r);
    QuotientUnique(v * p, gap * p, q, r * p);
  }

  lemma Regroup(gap: int, p: int, q: int, r: int)
    ensures (gap * q + r) * p == gap * p * q + r * p && (r + 1) * p == r * p + p
  {
    Associates(gap, q, p);
    Associates(gap, p, q);
  }

  /** Value `i`, nought before the first and after the last. */
  function ValueAt(values: seq<uint16>, i: int): uint16 {
    if 0 <= i < |values| then values[i] else 0
  }

  /** Every field holds its value's low eleven bits and, over them, what the value before did not fit in its own. */
  lemma {:induction false} FieldsRunOver(values: seq<uint16>, i: nat)
    ensures Field(Overlaid(values), i) == RunOver(values, i)
  {
    if values != [] {
      var n := |values| - 1;
      FieldsRunOver(values[..n], i);
      assert Overlaid(values) == Or(Overlaid(values[..n]), values[n] * Pow2(11 * n));
      hide Field, Or, Pow2, Overlaid, RunOver;
      FieldOfOr(Overlaid(values[..n]), values[n] * Pow2(11 * n), i);
      FieldOfShifted(values[n], n, i);
      OneMoreValue(values, i);
    } else {
      assert Or(0, 0) == 0;
    }
  }

  function RunOver(values: seq<uint16>, i: nat): nat {
    Or(ValueAt(values, i) % 0x800, ValueAt(values, i - 1) / 0x800)
  }

  lemma OneMoreValue(values: seq<uint16>, i: nat)
    requires values != []
    ensures var n := |values| - 1;
            var v := values[n];
            RunOver(values, i)
            == Or(RunOver(values[..n], i), if i == n then v % 0x800 else if i == n + 1 then v / 0x800 else 0)
  {
    var low, spilt := ValueAt(values, i) % 0x800, ValueAt(values, i - 1) / 0x800;
    OrOfZero(Or(low, spilt));
    OrOfZero(spilt);
    OrSymmetric(spilt, low);
    hide Or;
  }

  lemma {:induction false} OrSymmetric(a: nat, b: nat)
    ensures Or(a, b) == Or(b, a)
    decreases a + b
  {
    if a != 0 || b != 0 {
      OrSymmetric(a / 2, b / 2);
    }
  }

  function Unpacked(packed: nat): (fields: seq<nat>)
    ensures |fields| == NUM_CHANNELS && forall i :: 0 <= i < |fields| ==> fields[i] < 0x800
  {
    seq(NUM_CHANNELS, i requires 0 <= i < NUM_CHANNELS => Field(packed, i))
  }

  /** The receiver of the packet reads every channel back just when each fits in 11 bits. */
  lemma ReadBackExactly(ptrChannelData: seq<uint16>)
    requires |ptrChannelData| == NUM_CHANNELS
    ensures var values := AllEffective(ptrChannelData);
            Unpacked(Overlaid(values) % Pow2(176)) == values <==> Fits(values)
  {
    var values := AllEffective(ptrChannelData);
    if Fits(values) {
      OverlaidFits(values);
      QuotientUnique(Overlaid(values), Pow2(176), 0, Overlaid(values));
      forall i | 0 <= i < NUM_CHANNELS
        ensures Unpacked(Overlaid(values))[i] == values[i]
      {
        FieldOfOverlaid(values, i);
      }
    } else {
      var i :| 0 <= i < |values| && values[i] >= 0x800;
      assert Unpacked(Overlaid(values) % Pow2(176))[i] < 0x800;
    }
  }
  /**
   Every field of the published packet: its channel's low eleven bits under those the channel before has
   above its own; a channel not to be updated counts as nought in both.
   */
  lemma PublishedFields(ptrChannelData: seq<uint16>, i: nat)
    requires |ptrChannelData| == 16 && i < 16
    ensures var own := if ptrChannelData[i] == 0xFFFF then 0 else ptrChannelData[i];
            var before := if i == 0 || ptrChannelData[i - 1] == 0xFFFF then 0 else ptrChannelData[i - 1];
            Unpacked(Overlaid(AllEffective(ptrChannelData)) % Pow2(176))[i] == Or(own % 0x800, before / 0x800)
  {
    var values := AllEffective(ptrChannelData);
    hide Overlaid, Field, Pow2, Or, LittleEndian;
    assert values[i] == if ptrChannelData[i] == 0xFFFF then 0 else ptrChannelData[i];
    FieldOfRemainder(Overlaid(values), i, 16);
    FieldsRunOver(values, i);
  }

  lemma FieldOfRemainder(n: nat, i: nat, k: nat)
    requires i < k
    ensures Field(n % Pow2(11 * k), i) == Field(n, i)
  {
    var p := Pow2(11 * k);
    hide Field, Pow2;
    FloorBound(n, p);
    if n / p < 0 {
      MulMonotone(n / p, -1, p);
      assert false;
    }
    FieldBelow(n % p, n / p, i, k);
    assert n == n % p + n / p * p;
  }

  /** Where every channel fits or is not to be updated, the fields are the channels and nought. */
  lemma FittingFields(ptrChannelData: seq<uint16>, i: nat)
    requires |ptrChannelData| == 16 && i < 16
    requires forall k :: 0 <= k < 16 ==> ptrChannelData[k] < 0x800 || ptrChannelData[k] == 0xFFFF
    ensures Unpacked(Overlaid(AllEffective(ptrChannelData)) % Pow2(176))[i]
            == if ptrChannelData[i] == 0xFFFF then 0 else ptrChannelData[i]
  {
    hide Unpacked, Overlaid, AllEffective, Or, Pow2;
    PublishedFields(ptrChannelData, i);
    OrOfZero(if ptrChannelData[i] == 0xFFFF then 0 else ptrChannelData[i]);
  }
}
