/**
 The checksum of CRSF frames as CRC-8/DVB-S2 draws it: a register of eight bits with feedback, and the
 check value published for it.
 */
module ShiftRegister {
  import opened Words
  import opened Bits
  import opened Crsf

  /** Four bits, the highest first. */
  datatype Nibble = Nibble(b3: bool, b2: bool, b1: bool, b0: bool)
  {
    function Value(): (v: nat)
      ensures v < 16
    {
      8 * Bit(b3) + 4 * Bit(b2) + 2 * Bit(b1) + Bit(b0)
    }

    function Plus(n: Nibble): Nibble {
      Nibble(b3 != n.b3, b2 != n.b2, b1 != n.b1, b0 != n.b0)
    }
  }

  datatype Register = Register(high: Nibble, low: Nibble)
  {
    function Value(): (v: uint8) {
      16 * high.Value() + low.Value()
    }

    function Plus(r: Register): Register {
      Register(high.Plus(r.high), low.Plus(r.low))
    }

    /** All bits move up; the one that falls out feeds x^7 + x^6 + x^4 + x^2 + 1. */
    function Turned(): Register {
      var out := high.b3;
      Register(
        Nibble(high.b2 != out, high.b1 != out, high.b0, low.b3 != out),
        Nibble(low.b2, low.b1 != out, low.b0, out))
    }

    function Turned4(): Register {
      Turned().Turned().Turned().Turned()
    }

    function Fed(x: Register): Register {
      Plus(x).Turned4().Turned4()
    }
  }

  const FEEDBACK := Register(Nibble(true, true, false, true), Nibble(false, true, false, true))

  function Bit(b: bool): nat {
    if b then 1 else 0
  }

  // ----- the register computes the checksum -----

  lemma XorGrows(a: nat, b: nat, c: bool, d: bool)
    ensures Xor(2 * a + Bit(c), 2 * b + Bit(d)) == 2 * Xor(a, b) + Bit(c != d)
  {
    hide Xor;
    XorUnfolds(2 * a + Bit(c), 2 * b + Bit(d));
    Digits(Bit(c), a);
    Digits(Bit(d), b);
    SumParity(2 * a + Bit(c), 2 * b + Bit(d), Bit(c), Bit(d));
  }

  lemma XorGrowsByTwo(a: nat, b: nat, c1: bool, c0: bool, d1: bool, d0: bool)
    ensures Xor(4 * a + 2 * Bit(c1) + Bit(c0), 4 * b + 2 * Bit(d1) + Bit(d0)) == 4 * Xor(a, b) + 2 * Bit(c1 != d1) + Bit(c0 != d0)
  {
    hide Xor, Bit;
    XorGrows(a, b, c1, d1);
    XorGrows(2 * a + Bit(c1), 2 * b + Bit(d1), c0, d0);
  }

  lemma XorGrowsByFour(a: nat, b: nat, c3: bool, c2: bool, c1: bool, c0: bool, d3: bool, d2: bool, d1: bool, d0: bool)
    ensures Xor(16 * a + 8 * Bit(c3) + 4 * Bit(c2) + 2 * Bit(c1) + Bit(c0), 16 * b + 8 * Bit(d3) + 4 * Bit(d2) + 2 * Bit(d1) + Bit(d0))
            == 16 * Xor(a, b) + 8 * Bit(c3 != d3) + 4 * Bit(c2 != d2) + 2 * Bit(c1 != d1) + Bit(c0 != d0)
  {
    hide Xor, Bit;
    XorGrowsByTwo(a, b, c3, c2, d3, d2);
    XorGrowsByTwo(4 * a + 2 * Bit(c3) + Bit(c2), 4 * b + 2 * Bit(d3) + Bit(d2), c1, c0, d1, d0);
  }

  lemma NibbleValue(c: Nibble)
    ensures c.Value() == 8 * Bit(c.b3) + 4 * Bit(c.b2) + 2 * Bit(c.b1) + Bit(c.b0)
  {
    hide Bit;
  }

  lemma NibbleSum(c: Nibble, d: Nibble)
    ensures c.Plus(d).Value() == 8 * Bit(c.b3 != d.b3) + 4 * Bit(c.b2 != d.b2) + 2 * Bit(c.b1 != d.b1) + Bit(c.b0 != d.b0)
  {
    hide Bit;
  }

  lemma XorGrowsByNibble(a: nat, b: nat, c: Nibble, d: Nibble)
    ensures Xor(16 * a + c.Value(), 16 * b + d.Value()) == 16 * Xor(a, b) + c.Plus(d).Value()
  {
    hide Xor, Bit, Nibble.Value, Nibble.Plus;
    NibbleValue(c);
    NibbleValue(d);
    NibbleSum(c, d);
    XorGrowsByFour(a, b, c.b3, c.b2, c.b1, c.b0, d.b3, d.b2, d.b1, d.b0);
  }

  lemma PlusIsXor(x: Register, y: Register)
    ensures x.Plus(y).Value() == Xor(x.Value(), y.Value())
  {
    hide Xor, Nibble.Value, Nibble.Plus;
    var zero := 0;
    XorGrowsByNibble(zero, zero, x.high, y.high);
    XorWithZero(zero);
    XorGrowsByNibble(x.high.Value(), y.high.Value(), x.low, y.low);
  }

  lemma Moves(x: Register)
    ensures Register(Nibble(x.high.b2, x.high.b1, x.high.b0, x.low.b3), Nibble(x.low.b2, x.low.b1, x.low.b0, false)).Value()
            == 2 * x.Value() - 0x100 * Bit(x.high.b3)
    ensures x.high.b3 <==> x.Value() >= 0x80
  {
  }

  lemma FeedbackIsPoly()
    ensures FEEDBACK.Value() == POLY
  {
  }

  lemma TurnedIsShift(x: Register)
    ensures x.Turned().Value() == ShiftOnce(x.Value(), POLY)
  {
    hide Xor, Register.Value;
    Moves(x);
    if x.high.b3 {
      var moved := Register(Nibble(x.high.b2, x.high.b1, x.high.b0, x.low.b3), Nibble(x.low.b2, x.low.b1, x.low.b0, false));
      PlusIsXor(moved, FEEDBACK);
      FeedbackIsPoly();
      assert x.Turned() == moved.Plus(FEEDBACK);
    }
  }

  lemma Turned4IsShift(x: Register, crc: uint8, k: nat)
    requires x.Value() == Shift(crc, POLY, k)
    ensures x.Turned4().Value() == Shift(crc, POLY, k + 4)
  {
    TurnedIsShift(x);
    TurnedIsShift(x.Turned());
    TurnedIsShift(x.Turned().Turned());
    TurnedIsShift(x.Turned().Turned().Turned());
    hide ShiftOnce, Register.Turned, Register.Value;
    assert Shift(crc, POLY, k + 1) == ShiftOnce(Shift(crc, POLY, k), POLY);
    assert Shift(crc, POLY, k + 2) == ShiftOnce(Shift(crc, POLY, k + 1), POLY);
    assert Shift(crc, POLY, k + 3) == ShiftOnce(Shift(crc, POLY, k + 2), POLY);
  }

  function Values(bytes: seq<Register>): (values: seq<uint8>) {
    seq(|bytes|, k requires 0 <= k < |bytes| => bytes[k].Value())
  }

  function Through(bytes: seq<Register>): Register {
    if bytes == [] then Register(Nibble(false, false, false, false), Nibble(false, false, false, false))
    else Through(bytes[..|bytes| - 1]).Fed(bytes[|bytes| - 1])
  }

  lemma FedIsShifted(before: Register, x: Register)
    ensures Xor(before.Value(), x.Value()) < 0x100
    ensures before.Fed(x).Value() == Shift(Xor(before.Value(), x.Value()), POLY, 8)
  {
    hide Xor, Shift, Register.Turned4, Register.Plus, Register.Value;
    PlusIsXor(before, x);
    var mixed := before.Plus(x);
    ShiftedByNone(mixed);
    Turned4IsShift(mixed, mixed.Value(), 0);
    Turned4IsShift(mixed.Turned4(), mixed.Value(), 4);
  }

  lemma ShiftedByNone(x: Register)
    ensures Shift(x.Value(), POLY, 0) == x.Value()
  {
  }

  /** What the register holds after a body is its checksum. */
  lemma {:induction false} RegisterHoldsCrc(bytes: seq<Register>)
    ensures Through(bytes).Value() == Crc8(Values(bytes), POLY)
  {
    hide Xor, Shift, Register.Fed;
    if bytes != [] {
      var n := |bytes| - 1;
      RegisterHoldsCrc(bytes[..n]);
      assert Values(bytes)[..n] == Values(bytes[..n]);
      hide Register.Value;
      FedIsShifted(Through(bytes[..n]), bytes[n]);
    }
  }

  // ----- the check value -----

  function Hex(n: nat): Nibble
    requires n < 16
  {
    Nibble(n / 8 % 2 == 1, n / 4 % 2 == 1, n / 2 % 2 == 1, n % 2 == 1)
  }

  lemma HexValue(n: nat)
    requires n < 16
    ensures Hex(n).Value() == n
  {
  }

  lemma Checked12()
    ensures Register(Hex(0x0), Hex(0x0)).Fed(Register(Hex(3), Hex(1))) == Register(Hex(0x2), Hex(0x3))
    ensures Register(Hex(0x2), Hex(0x3)).Fed(Register(Hex(3), Hex(2))) == Register(Hex(0x8), Hex(0x7))
  {
    assert Register(Hex(0x3), Hex(0x1)).Turned4() == Register(Hex(0xB), Hex(0xA));
    assert Register(Hex(0x1), Hex(0x1)).Turned4() == Register(Hex(0xC), Hex(0x5));
  }

  lemma Checked34()
    ensures Register(Hex(0x8), Hex(0x7)).Fed(Register(Hex(3), Hex(3))) == Register(Hex(0xE), Hex(0x7))
    ensures Register(Hex(0xE), Hex(0x7)).Fed(Register(Hex(3), Hex(4))) == Register(Hex(0x8), Hex(0xA))
  {
    assert Register(Hex(0xB), Hex(0x4)).Turned4() == Register(Hex(0xC), Hex(0x3));
    assert Register(Hex(0xD), Hex(0x3)).Turned4() == Register(Hex(0x3), Hex(0x2));
  }

  lemma Checked56()
    ensures Register(Hex(0x8), Hex(0xA)).Fed(Register(Hex(3), Hex(5))) == Register(Hex(0x6), Hex(0x4))
    ensures Register(Hex(0x6), Hex(0x4)).Fed(Register(Hex(3), Hex(6))) == Register(Hex(0xB), Hex(0x0))
  {
    assert Register(Hex(0xB), Hex(0xF)).Turned4() == Register(Hex(0x7), Hex(0x3));
    assert Register(Hex(0x5), Hex(0x2)).Turned4() == Register(Hex(0x0), Hex(0xB));
  }

  lemma Checked78()
    ensures Register(Hex(0xB), Hex(0x0)).Fed(Register(Hex(3), Hex(7))) == Register(Hex(0xB), Hex(0xB))
    ensures Register(Hex(0xB), Hex(0xB)).Fed(Register(Hex(3), Hex(8))) == Register(Hex(0x4), Hex(0x5))
  {
    assert Register(Hex(0x8), Hex(0x7)).Turned4() == Register(Hex(0x5), Hex(0x9));
    assert Register(Hex(0x8), Hex(0x3)).Turned4() == Register(Hex(0x1), Hex(0x9));
  }

  lemma Checked9()
    ensures Register(Hex(0x4), Hex(0x5)).Fed(Register(Hex(3), Hex(9))) == Register(Hex(0xB), Hex(0xC))
  {
    assert Register(Hex(0x7), Hex(0xC)).Turned4() == Register(Hex(0x9), Hex(0x4));
  }

  function Digits1To(n: nat): (digits: seq<Register>)
    requires n < 16
  {
    seq(n, k requires 0 <= k < n => Register(Hex(3), Hex(k + 1)))
  }

  lemma OneDigitMore(n: nat)
    requires 0 < n < 16
    ensures Through(Digits1To(n)) == Through(Digits1To(n - 1)).Fed(Register(Hex(3), Hex(n)))
  {
    hide Hex, Register.Fed;
    assert Digits1To(n)[..n - 1] == Digits1To(n - 1);
  }

  lemma NothingThrough()
    ensures Through(Digits1To(0)) == Register(Hex(0), Hex(0))
  {
  }

  lemma ThroughDigits()
    ensures Through(Digits1To(9)) == Register(Hex(0xB), Hex(0xC))
  {
    hide Register.Fed, Through, Hex;
    NothingThrough();
    OneDigitMore(1);
    OneDigitMore(2);
    Checked12();
    OneDigitMore(3);
    OneDigitMore(4);
    Checked34();
    OneDigitMore(5);
    OneDigitMore(6);
    Checked56();
    OneDigitMore(7);
    OneDigitMore(8);
    Checked78();
    OneDigitMore(9);
    Checked9();
  }

  /** The published check value: the checksum of the characters 1 to 9 is 0xBC. */
  lemma CheckValue()
    ensures Crc8([0x31, 0x32, 0x33, 0x34, 0x35, 0x36, 0x37, 0x38, 0x39], 0xD5) == 0xBC
  {
    hide Through, Crc8, Digits1To, Hex, Nibble.Value;
    ThroughDigits();
    RegisterHoldsCrc(Digits1To(9));
    HexValue(0xB);
    HexValue(0xC);
    DigitValues();
  }

  lemma DigitValues()
    ensures Values(Digits1To(9)) == [0x31, 0x32, 0x33, 0x34, 0x35, 0x36, 0x37, 0x38, 0x39]
  {
    hide Hex, Nibble.Value;
    var values := Values(Digits1To(9));
    HexValue(3);
    forall k | 0 <= k < 9
      ensures values[k] == 0x31 + k
    {
      HexValue(k + 1);
    }
    assert |values| == 9;
  }
}
