/**
 CRSF frames as the Python tools write and read them: sync, length, body, CRC. Python's integers have no
 width, so the checksum is modelled both as the script computes it and as an 8-bit register.
 */
module Crsf {
  import opened Words
  import opened Quotients
  import opened Bits

  const POLY := 0xD5
  const MAX_LENGTH := 62

  // ----- checksum -----

  /** `n` turns of the inner loop, nothing masked; bit 7 decides whether the polynomial is applied. */
  function ShiftUnmasked(crc: nat, poly: nat, n: nat): nat {
    if n == 0 then crc
    else
      var c := ShiftUnmasked(crc, poly, n - 1);
      if c / 0x80 % 2 == 1 then Xor(2 * c, poly) else 2 * c
  }

  function CrcUnmasked(payload: seq<nat>, poly: nat): nat {
    if payload == [] then 0
    else ShiftUnmasked(Xor(CrcUnmasked(payload[..|payload| - 1], poly), payload[|payload| - 1]), poly, 8)
  }

  /** One shift of an 8-bit register. */
  function ShiftOnce(crc: uint8, poly: uint8): uint8 {
    if crc >= 0x80 then XorOfBytes(2 * crc - 0x100, poly); Xor(2 * crc - 0x100, poly) else 2 * crc
  }

  function Shift(crc: uint8, poly: uint8, n: nat): uint8 {
    if n == 0 then crc else ShiftOnce(Shift(crc, poly, n - 1), poly)
  }

  function Crc8(payload: seq<uint8>, poly: uint8): uint8 {
    if payload == [] then 0
    else
      var before := Crc8(payload[..|payload| - 1], poly);
      XorOfBytes(before, payload[|payload| - 1]);
      Shift(Xor(before, payload[|payload| - 1]), poly, 8)
  }

  lemma XorOfBytes(a: uint8, b: uint8)
    ensures Xor(a, b) < 0x100
  {
    hide Xor;
    XorLowByte(a, b);
    assert a % 0x100 == a && b % 0x100 == b;
  }

  lemma XorLowByte(a: nat, b: nat)
    ensures Xor(a, b) % 0x100 == Xor(a % 0x100, b % 0x100)
  {
    XorActsPerBit(a, b, 8);
    LowByte(a);
    LowByte(b);
    LowByte(Xor(a, b));
  }

  lemma LowByteDecides(c: nat)
    ensures c / 0x80 % 2 == 1 <==> c % 0x100 >= 0x80
    ensures 2 * c % 0x100 == if c % 0x100 >= 0x80 then 2 * (c % 0x100) - 0x100 else 2 * (c % 0x100)
  {
    var q, r := c / 0x100, c % 0x100;
    assert c == 0x100 * q + r;
    if r >= 0x80 {
      QuotientUnique(c, 0x80, 2 * q + 1, r - 0x80);
      QuotientUnique(2 * c, 0x100, 2 * q + 1, 2 * r - 0x100);
    } else {
      QuotientUnique(c, 0x80, 2 * q, r);
      QuotientUnique(2 * c, 0x100, 2 * q, 2 * r);
    }
  }

  lemma {:induction false} ShiftsAgree(crc: nat, poly: nat, n: nat)
    ensures ShiftUnmasked(crc, poly, n) % 0x100 == Shift(U8(crc), U8(poly), n)
  {
    if n > 0 {
      ShiftsAgree(crc, poly, n - 1);
      var c := ShiftUnmasked(crc, poly, n - 1);
      LowByteDecides(c);
      XorLowByte(2 * c, poly);
    }
  }

  function Bytes(payload: seq<nat>): (bytes: seq<uint8>) {
    seq(|payload|, i requires 0 <= i < |payload| => U8(payload[i]))
  }

  /** Masking once at the end gives what an 8-bit register holds, whatever the numbers and polynomial. */
  lemma {:induction false} MaskingOnceSuffices(payload: seq<nat>, poly: nat)
    ensures CrcUnmasked(payload, poly) % 0x100 == Crc8(Bytes(payload), U8(poly))
  {
    if payload != [] {
      var n := |payload| - 1;
      MaskingOnceSuffices(payload[..n], poly);
      assert Bytes(payload)[..n] == Bytes(payload[..n]);
      var before := CrcUnmasked(payload[..n], poly);
      XorLowByte(before, payload[n]);
      ShiftsAgree(Xor(before, payload[n]), poly, 8);
    }
  }

  method CalcCrc8(payload: seq<nat>, poly: nat) returns (crc8: uint8)
    ensures crc8 == Crc8(Bytes(payload), U8(poly))
  {
    var crc: nat := 0;
    for i := 0 to |payload|
      invariant crc == CrcUnmasked(payload[..i], poly)
    {
      assert payload[..i + 1][..i] == payload[..i];
      crc := Xor(crc, payload[i]);
      ghost var mixed := crc;
      for j := 0 to 8
        invariant crc == ShiftUnmasked(mixed, poly, j)
      {
        if crc / 0x80 % 2 == 1 {
          crc := Xor(2 * crc, poly);
        } else {
          crc := 2 * crc;
        }
      }
    }
    assert payload[..|payload|] == payload;
    MaskingOnceSuffices(payload, poly);
    return crc % 0x100;
  }

  // ----- what the checksum is -----

  /** A body as one number, its first byte highest. */
  function BigEndian(body: seq<uint8>): nat {
    if body == [] then 0 else BigEndian(body[..|body| - 1]) * 0x100 + body[|body| - 1]
  }

  /** `r` is what remains of `n` once `q` times the full polynomial, its leading bit included, is taken off. */
  ghost predicate Remains(n: nat, poly: uint8, q: nat, r: nat) {
    n == Xor(CarrylessProduct(q, 0x100 + poly), r)
  }

  /** Doubling the number and shifting the register once brings down the next bit of the quotient. */
  lemma ShiftDivides(n: nat, poly: uint8, q: nat, crc: uint8) returns (next: nat)
    requires Remains(n, poly, q, crc)
    ensures Remains(2 * n, poly, next, ShiftOnce(crc, poly))
  {
    var bit := if crc >= 0x80 then 1 else 0;
    next := 2 * q + bit;
    var full, product, shifted := 0x100 + poly, CarrylessProduct(q, 0x100 + poly), ShiftOnce(crc, poly);
    NextProduct(q, bit, full);
    DoubledRegister(crc, poly);
    hide Xor, CarrylessProduct, ShiftOnce;
    XorOfDoubles(product, crc);
    var off := if bit == 1 then full else 0;
    XorAssociates(2 * product, off, shifted);
    XorSymmetric(2 * product, off);
  }

  lemma NextProduct(q: nat, bit: nat, full: nat)
    requires bit < 2
    ensures CarrylessProduct(2 * q + bit, full) == Xor(if bit == 1 then full else 0, 2 * CarrylessProduct(q, full))
  {
    Digits(bit, q);
    if q == 0 && bit == 0 {
      XorWithZero(0);
    }
    hide Xor;
  }

  lemma DoubledRegister(crc: uint8, poly: uint8)
    ensures 2 * crc == Xor(if crc >= 0x80 then 0x100 + poly else 0, ShiftOnce(crc, poly))
  {
    if crc >= 0x80 {
      var low := 2 * crc - 0x100;
      assert Pow2(8) == 0x100;
      XorOfLowDigits(1, poly, 8);
      XorOfLowDigits(1, low, 8);
      hide Xor;
      XorAssociates(0x100, poly, Xor(low, poly));
      XorSymmetric(low, poly);
      XorAssociates(poly, poly, low);
      XorWithSelf(poly);
      XorWithZero(low);
    } else {
      XorWithZero(2 * crc);
    }
  }

  lemma XorWithSelf(a: nat)
    ensures Xor(a, a) == 0
  {
    XorWithZero(a);
    XorTwiceCancels(0, a);
  }

  lemma {:induction false} ShiftsDivide(n: nat, poly: uint8, q: nat, crc: uint8, k: nat) returns (next: nat)
    requires Remains(n, poly, q, crc)
    ensures Remains(n * Pow2(k), poly, next, Shift(crc, poly, k))
  {
    if k == 0 {
      next := q;
    } else {
      hide Remains, ShiftOnce;
      var before := ShiftsDivide(n, poly, q, crc, k - 1);
      TwiceProduct(n, Pow2(k - 1));
      next := ShiftDivides(n * Pow2(k - 1), poly, before, Shift(crc, poly, k - 1));
    }
  }

  /** The checksum is the remainder of the body, followed by eight zero bits, by the polynomial. */
  lemma {:induction false} CrcIsRemainder(body: seq<uint8>, poly: uint8) returns (q: nat)
    ensures Remains(BigEndian(body) * 0x100, poly, q, Crc8(body, poly))
  {
    if body == [] {
      q := 0;
      XorWithZero(0);
    } else {
      var n := |body| - 1;
      var before, x := BigEndian(body[..n]) * 0x100, body[n];
      var earlier := CrcIsRemainder(body[..n], poly);
      MixInByte(before, BigEndian(body[..n]), poly, earlier, Crc8(body[..n], poly), x);
      XorOfBytes(Crc8(body[..n], poly), x);
      assert Pow2(8) == 0x100;
      q := ShiftsDivide(before + x, poly, earlier, Xor(Crc8(body[..n], poly), x), 8);
    }
  }

  lemma MixInByte(n: nat, high: nat, poly: uint8, q: nat, crc: uint8, x: uint8)
    requires n == high * 0x100 && Remains(n, poly, q, crc)
    ensures Remains(n + x, poly, q, Xor(crc, x))
  {
    assert Pow2(8) == 0x100;
    XorOfLowDigits(high, x, 8);
    hide Xor;
    XorAssociates(CarrylessProduct(q, 0x100 + poly), crc, x);
  }

  /** A remainder of eight bits is the only one: no other checksum byte would do. */
  lemma RemainderIsUnique(n: nat, poly: uint8, q1: nat, r1: uint8, q2: nat, r2: uint8)
    requires Remains(n, poly, q1, r1) && Remains(n, poly, q2, r2)
    ensures r1 == r2
  {
    var full := 0x100 + poly;
    var p1, p2, q, r := CarrylessProduct(q1, full), CarrylessProduct(q2, full), Xor(q1, q2), Xor(r1, r2);
    assert Xor(CarrylessProduct(q, full), r) == 0 by {
      hide Xor, CarrylessProduct;
      ProductOfSum(q1, q2, full);
      XorRegroups(p1, p2, r1, r2);
      XorWithSelf(n);
    }
    XorOfBytes(r1, r2);
    assert CarrylessProduct(q, full) == r by {
      hide Xor, CarrylessProduct;
      XorTwiceCancels(CarrylessProduct(q, full), r);
      XorWithZero(r);
    }
    assert Pow2(8) == 0x100;
    if q != 0 {
      ProductKeepsDegree(q, full, 8);
      assert false;
    }
    assert CarrylessProduct(0, full) == 0;
    XorTwiceCancels(r1, r2);
    XorWithZero(r2);
  }

  // ----- what the checksum notices -----

  lemma XorIsInjective(a: nat, b: nat, x: nat)
    requires Xor(a, x) == Xor(b, x)
    ensures a == b
  {
    XorTwiceCancels(a, x);
    XorTwiceCancels(b, x);
  }

  lemma OddAfterPoly(a: nat, b: nat, poly: nat)
    requires a % 2 == 0 && b % 2 == 0 && poly % 2 == 1
    ensures Xor(a, poly) != b
  {
    XorDigits(a, poly);
    hide Xor;
    assert (a + poly) % 2 == 1;
  }

  lemma ShiftOnceIsInjective(a: uint8, b: uint8, poly: uint8)
    requires poly % 2 == 1 && ShiftOnce(a, poly) == ShiftOnce(b, poly)
    ensures a == b
  {
    hide Xor;
    if a >= 0x80 && b >= 0x80 {
      XorIsInjective(2 * a - 0x100, 2 * b - 0x100, poly);
    } else if a >= 0x80 {
      OddAfterPoly(2 * a - 0x100, 2 * b, poly);
    } else if b >= 0x80 {
      OddAfterPoly(2 * b - 0x100, 2 * a, poly);
    }
  }

  lemma {:induction false} ShiftIsInjective(a: uint8, b: uint8, poly: uint8, n: nat)
    requires poly % 2 == 1 && Shift(a, poly, n) == Shift(b, poly, n)
    ensures a == b
  {
    if n > 0 {
      ShiftOnceIsInjective(Shift(a, poly, n - 1), Shift(b, poly, n - 1), poly);
      ShiftIsInjective(a, b, poly, n - 1);
    }
  }

  /** Two bodies that differ in one byte never share a checksum. */
  lemma {:induction false} OneChangedByteShows(a: seq<uint8>, b: seq<uint8>, k: nat, poly: uint8)
    requires poly % 2 == 1 && |a| == |b| && k < |a| && a[k] != b[k]
    requires forall i :: 0 <= i < |a| && i != k ==> a[i] == b[i]
    ensures Crc8(a, poly) != Crc8(b, poly)
    decreases |a|
  {
    var n := |a| - 1;
    var x, y := Crc8(a[..n], poly), Crc8(b[..n], poly);
    XorOfBytes(x, a[n]);
    XorOfBytes(y, b[n]);
    if Crc8(a, poly) == Crc8(b, poly) {
      ShiftIsInjective(Xor(x, a[n]), Xor(y, b[n]), poly, 8);
      if k < n {
        OneChangedByteShows(a[..n], b[..n], k, poly);
        XorIsInjective(x, y, a[n]);
      } else {
        assert a[..n] == b[..n];
        XorSymmetric(x, a[n]);
        XorSymmetric(x, b[n]);
        XorIsInjective(a[n], b[n], x);
      }
    }
  }

  // ----- writing -----

  function Frame(sync: uint8, body: seq<uint8>): (frame: seq<uint8>)
    requires |body| < 0xFF
  {
    [sync, 1 + |body|] + body + [Crc8(body, POLY)]
  }

  lemma BytesOfBytes(body: seq<uint8>)
    ensures Bytes(body) == body
  {
  }

  /** `None` is the `ValueError` of a length that does not fit its byte. */
  method Send(sync: uint8, line: seq<uint8>) returns (written: Option<seq<uint8>>)
    ensures written == if |line| < 0xFF then Some(Frame(sync, line)) else None
  {
    if 1 + |line| > 0xFF {
      return None;
    }
    var crc := CalcCrc8(line, POLY);
    BytesOfBytes(line);
    return Some([sync, 1 + |line|] + line + [crc]);
  }

  predicate AllBytes(payload: seq<nat>) {
    forall i :: 0 <= i < |payload| ==> payload[i] < 0x100
  }

  /** The list after the key has been appended and its length added to the second entry. */
  function WithKey(start: seq<nat>, key: seq<nat>): (payload: seq<nat>)
    requires start != []
  {
    if key == [] then start else (start + key)[1 := (start + key)[1] + |key|]
  }

  function Tail(payload: seq<nat>): seq<nat> {
    if |payload| < 2 then [] else payload[2..]
  }

  function TelemetrySeq(start: seq<nat>, key: seq<nat>): Option<seq<uint8>> {
    if start == [] then Some([])
    else
      var payload := WithKey(start, key);
      if AllBytes(payload) then Some(Bytes(payload) + [Crc8(Bytes(Tail(payload)), POLY)]) else None
  }

  lemma ClosedByChecksum(payload: seq<nat>, crc: uint8)
    ensures AllBytes(payload + [crc]) <==> AllBytes(payload)
    ensures Bytes(payload + [crc]) == Bytes(payload) + [crc]
  {
    assert forall i :: 0 <= i < |payload| ==> (payload + [crc])[i] == payload[i];
  }

  lemma NothingIsBytes()
    ensures Bytes([]) == [] && AllBytes([])
  {
  }

  /** `key` holds code points; `None` is the `ValueError` for a number no byte can hold. */
  method GetTelemetrySeq(start: seq<nat>, key: seq<nat>) returns (r: Option<seq<uint8>>)
    ensures r == TelemetrySeq(start, key)
  {
    hide Bytes, AllBytes, Crc8, Tail;
    NothingIsBytes();
    var payload := start;
    if payload != [] {
      if key != [] {
        payload := payload + key;
        payload := payload[1 := payload[1] + |key|];
      }
      ghost var edited := WithKey(start, key);
      assert payload == edited;
      var crc := CalcCrc8(Tail(payload), POLY);
      ClosedByChecksum(edited, crc);
      payload := payload + [crc];
    }
    if AllBytes(payload) {
      return Some(Bytes(payload));
    } else {
      return None;
    }
  }

  lemma WithKeySplit(start: seq<uint8>, key: seq<uint8>)
    requires |start| >= 2
    ensures WithKey(start, key) == [start[0], start[1] + |key|] + (start[2..] + key)
    ensures Tail(WithKey(start, key)) == start[2..] + key
  {
  }

  ghost predicate IsFrame(written: Option<seq<uint8>>, sync: uint8, body: seq<uint8>) {
    |body| < 0xFF && written == Some(Frame(sync, body))
  }

  /** A key that fits yields a frame just when the start counted its own tail and the checksum. */
  lemma TelemetrySeqIsFrame(start: seq<uint8>, key: seq<uint8>)
    requires |start| >= 2
    ensures IsFrame(TelemetrySeq(start, key), start[0], start[2..] + key) <==>
            start[1] == |start| - 1 && |start| + |key| <= 0x100
  {
    WithKeySplit(start, key);
    var payload, body := WithKey(start, key), start[2..] + key;
    BytesOfBytes(body);
    hide WithKey, Tail, Crc8, Bytes, AllBytes;
    if start[1] == |start| - 1 && |start| + |key| <= 0x100 {
      HeaderThenBody(start[0], start[1] + |key|, body);
    } else if |body| < 0xFF && AllBytes(payload) {
      HeaderLength(payload, Crc8(body, POLY));
      assert payload[1] == start[1] + |key|;
      assert Frame(start[0], body)[1] == 1 + |body|;
    }
  }

  /** A start of one number, with nothing to append, is closed by the checksum of no body at all. */
  lemma ShortStart(x: nat)
    ensures TelemetrySeq([x], []) == if x < 0x100 then Some([x, 0]) else None
  {
    assert WithKey([x], []) == [x] && Tail([x]) == [];
    assert Crc8([], POLY) == 0 && Bytes([]) == [];
    if x < 0x100 {
      assert Bytes([x]) + [0] == [x, 0];
    } else {
      assert [x][0] == x && !AllBytes([x]);
    }
  }

  lemma HeaderLength(payload: seq<nat>, crc: uint8)
    requires |payload| >= 2 && AllBytes(payload)
    ensures (Bytes(payload) + [crc])[1] == payload[1]
  {
  }

  lemma HeaderThenBody(sync: uint8, length: uint8, body: seq<uint8>)
    ensures AllBytes([sync, length] + body) && Bytes([sync, length] + body) == [sync, length] + body
  {
    BytesOfBytes([sync, length] + body);
  }

  // ----- reading -----

  datatype Outcome = Delivered(body: seq<uint8>) | Flushed

  datatype ReaderState = ReaderState(starting: bool, count: nat, command: seq<uint8>)

  const IDLE := ReaderState(false, 0, [])

  function Feed(s: ReaderState, b: uint8): (ReaderState, seq<Outcome>) {
    if s.count > 1 then (s.(count := s.count - 1, command := s.command + [b]), [])
    else if s.count == 1 then
      (s.(count := 0), if Crc8(s.command, POLY) == b then [Delivered(s.command)] else [Flushed])
    else if s.starting then
      if b > MAX_LENGTH then (s.(starting := false), [Flushed]) else (ReaderState(false, b, []), [])
    else (s.(starting := true), [])
  }

  class Reader {
    var starting: bool
    var count: nat
    var command: seq<uint8>

    function State(): ReaderState
      reads this
    {
      ReaderState(starting, count, command)
    }

    constructor ()
      ensures State() == IDLE
    {
      starting, count, command := false, 0, [];
    }

    method OnByte(b: uint8) returns (outcomes: seq<Outcome>)
      modifies this
      ensures (State(), outcomes) == Feed(old(State()), b)
    {
      outcomes := [];
      if count != 0 {
        count := count - 1;
        if count == 0 {
          var crc := CalcCrc8(command, POLY);
          BytesOfBytes(command);
          if crc == b {
            outcomes := [Delivered(command)];
          } else {
            outcomes := [Flushed];
          }
        } else {
          command := command + [b];
        }
      } else if starting {
        starting := false;
        if b > MAX_LENGTH {
          outcomes := [Flushed];
        } else {
          count := b;
          command := [];
        }
      } else {
        starting := true;
      }
    }
  }

  /** The reader over the bytes it gets to see; what a flush throws away is not among them. */
  function FeedAll(s: ReaderState, bytes: seq<uint8>): seq<Outcome>
    decreases |bytes|
  {
    if bytes == [] then []
    else
      var (next, outcomes) := Feed(s, bytes[0]);
      outcomes + FeedAll(next, bytes[1..])
  }

  /** The stream cut into frames, with no state machine. */
  function Split(bytes: seq<uint8>): seq<Outcome> {
    if |bytes| < 2 then []
    else
      var n := bytes[1];
      if n > MAX_LENGTH then [Flushed] + Split(bytes[2..])
      else if n == 0 then Split(bytes[2..])
      else if |bytes| < 2 + n then []
      else
        var body := bytes[2..1 + n];
        [if Crc8(body, POLY) == bytes[1 + n] then Delivered(body) else Flushed] + Split(bytes[2 + n..])
  }

  /** From the checksum byte of `body` on. */
  function Collected(body: seq<uint8>, bytes: seq<uint8>): seq<Outcome>
    requires bytes != []
  {
    [if Crc8(body, POLY) == bytes[0] then Delivered(body) else Flushed] + FeedAll(ReaderState(false, 0, body), bytes[1..])
  }

  lemma {:induction false} Collects(command: seq<uint8>, count: nat, bytes: seq<uint8>)
    requires count > 0
    ensures |bytes| < count ==> FeedAll(ReaderState(false, count, command), bytes) == []
    ensures |bytes| >= count ==>
              FeedAll(ReaderState(false, count, command), bytes) == Collected(command + bytes[..count - 1], bytes[count - 1..])
    decreases count
  {
    if bytes != [] {
      var rest := bytes[1..];
      FeedOne(ReaderState(false, count, command), bytes);
      hide FeedAll, Crc8;
      if count == 1 {
        assert command + bytes[..0] == command && bytes[0..] == bytes;
      } else {
        Collects(command + [bytes[0]], count - 1, rest);
        if |bytes| >= count {
          ShiftedRun(command, bytes, count);
        }
      }
    }
  }

  lemma FeedOne(s: ReaderState, bytes: seq<uint8>)
    requires bytes != []
    ensures FeedAll(s, bytes) == Feed(s, bytes[0]).1 + FeedAll(Feed(s, bytes[0]).0, bytes[1..])
  {
  }

  lemma ShiftedRun(command: seq<uint8>, bytes: seq<uint8>, count: nat)
    requires 2 <= count <= |bytes|
    ensures command + [bytes[0]] + bytes[1..][..count - 2] == command + bytes[..count - 1]
    ensures bytes[1..][count - 2..] == bytes[count - 1..]
  {
  }

  /** The byte-by-byte machine and the cutter agree on every input. */
  lemma {:induction false} ReaderSplits(command: seq<uint8>, bytes: seq<uint8>)
    ensures FeedAll(ReaderState(false, 0, command), bytes) == Split(bytes)
    decreases |bytes|
  {
    if |bytes| >= 2 {
      var n := bytes[1];
      var rest := bytes[2..];
      assert bytes[1..][1..] == rest && bytes[1..][0] == n;
      if n > MAX_LENGTH {
        ReaderSplits(command, rest);
      } else if n == 0 {
        ReaderSplits([], rest);
      } else {
        Collects([], n, rest);
        if |bytes| >= 2 + n {
          assert [] + rest[..n - 1] == bytes[2..1 + n] && rest[n - 1..][1..] == bytes[2 + n..] && rest[n - 1] == bytes[1 + n];
          ReaderSplits(bytes[2..1 + n], bytes[2 + n..]);
        }
      }
    } else if |bytes| == 1 {
      assert bytes[1..] == [];
    }
  }

  datatype Message = Message(sync: uint8, body: seq<uint8>)

  function Stream(messages: seq<Message>): seq<uint8>
    requires forall m :: m in messages ==> |m.body| < 0xFF
  {
    if messages == [] then [] else Frame(messages[0].sync, messages[0].body) + Stream(messages[1..])
  }

  lemma FrameThenRest(sync: uint8, body: seq<uint8>, sum: uint8, rest: seq<uint8>)
    requires |body| <= 61
    ensures Split([sync, 1 + |body|] + body + [sum] + rest) ==
            [if Crc8(body, POLY) == sum then Delivered(body) else Flushed] + Split(rest)
  {
    var bytes := [sync, 1 + |body|] + body + [sum] + rest;
    assert bytes[2..2 + |body|] == body && bytes[2 + |body|] == sum && bytes[3 + |body|..] == rest;
  }

  /** Any number of frames back to back, bodies of up to 61 bytes: exactly those bodies come out. */
  lemma {:induction false} RoundTrip(messages: seq<Message>)
    requires forall m :: m in messages ==> |m.body| <= 61
    ensures FeedAll(IDLE, Stream(messages)) == seq(|messages|, i requires 0 <= i < |messages| => Delivered(messages[i].body))
  {
    ReaderSplits([], Stream(messages));
    if messages != [] {
      RoundTrip(messages[1..]);
      ReaderSplits([], Stream(messages[1..]));
      var m := messages[0];
      FrameThenRest(m.sync, m.body, Crc8(m.body, POLY), Stream(messages[1..]));
    }
  }

  /** `send` writes longer frames than the reader takes: it gives the body back just when it has at most 61 bytes. */
  lemma ReadBackExactly(sync: uint8, body: seq<uint8>)
    requires |body| < 0xFF
    ensures FeedAll(IDLE, Frame(sync, body)) == [Delivered(body)] <==> |body| <= 61
  {
    ReaderSplits([], Frame(sync, body));
    if |body| <= 61 {
      FrameThenRest(sync, body, Crc8(body, POLY), []);
      assert [sync, 1 + |body|] + body + [Crc8(body, POLY)] + [] == Frame(sync, body);
    } else {
      assert Split(Frame(sync, body))[0] == Flushed;
    }
  }

  /** A frame with one byte of its body changed is thrown away, and what follows is read as before. */
  lemma OneBadByteIsRefused(sync: uint8, body: seq<uint8>, bad: seq<uint8>, k: nat, rest: seq<uint8>)
    requires k < |body| <= 61 && |bad| == |body| && bad[k] != body[k]
    requires forall i :: 0 <= i < |body| && i != k ==> bad[i] == body[i]
    ensures FeedAll(IDLE, [sync, 1 + |body|] + bad + [Crc8(body, POLY)] + rest) == [Flushed] + FeedAll(IDLE, rest)
  {
    OneChangedByteShows(bad, body, k, POLY);
    FrameThenRest(sync, bad, Crc8(body, POLY), rest);
    ReaderSplits([], [sync, 1 + |body|] + bad + [Crc8(body, POLY)] + rest);
    ReaderSplits([], rest);
  }

  /** Where in the input a frame with this body stands. */
  ghost predicate FrameAt(bytes: seq<uint8>, body: seq<uint8>, i: nat) {
    && |body| <= 61 && i + |body| + 3 <= |bytes|
    && bytes[i..i + |body| + 3] == Frame(bytes[i], body)
  }

  /** Whatever the bytes, a body is delivered only if a whole frame of it stood in the input. */
  lemma {:induction false} DeliveredWasFramed(bytes: seq<uint8>, k: nat)
    requires k < |FeedAll(IDLE, bytes)| && FeedAll(IDLE, bytes)[k].Delivered?
    ensures exists i: nat :: FrameAt(bytes, FeedAll(IDLE, bytes)[k].body, i)
  {
    ReaderSplits([], bytes);
    var _ := SplitWasFramed(bytes, k);
  }

  /** The first cut, with what it says, if anything, and where the next begins. */
  lemma FirstCut(bytes: seq<uint8>) returns (said: seq<Outcome>, taken: nat)
    requires Split(bytes) != []
    ensures 0 < taken <= |bytes| && Split(bytes) == said + Split(bytes[taken..])
    ensures said == [] || (|said| == 1 && (said[0].Delivered? ==> FrameAt(bytes, said[0].body, 0)))
  {
    var n := bytes[1];
    if n == 0 {
      return [], 2;
    }
    said := [Split(bytes)[0]];
    taken := if n > MAX_LENGTH then 2 else 2 + n;
    if said[0].Delivered? {
      assert bytes[0..n + 2] == Frame(bytes[0], said[0].body);
    }
  }

  lemma {:induction false} SplitWasFramed(bytes: seq<uint8>, k: nat) returns (at: nat)
    requires k < |Split(bytes)| && Split(bytes)[k].Delivered?
    ensures FrameAt(bytes, Split(bytes)[k].body, at)
    decreases |bytes|
  {
    hide Split, FrameAt;
    var said, taken := FirstCut(bytes);
    if k < |said| {
      return 0;
    }
    var i := SplitWasFramed(bytes[taken..], k - |said|);
    LaterInInput(bytes, taken, Split(bytes)[k].body, i);
    return taken + i;
  }

  lemma LaterInInput(bytes: seq<uint8>, taken: nat, body: seq<uint8>, i: nat)
    requires taken <= |bytes| && FrameAt(bytes[taken..], body, i)
    ensures FrameAt(bytes, body, taken + i)
  {
    var len := |body| + 3;
    assert bytes[taken..][i..i + len] == bytes[taken + i..taken + i + len];
  }
}
