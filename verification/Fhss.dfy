/** Building the pseudorandom hop sequence in place. */
module Fhss {
  import opened Words
  import opened Hopping
  import Quotients

  function NextSeed(seed: uint32): uint32 {
    U32(214013 * seed + 2531011) % 0x8000_0000
  }

  /** The number drawn with that seed, below `max`. */
  function Drawn(seed: uint32, max: nat): nat
    requires max > 0
  {
    NextSeed(seed) / 0x1_0000 % max
  }

  /** The linear congruential generator shared by both ends. */
  class Random {
    var seed: uint32

    constructor (newSeed: uint32)
      ensures seed == newSeed
    {
      seed := newSeed;
    }

    method Rng() returns (r: nat)
      modifies this
      ensures seed == NextSeed(old(seed)) && r == seed / 0x1_0000 < 0x8000
    {
      seed := U32(214013 * seed + 2531011) % 0x8000_0000;
      r := seed / 0x1_0000;
    }

    method RngN(max: uint8) returns (r: uint8)
      requires max > 0
      modifies this
      ensures seed == NextSeed(old(seed)) && r == Drawn(old(seed), max) < max
    {
      var x := Rng();
      r := x % max;
    }
  }

  predicate SameBlock(i: nat, j: nat, channels: nat)
    requires channels > 0
  {
    i / channels == j / channels
  }

  /** Before shuffling: block heads and the sync channel's own place trade channels. */
  function InitialChannel(i: nat, channels: nat, sync: nat): nat
    requires channels > 0
  {
    if i % channels == 0 then sync
    else if i % channels == sync then 0
    else i % channels
  }

  predicate BlockHead(i: nat, channels: nat)
    requires channels > 0
  {
    i % channels == 0
  }

  function BlockStart(i: nat, channels: nat): nat
    requires channels > 0
  {
    i / channels * channels
  }

  predicate NoRepeats(s: seq<uint8>, channels: nat)
    requires channels > 0
  {
    forall i, j :: 0 <= i < j < |s| && SameBlock(i, j, channels) ==> s[i] != s[j]
  }

  /** Every block starts with the sync channel and repeats no channel. */
  predicate WellBuilt(s: seq<uint8>, channels: nat, sync: nat)
    requires channels > 0
  {
    && (forall i :: 0 <= i < |s| ==> s[i] < channels)
    && (forall i :: 0 <= i < |s| ==> (s[i] == sync <==> BlockHead(i, channels)))
    && NoRepeats(s, channels)
  }

  lemma PlacesDiffer(i: nat, j: nat, channels: nat)
    requires channels > 0 && SameBlock(i, j, channels) && i != j
    ensures i % channels != j % channels
  {
    assert i == channels * (i / channels) + i % channels;
    assert j == channels * (j / channels) + j % channels;
  }

  lemma InitialIsWellBuilt(s: seq<uint8>, channels: nat, sync: nat)
    requires 0 < sync < channels
    requires forall i :: 0 <= i < |s| ==> s[i] == InitialChannel(i, channels, sync)
    ensures WellBuilt(s, channels, sync)
  {
    forall i, j | 0 <= i < j < |s| && SameBlock(i, j, channels)
      ensures s[i] != s[j]
    {
      PlacesDiffer(i, j, channels);
    }
  }

  lemma SwapKeepsWellBuilt(s: seq<uint8>, channels: nat, sync: nat, i: nat, k: nat)
    requires channels > 0 && i < |s| && k < |s| && SameBlock(i, k, channels)
    requires !BlockHead(i, channels) && !BlockHead(k, channels) && WellBuilt(s, channels, sync)
    ensures WellBuilt(s[i := s[k]][k := s[i]], channels, sync)
  {
    hide SameBlock;
    hide BlockHead;
    SwapKeepsNoRepeats(s, channels, i, k);
    hide NoRepeats;
  }

  lemma OtherInBlock(a: nat, b: nat, channels: nat, i: nat, k: nat)
    requires channels > 0 && SameBlock(i, k, channels) && SameBlock(a, b, channels)
    ensures SameBlock(Other(a, i, k), Other(b, i, k), channels)
    ensures a != b ==> Other(a, i, k) != Other(b, i, k)
  {
  }

  lemma SwapKeepsNoRepeats(s: seq<uint8>, channels: nat, i: nat, k: nat)
    requires channels > 0 && i < |s| && k < |s| && SameBlock(i, k, channels) && NoRepeats(s, channels)
    ensures NoRepeats(s[i := s[k]][k := s[i]], channels)
  {
    hide SameBlock;
    var t := s[i := s[k]][k := s[i]];
    forall a: nat, b: nat | a < b < |t| && SameBlock(a, b, channels)
      ensures t[a] != t[b]
    {
      OtherInBlock(a, b, channels, i, k);
      OtherInBlock(b, a, channels, i, k) by {
        SameBlockSymmetric(a, b, channels);
      }
      var a', b' := Other(a, i, k), Other(b, i, k);
      assert t[a] == s[a'] && t[b] == s[b'];
    }
  }

  lemma SameBlockSymmetric(a: nat, b: nat, channels: nat)
    requires channels > 0 && SameBlock(a, b, channels)
    ensures SameBlock(b, a, channels)
  {
  }

  function Other(a: nat, i: nat, k: nat): nat {
    if a == i then k else if a == k then i else a
  }

  lemma PartnerInBlock(i: nat, channels: nat, place: nat, count: nat)
    requires 0 < place < channels && i < count && count % channels == 0
    ensures BlockStart(i, channels) + place < count
    ensures SameBlock(i, BlockStart(i, channels) + place, channels)
    ensures !BlockHead(BlockStart(i, channels) + place, channels)
  {
    Quotients.QuotientUnique(channels * (i / channels) + place, channels, i / channels, place);
    assert i == channels * (i / channels) + i % channels && count == channels * (count / channels);
    BlockFits(i / channels, count / channels, channels, i % channels);
  }

  lemma BlockFits(block: int, blocks: int, channels: int, place: int)
    requires 0 <= place < channels && channels * block + place < channels * blocks
    ensures channels * block + channels <= channels * blocks
  {
    if block >= blocks {
      Quotients.MulMonotone(blocks, block, channels);
      assert false;
    }
    Quotients.MulMonotone(block + 1, blocks, channels);
    assert channels * (block + 1) == channels * block + channels;
  }

  lemma WholeBlocks(channels: nat)
    requires 0 < channels <= SEQUENCE_LENGTH
    ensures 0 < SEQUENCE_LENGTH / channels * channels <= SEQUENCE_LENGTH
    ensures SEQUENCE_LENGTH / channels * channels % channels == 0
    ensures SEQUENCE_LENGTH / channels * channels > SEQUENCE_LENGTH / 2
  {
    var blocks := SEQUENCE_LENGTH / channels;
    Quotients.FloorBound(SEQUENCE_LENGTH, channels);
    Quotients.QuotientUnique(blocks * channels, channels, blocks, 0);
    if blocks <= 0 {
      Quotients.MulMonotone(blocks, 0, channels);
      assert false;
    }
    Quotients.MulMonotone(1, blocks, channels);
  }

  // ----- the table as a function of the seed -----

  datatype Shuffling = Shuffling(table: seq<uint8>, seed: uint32)

  function Swapped(s: seq<uint8>, i: nat, k: nat): (t: seq<uint8>)
    ensures |t| == |s|
  {
    if i < |s| && k < |s| then s[i := s[k]][k := s[i]] else s
  }

  /** The table and the generator after the first `n` entries have been shuffled. */
  function Shuffled(start: Shuffling, channels: nat, n: nat): (r: Shuffling)
    requires channels > 0
    ensures |r.table| == |start.table|
  {
    if n == 0 then start
    else
      var before, i := Shuffled(start, channels, n - 1), n - 1;
      if i % channels == 0 then before
      else
        Shuffling(Swapped(before.table, i, BlockStart(i, channels) + Partner(before.seed, channels)), NextSeed(before.seed))
  }

  /** The place in its block an entry trades with. */
  function Partner(seed: uint32, channels: nat): nat {
    if channels > 1 then Drawn(seed, channels - 1) + 1 else 0
  }

  function Unshuffled(channels: nat, sync: uint8): (s: seq<uint8>)
    requires 0 < sync < channels <= SEQUENCE_LENGTH
  {
    seq(SEQUENCE_LENGTH / channels * channels, i requires 0 <= i => InitialChannel(i, channels, sync))
  }

  /** The hop table that both ends build from the binding's seed. */
  function Table(seed: uint32, channels: nat, sync: uint8): seq<uint8>
    requires 0 < sync < channels <= SEQUENCE_LENGTH
  {
    var start := Unshuffled(channels, sync);
    Shuffled(Shuffling(start, seed), channels, |start|).table
  }

  /** What the shuffle starts from: blocks that count up, but for the head and the sync channel's place, which trade. */
  lemma StartCountsUp(channels: nat, sync: uint8, i: nat)
    requires 0 < sync < channels <= 256 && i < |Unshuffled(channels, sync)|
    ensures Unshuffled(channels, sync)[i] == i % channels <==> i % channels != 0 && i % channels != sync
    ensures i % channels == sync ==> Unshuffled(channels, sync)[i] == 0
    ensures |Unshuffled(channels, sync)| == 256 - 256 % channels
  {
    WholeBlocks(channels);
  }

  lemma {:induction false} ShuffledIsWellBuilt(start: Shuffling, channels: nat, sync: nat, n: nat)
    requires channels > 0 && |start.table| % channels == 0 && WellBuilt(start.table, channels, sync)
    requires n <= |start.table|
    ensures WellBuilt(Shuffled(start, channels, n).table, channels, sync)
  {
    hide WellBuilt, Swapped, BlockStart, Partner;
    if n > 0 {
      ShuffledIsWellBuilt(start, channels, sync, n - 1);
      var before, i := Shuffled(start, channels, n - 1), n - 1;
      if i % channels != 0 {
        PartnerFits(i, before.seed, channels);
        assert !BlockHead(i, channels);
        SwapInBlock(before.table, channels, sync, i, Partner(before.seed, channels));
      }
    }
  }

  lemma PartnerFits(i: nat, seed: uint32, channels: nat)
    requires channels > 0 && i % channels != 0
    ensures 0 < Partner(seed, channels) < channels
  {
  }

  lemma SwapInBlock(s: seq<uint8>, channels: nat, sync: nat, i: nat, place: nat)
    requires channels > 0 && i < |s| && |s| % channels == 0 && 0 < place < channels
    requires !BlockHead(i, channels) && WellBuilt(s, channels, sync)
    ensures BlockStart(i, channels) + place < |s|
    ensures WellBuilt(Swapped(s, i, BlockStart(i, channels) + place), channels, sync)
  {
    hide BlockStart, SameBlock, BlockHead, WellBuilt;
    PartnerInBlock(i, channels, place, |s|);
    SwapKeepsWellBuilt(s, channels, sync, i, BlockStart(i, channels) + place);
  }

  /** Whatever the seed, the table is whole blocks, each well built. */
  lemma TableIsWellBuilt(seed: uint32, channels: nat, sync: uint8)
    requires 0 < sync < channels <= SEQUENCE_LENGTH
    ensures WellBuilt(Table(seed, channels, sync), channels, sync)
    ensures |Table(seed, channels, sync)| % channels == 0
    ensures SEQUENCE_LENGTH / 2 < |Table(seed, channels, sync)| <= SEQUENCE_LENGTH
  {
    var start := Unshuffled(channels, sync);
    WholeBlocks(channels);
    InitialIsWellBuilt(start, channels, sync);
    ShuffledIsWellBuilt(Shuffling(start, seed), channels, sync, |start|);
  }

  /** The same seed, channels and sync channel build the same table in place, whatever was there. */
  method BuildSequence(seed: uint32, channels: nat, sync: uint8, sequence: array<uint8>) returns (count: nat)
    requires sequence.Length == SEQUENCE_LENGTH && 0 < sync < channels <= SEQUENCE_LENGTH
    modifies sequence
    ensures count == |Table(seed, channels, sync)| <= SEQUENCE_LENGTH
    ensures sequence[..count] == Table(seed, channels, sync)
  {
    WholeBlocks(channels);
    count := SEQUENCE_LENGTH / channels * channels;
    var rng := new Random(seed);
    var i := 0;
    while i < count
      invariant 0 <= i <= count && rng.seed == seed
      invariant forall j :: 0 <= j < i ==> sequence[j] == InitialChannel(j, channels, sync)
    {
      if i % channels == 0 {
        sequence[i] := sync;
      } else if i % channels == sync {
        sequence[i] := 0;
      } else {
        sequence[i] := i % channels;
      }
      i := i + 1;
    }
    ghost var start := Shuffling(Unshuffled(channels, sync), seed);
    assert sequence[..count] == start.table;
    hide Unshuffled;
    ShuffleAll(rng, start, channels, sequence, count);
  }

  method ShuffleAll(rng: Random, ghost start: Shuffling, channels: nat, sequence: array<uint8>, count: nat)
    requires 1 < channels <= SEQUENCE_LENGTH && count <= sequence.Length && count % channels == 0
    requires start == Shuffling(sequence[..count], rng.seed)
    modifies rng, sequence
    ensures sequence[..count] == Shuffled(start, channels, count).table
  {
    var i := 0;
    hide Drawn, Swapped, BlockStart;
    while i < count
      invariant 0 <= i <= count
      invariant Shuffling(sequence[..count], rng.seed) == Shuffled(start, channels, i)
    {
      if i % channels != 0 {
        var r := rng.RngN(channels - 1);
        Trade(sequence, count, channels, i, r + 1);
      }
      i := i + 1;
    }
  }

  /** Trades an entry with the one at a place of its block, never the head. */
  method Trade(sequence: array<uint8>, ghost count: nat, channels: nat, i: nat, place: nat)
    requires count <= sequence.Length && i < count && channels > 0 && count % channels == 0 && 0 < place < channels
    modifies sequence
    ensures sequence[..count] == Swapped(old(sequence[..count]), i, BlockStart(i, channels) + place)
  {
    PartnerInBlock(i, channels, place, count);
    var k := BlockStart(i, channels) + place;
    hide BlockStart;
    var temp := sequence[i];
    sequence[i] := sequence[k];
    sequence[k] := temp;
  }

  /** With two bands in use, the shorter table's length is used of both: what is left of the longer is well built too. */
  lemma PrefixIsWellBuilt(s: seq<uint8>, channels: nat, sync: nat, count: nat)
    requires channels > 0 && WellBuilt(s, channels, sync) && count <= |s|
    ensures WellBuilt(s[..count], channels, sync)
  {
    hide SameBlock, BlockHead;
  }

  // ----- back from the table to the seed -----

  /** The seed before: the multiplier's inverse modulo 2^31 is 968044885. */
  function PrevSeed(seed: nat): uint32 {
    968044885 * (seed + 0x8000_0000 - 2531011) % 0x8000_0000
  }

  lemma NextSeedMod(seed: uint32)
    ensures NextSeed(seed) == (214013 * seed + 2531011) % 0x8000_0000
  {
    var n := 214013 * seed + 2531011;
    Quotients.ShiftByMultiple(U32(n), 0x8000_0000, 2 * (n / 0x1_0000_0000));
  }

  /** The generator runs through all its seeds: each follows just one, and can be stepped back from. */
  lemma SeedStepsBack(seed: uint32)
    ensures PrevSeed(NextSeed(seed)) == seed % 0x8000_0000
    ensures NextSeed(PrevSeed(seed)) == seed % 0x8000_0000
  {
    NextSeedMod(seed);
    var n := 214013 * seed + 2531011;
    StepsBack(n, seed, n / 0x8000_0000);
    NextSeedMod(PrevSeed(seed));
    var m := 968044885 * (seed + 0x8000_0000 - 2531011);
    StepsForward(m, seed, m / 0x8000_0000);
  }

  lemma StepsBack(n: nat, seed: nat, q: int)
    requires n == 214013 * seed + 2531011 && q == n / 0x8000_0000
    ensures 968044885 * (n % 0x8000_0000 + 0x8000_0000 - 2531011) % 0x8000_0000 == seed % 0x8000_0000
  {
    var r := n % 0x8000_0000;
    assert r == n - 0x8000_0000 * q;
    assert 968044885 * (r + 0x8000_0000 - 2531011) == seed + 0x8000_0000 * (96473 * seed + 968044885 - 968044885 * q);
    Quotients.ShiftByMultiple(seed, 0x8000_0000, 96473 * seed + 968044885 - 968044885 * q);
  }

  lemma StepsForward(m: nat, seed: nat, q: int)
    requires m == 968044885 * (seed + 0x8000_0000 - 2531011) && q == m / 0x8000_0000
    ensures (214013 * (m % 0x8000_0000) + 2531011) % 0x8000_0000 == seed % 0x8000_0000
  {
    var r := m % 0x8000_0000;
    assert r == m - 0x8000_0000 * q;
    var k := 96473 * (seed + 0x8000_0000 - 2531011) + 1 - 214013 * q;
    assert 214013 * r + 2531011 == seed + 0x8000_0000 * k;
    Quotients.ShiftByMultiple(seed, 0x8000_0000, k);
  }

  /** Every number below the bound is drawn, from the seed before one whose upper half is that number. */
  lemma EveryNumberIsDrawn(r: nat, max: nat)
    requires r < max <= 0x8000
    ensures Drawn(PrevSeed(r * 0x1_0000), max) == r
  {
    hide NextSeed, PrevSeed;
    SeedStepsBack(r * 0x1_0000);
    Quotients.QuotientUnique(r, max, 0, r);
  }

  /** The same table, and seeds that agree but for the top bit. */
  predicate Alike(a: Shuffling, b: Shuffling) {
    a.table == b.table && a.seed % 0x8000_0000 == b.seed % 0x8000_0000
  }

  /** The seed's top bit makes no difference to the table. */
  lemma {:induction false} TopBitMakesNoDifference(a: Shuffling, b: Shuffling, channels: nat, n: nat)
    requires channels > 0 && Alike(a, b)
    ensures Alike(Shuffled(a, channels, n), Shuffled(b, channels, n))
  {
    if n > 0 {
      TopBitMakesNoDifference(a, b, channels, n - 1);
      var v, w := Shuffled(a, channels, n - 1), Shuffled(b, channels, n - 1);
      SameNext(v.seed, w.seed, channels);
      hide NextSeed, Swapped, BlockStart, Partner;
    }
  }

  lemma SameNext(a: uint32, b: uint32, channels: nat)
    requires a % 0x8000_0000 == b % 0x8000_0000
    ensures NextSeed(a) == NextSeed(b) && Partner(a, channels) == Partner(b, channels)
  {
    hide NextSeed;
    NextSeedMod(a);
    NextSeedMod(b);
    var k := a / 0x8000_0000 - b / 0x8000_0000;
    assert 214013 * a + 2531011 == 214013 * b + 2531011 + 0x8000_0000 * (214013 * k);
    Quotients.ShiftByMultiple(214013 * b + 2531011, 0x8000_0000, 214013 * k);
  }

  /** Entry `i` back from the place of its block that the seed before names. */
  function TradedBack(r: Shuffling, channels: nat, i: nat): Shuffling
    requires channels > 1
  {
    Shuffling(Swapped(r.table, i, BlockStart(i, channels) + 1 + Drawn(PrevSeed(r.seed), channels - 1)), PrevSeed(r.seed))
  }

  /** Trades undone from the last back, the seeds stepped back through. */
  function Undone(r: Shuffling, channels: nat, n: nat): Shuffling
    requires channels > 1
    decreases n
  {
    if n == 0 then r
    else Undone(if (n - 1) % channels == 0 then r else TradedBack(r, channels, n - 1), channels, n - 1)
  }

  /** Table and generator tell what they came from: the shuffle is undone by its own trades in reverse. */
  lemma {:induction false} ShuffleCanBeUndone(start: Shuffling, channels: nat, n: nat)
    requires channels > 1 && start.seed < 0x8000_0000
    ensures Undone(Shuffled(start, channels, n), channels, n) == start
  {
    if n > 0 {
      ShuffleCanBeUndone(start, channels, n - 1);
      hide Undone, Swapped, NextSeed, Partner, BlockStart;
      if (n - 1) % channels != 0 {
        SeedStaysSmall(start, channels, n - 1);
        TradeUndone(Shuffled(start, channels, n - 1), channels, n);
      } else {
        NoTradeUndone(Shuffled(start, channels, n - 1), channels, n);
      }
    }
  }

  lemma NoTradeUndone(r: Shuffling, channels: nat, n: nat)
    requires channels > 1 && n > 0 && (n - 1) % channels == 0
    ensures Undone(r, channels, n) == Undone(r, channels, n - 1)
  {
    hide Swapped, Drawn, PrevSeed;
  }

  lemma TradeUndone(before: Shuffling, channels: nat, n: nat)
    requires channels > 1 && n > 0 && (n - 1) % channels != 0 && before.seed < 0x8000_0000
    ensures var k := BlockStart(n - 1, channels) + Partner(before.seed, channels);
            Undone(Shuffling(Swapped(before.table, n - 1, k), NextSeed(before.seed)), channels, n) == Undone(before, channels, n - 1)
  {
    hide Drawn, NextSeed, PrevSeed, Swapped;
    SeedStepsBack(before.seed);
    SwappedTwice(before.table, n - 1, BlockStart(n - 1, channels) + Partner(before.seed, channels));
  }

  lemma SwappedTwice(s: seq<uint8>, i: nat, k: nat)
    ensures Swapped(Swapped(s, i, k), i, k) == s
  {
  }

  lemma SeedStaysSmall(start: Shuffling, channels: nat, n: nat)
    requires channels > 0 && start.seed < 0x8000_0000
    ensures Shuffled(start, channels, n).seed < 0x8000_0000
  {
    if n > 0 {
      SeedStaysSmall(start, channels, n - 1);
    }
  }

  // ----- what a well-built sequence visits -----

  ghost function ChannelsIn(s: seq<uint8>, from: nat, n: nat): set<int>
    requires from + n <= |s|
  {
    set i | from <= i < from + n :: s[i]
  }

  lemma PlacesShareBlock(channels: nat, from: nat, place1: nat, place2: nat)
    requires place1 < channels && place2 < channels && BlockHead(from, channels)
    ensures SameBlock(from + place1, from + place2, channels)
  {
    Quotients.QuotientUnique(from + place1, channels, from / channels, place1);
    Quotients.QuotientUnique(from + place2, channels, from / channels, place2);
  }

  lemma OneMoreChannel(s: seq<uint8>, from: nat, n: nat)
    requires 0 < n && from + n <= |s|
    ensures ChannelsIn(s, from, n) == ChannelsIn(s, from, n - 1) + {s[from + n - 1]}
  {
  }

  lemma ChannelIsNew(s: seq<uint8>, channels: nat, from: nat, n: nat)
    requires channels > 0 && NoRepeats(s, channels) && 0 < n <= channels && BlockHead(from, channels) && from + n <= |s|
    ensures s[from + n - 1] !in ChannelsIn(s, from, n - 1)
  {
    hide BlockHead, SameBlock;
    forall i | from <= i < from + n - 1
      ensures s[i] != s[from + n - 1]
    {
      PlacesShareBlock(channels, from, i - from, n - 1);
    }
  }

  lemma {:induction false} DistinctChannels(s: seq<uint8>, channels: nat, from: nat, n: nat)
    requires channels > 0 && NoRepeats(s, channels) && n <= channels && BlockHead(from, channels) && from + n <= |s|
    ensures |ChannelsIn(s, from, n)| == n
  {
    if n > 0 {
      hide BlockHead, NoRepeats, ChannelsIn;
      DistinctChannels(s, channels, from, n - 1);
      OneMoreChannel(s, from, n);
      ChannelIsNew(s, channels, from, n);
    }
  }

  ghost function AllChannels(channels: nat): (all: set<int>)
    ensures forall c :: c in all <==> 0 <= c < channels
    ensures |all| == channels
  {
    if channels == 0 then {} else AllChannels(channels - 1) + {channels - 1}
  }

  lemma FullSubset<T>(a: set<T>, b: set<T>)
    requires a <= b && |a| == |b|
    ensures a == b
  {
    if a != b {
      var extra :| extra in b && extra !in a;
      assert a <= b - {extra};
      SubsetSize(a, b - {extra});
      assert false;
    }
  }

  lemma {:induction false} SubsetSize<T>(a: set<T>, b: set<T>)
    requires a <= b
    ensures |a| <= |b|
  {
    if a != {} {
      var x :| x in a;
      SubsetSize(a - {x}, b - {x});
    }
  }

  /** Every block visits every channel exactly once. */
  lemma BlockVisitsEveryChannel(s: seq<uint8>, channels: nat, sync: nat, from: nat, channel: uint8)
    requires channels > 0 && WellBuilt(s, channels, sync) && channel < channels
    requires BlockHead(from, channels) && from + channels <= |s|
    ensures exists i :: from <= i < from + channels && s[i] == channel
                        && forall j :: from <= j < from + channels && s[j] == channel ==> j == i
  {
    hide SameBlock, BlockHead, ChannelsIn, NoRepeats;
    var visited := ChannelsIn(s, from, channels);
    DistinctChannels(s, channels, from, channels);
    VisitedAreChannels(s, channels, sync, from);
    FullSubset(visited, AllChannels(channels));
    var i := Visit(s, from, channels, channel);
    forall j | from <= j < from + channels && s[j] == channel
      ensures j == i
    {
      VisitedOnce(s, channels, from, i, j);
    }
  }

  lemma VisitedAreChannels(s: seq<uint8>, channels: nat, sync: nat, from: nat)
    requires channels > 0 && WellBuilt(s, channels, sync) && from + channels <= |s|
    ensures ChannelsIn(s, from, channels) <= AllChannels(channels)
  {
  }

  lemma Visit(s: seq<uint8>, from: nat, n: nat, channel: uint8) returns (i: nat)
    requires from + n <= |s| && channel in ChannelsIn(s, from, n)
    ensures from <= i < from + n && s[i] == channel
  {
    i :| from <= i < from + n && s[i] == channel;
  }

  lemma VisitedOnce(s: seq<uint8>, channels: nat, from: nat, i: nat, j: nat)
    requires channels > 0 && NoRepeats(s, channels) && BlockHead(from, channels) && from + channels <= |s|
    requires from <= i < from + channels && from <= j < from + channels && s[i] == s[j]
    ensures i == j
  {
    hide SameBlock, BlockHead;
    PlacesShareBlock(channels, from, i - from, j - from);
    PlacesShareBlock(channels, from, j - from, i - from);
  }
}
