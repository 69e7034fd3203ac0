/** The hop sequence as both ends read it: a table, the part of it in use, and the sync channel. */
module Hopping {
  import opened Words
  import opened Rates

  const SEQUENCE_LENGTH := 256

  datatype Hops = Hops(interval: nat, sequence: seq<uint8>, count: nat, syncChannel: uint8) {
    predicate Valid() {
      ValidHop(interval) && |sequence| == SEQUENCE_LENGTH && 1 <= count <= SEQUENCE_LENGTH
    }

    predicate OnSyncChannel(index: uint8)
      requires Valid()
    {
      sequence[index] == syncChannel
    }

    /** `FHSSgetNextFreq` moves the index around the part of the table in use. */
    function Next(index: int): uint8
      requires Valid()
    {
      (index + 1) % count
    }

    /** `FHSSsetCurrIndex`. */
    function Set(index: int): uint8
      requires Valid()
    {
      index % count
    }

    predicate LastOfDwell(nonce: int)
      requires Valid()
    {
      (nonce + 1) % interval == 0
    }

    predicate FirstOfDwell(nonce: int)
      requires Valid()
    {
      nonce % interval == 0
    }
  }
}
