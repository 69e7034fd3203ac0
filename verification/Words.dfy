/** Fixed-width unsigned words of the firmware and its millisecond clock. */
module Words {
  type int8 = n: int | -0x80 <= n < 0x80
  type int32 = n: int | -0x8000_0000 <= n < 0x8000_0000
  type uint8 = n: int | 0 <= n < 0x100
  type uint32 = n: int | 0 <= n < 0x1_0000_0000

  datatype Option<+T> = None | Some(value: T)

  function Max(a: int, b: int): int {
    if a < b then b else a
  }

  function Min(a: int, b: int): int {
    if a < b then a else b
  }

  /** Truncation on assignment to a `uint8_t`. */
  function U8(n: int): uint8 {
    n % 0x100
  }

  /** Truncation on assignment to a `uint32_t`. */
  function U32(n: int): uint32 {
    n % 0x1_0000_0000
  }

  /** Truncation on assignment to an `int8_t`. */
  function S8(n: int): int8 {
    (n + 0x80) % 0x100 - 0x80
  }

  /** C's quotient, rounded towards zero. */
  function Truncated(n: int, d: int): int
    requires d > 0
  {
    if n >= 0 then n / d else -((-n) / d)
  }

  /** `now - then` on two `uint32_t` millisecond stamps, which wraps every 49.7 days. */
  function Elapsed(now: uint32, then_: uint32): uint32 {
    U32(now - then_)
  }

  /** `millis()` at absolute time `us`, in microseconds since power-up. */
  function Millis(us: nat): uint32 {
    U32(us / 1000)
  }

  /** The wrapping difference of two stamps is the true difference while that is under 2^32. */
  lemma ElapsedIsTrueDifference(laterMs: nat, earlierMs: nat)
    requires earlierMs <= laterMs
    requires laterMs - earlierMs < 0x1_0000_0000
    ensures Elapsed(U32(laterMs), U32(earlierMs)) == laterMs - earlierMs
  {
  }
}
