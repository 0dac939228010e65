/** Shared vocabulary: optional values, results, and Go's 64-bit integers. */
module Prelude {

  datatype Option<+T> = None | Some(value: T)

  datatype Result<+T, +E> = Ok(value: T) | Err(error: E)

  const MAX_INT64: int := 0x7FFF_FFFF_FFFF_FFFF
  const MIN_INT64: int := -0x8000_0000_0000_0000
  const TWO_TO_THE_64: int := 0x1_0000_0000_0000_0000

  // A time.Duration counts nanoseconds in an int64.
  const SECOND: int := 1_000_000_000
  const RETRY_AFTER_CAP: int := 60 * SECOND
  const DEFAULT_BASE_DELAY: int := SECOND
  const DEFAULT_MAX_ATTEMPTS: int := 3
  const DEFAULT_MAX_BODY_BYTES: int := 10485760

  type Int64 = x: int | MIN_INT64 <= x <= MAX_INT64

  /** The int64 that holds x after two's-complement wrap-around. */
  function WrapInt64(x: int): (w: Int64)
    ensures (x - w) % TWO_TO_THE_64 == 0
    ensures MIN_INT64 <= x <= MAX_INT64 ==> w == x
  {
    var m := x % TWO_TO_THE_64;
    if m > MAX_INT64 then m - TWO_TO_THE_64 else m
  }

  function Min(a: int, b: int): int {
    if a < b then a else b
  }

  function Max(a: int, b: int): int {
    if a < b then b else a
  }
}
