/** Shared vocabulary: option and result types, 64-bit machine integers, and time. */
module Base {

  datatype Option<+T> = None | Some(value: T) {
    function GetOr(default: T): T {
      match this
      case None => default
      case Some(v) => v
    }
  }

  datatype Result<+T, +E> = Ok(value: T) | Err(error: E)

  const MIN64: int := -0x8000_0000_0000_0000
  const MAX64: int := 0x7FFF_FFFF_FFFF_FFFF

  /** Go's int and time.Duration on a 64-bit platform. */
  type Int64 = x: int | -0x8000_0000_0000_0000 <= x <= 0x7FFF_FFFF_FFFF_FFFF

  /** The int64 that two's complement arithmetic keeps of an exact result. */
  function Wrap64(x: int): Int64 {
    (x + 0x8000_0000_0000_0000) % 0x1_0000_0000_0000_0000 - 0x8000_0000_0000_0000
  }

  /** Nanoseconds, as time.Duration counts them. */
  type Duration = Int64

  /** Nanoseconds since 1970-01-01T00:00:00Z. */
  type Instant = int

  /** The largest of two numbers. */
  function Max(a: int, b: int): int {
    if a < b then b else a
  }
}
