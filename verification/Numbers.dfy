/** Fixed-width integers of the C++ source, written out over Dafny's unbounded `int`. */
module Numbers {
  const TWO_63 := 0x8000_0000_0000_0000
  const TWO_64 := 0x1_0000_0000_0000_0000
  const INT64_MAX := 0x7FFF_FFFF_FFFF_FFFF
  const INT64_MIN := -0x8000_0000_0000_0000

  type u64 = x: int | 0 <= x < 0x1_0000_0000_0000_0000

  type byte = x: int | 0 <= x < 256
  type Bytes = seq<byte>

  predicate InInt64(x: int) {
    INT64_MIN <= x <= INT64_MAX
  }

  /** `static_cast<int64_t>` of an unsigned value: two's complement reinterpretation. */
  function ToInt64(x: u64): (r: int)
    ensures InInt64(r)
    ensures (r - x) % TWO_64 == 0
  {
    if x < TWO_63 then x else x - TWO_64
  }

  /** The implicit conversion of an `int64_t` that meets a `uint64_t` in a comparison. */
  function ToUint64(x: int): (r: u64)
    requires InInt64(x)
    ensures ToInt64(r) == x
  {
    if x >= 0 then x else x + TWO_64
  }

  /** Unsigned arithmetic wraps around. */
  function Wrap(x: int): u64 {
    x % TWO_64
  }

  function Min(x: int, y: int): int {
    if x <= y then x else y
  }
}
