/** Small value types shared by the memory subsystem model. */
module Wrappers {

  /** The conventional Some/None datatype, standing for a pointer that may be NULL. */
  datatype Option<+T> = None | Some(value: T)

  /** 2^64: the number of values of `uint64_t` and, on x86-64, of `size_t`. */
  const U64_LIMIT: nat := 0x1_0000_0000_0000_0000

  /** The values of a 64-bit unsigned C integer (`uint64_t`, `size_t`). */
  type U64 = x: nat | x < 0x1_0000_0000_0000_0000

  /** Unsigned 64-bit wrap-around, as C performs it for `+` on `uint64_t` and `size_t`. */
  function Wrap64(x: nat): (r: U64)
    ensures x < U64_LIMIT ==> r == x
    ensures U64_LIMIT <= x < 2 * U64_LIMIT ==> r == x - U64_LIMIT
  {
    x % U64_LIMIT
  }
}
