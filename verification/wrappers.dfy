/** Optional and fallible values, and the machine bounds the modules share. */
module Wrappers {
  datatype Option<+T> = None | Some(value: T)

  datatype Result<+T, +E> = Ok(value: T) | Err(error: E)

  /** The largest `u64`; `usize` has the same bound on the 64-bit targets the runner ships for. */
  const U64_MAX: nat := 0xFFFF_FFFF_FFFF_FFFF
  const USIZE_MAX: nat := U64_MAX

  /** `saturating_add(1)` on a `u64` or `usize`. */
  function SaturatingIncrement(n: nat): (r: nat)
    ensures n < U64_MAX ==> r == n + 1
    ensures n >= U64_MAX ==> r == U64_MAX
  {
    if n < U64_MAX then n + 1 else U64_MAX
  }

  /** `saturating_sub(1)`. */
  function SaturatingDecrement(n: nat): nat {
    if n == 0 then 0 else n - 1
  }
}
