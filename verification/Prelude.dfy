/** Types shared by every component of the model. */
module Prelude {

  datatype Option<+T> = None | Some(value: T)

  datatype Result<+T, +E> = Ok(value: T) | Err(error: E)

  /** One more than the largest `u64` and `usize` on the x86_64 target. */
  const TWO_64: nat := 0x1_0000_0000_0000_0000

  /** `saturating_add` on 64-bit numbers. */
  function SaturatingAdd64(a: nat, b: nat): nat {
    if a + b >= TWO_64 then TWO_64 - 1 else a + b
  }

  /** `saturating_sub`. */
  function SaturatingSub(a: nat, b: nat): nat {
    if a < b then 0 else a - b
  }

  type byte = n: nat | n < 256

  type ProcessId = nat
  type ThreadId = nat
}
