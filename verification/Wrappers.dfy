/** Result shapes shared by every module, and the 64-bit size type of the runtime. */
module Wrappers {
  datatype Option<+T> = None | Some(value: T)

  /** `std::numeric_limits<size_t>::max()` on the 64-bit targets the runtime is built for. */
  const SIZE_MAX: nat := 0xFFFF_FFFF_FFFF_FFFF

  type Size = n: nat | n <= SIZE_MAX
}
