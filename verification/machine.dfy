/** Fixed-width integer types of the profiler's C++ headers, and the nullable-value wrapper.

- `U64` is the `u64` of the headers (counters, hashes, 64-bit addresses).
- `I32` is C `int`, `I64` is C `long` on an LP64 platform.
- `Option` stands for a pointer that may be NULL.
 */
module Machine {

  newtype U64 = x: int | 0 <= x < 0x1_0000_0000_0000_0000

  newtype I32 = x: int | -0x8000_0000 <= x < 0x8000_0000

  newtype I64 = x: int | -0x8000_0000_0000_0000 <= x < 0x8000_0000_0000_0000

  /** All bits set: the value of `(const void*)-1` on a 64-bit platform. */
  const U64_MAX: U64 := 0xFFFF_FFFF_FFFF_FFFF

  /** A code address; pointers are 64 bits wide in this model. */
  type Address = U64

  /** A pointer that is either NULL (`None`) or points at a value (`Some`). */
  datatype Option<+T> = None | Some(value: T)
}
