/** Types shared by the whole model of the badge firmware. */
module Basics {

  /** An optional value: a request parameter that may be absent, a probe that may find nothing. */
  datatype Option<T> = None | Some(value: T)

  /** One byte of a file in the on-board flash file system. */
  type byte = b: int | 0 <= b < 256

  /** Number of distinct values of an `unsigned long` on the 32-bit target. */
  const U32_MODULUS: int := 0x1_0000_0000

  /** An `unsigned long` of the target, such as a `millis()` timestamp. */
  type u32 = x: int | 0 <= x < U32_MODULUS

  /** Range of a 32-bit `long`/`int` of the target. */
  const INT32_MIN: int := -0x8000_0000
  const INT32_MAX: int := 0x7FFF_FFFF
}
