/** Fixed-width unsigned integers of the Rust source, and its two overflow
    behaviours: a debug build traps on overflow, a release build wraps. */
module Numbers {
  import opened Wrappers

  const U32_LIMIT: int := 0x1_0000_0000
  const U64_LIMIT: int := 0x1_0000_0000_0000_0000

  type U32 = x: int | 0 <= x < 0x1_0000_0000
  type U64 = x: int | 0 <= x < 0x1_0000_0000_0000_0000

  /** `http::StatusCode` only holds three-digit codes. */
  type StatusCode = x: int | 100 <= x <= 999 witness 200

  /** Whether integer overflow panics (debug) or wraps around (release). */
  datatype Profile = Debug | Release

  const SUB_OVERFLOW := "attempt to subtract with overflow"
  const ADD_OVERFLOW := "attempt to add with overflow"

  /** `x - 1` on a `u32`. */
  function Decrement(x: U32, p: Profile): (r: Result<U32, string>)
    ensures x > 0 ==> r == Success(x - 1)
    ensures x == 0 && p == Debug ==> r == Failure(SUB_OVERFLOW)
    ensures p == Release ==> r.Success? && r.value == (x - 1) % U32_LIMIT
  {
    if x > 0 then Success(x - 1)
    else if p == Debug then Failure(SUB_OVERFLOW)
    else Success(U32_LIMIT - 1)
  }

  /** `x + 1` on a `u32`. */
  function Increment(x: U32, p: Profile): (r: Result<U32, string>)
    ensures x < U32_LIMIT - 1 ==> r == Success(x + 1)
    ensures x == U32_LIMIT - 1 && p == Debug ==> r == Failure(ADD_OVERFLOW)
    ensures p == Release ==> r.Success? && r.value == (x + 1) % U32_LIMIT
  {
    if x < U32_LIMIT - 1 then Success(x + 1)
    else if p == Debug then Failure(ADD_OVERFLOW)
    else Success(0)
  }
}
