/** Types shared by every component: failure-carrying results and the C
    integer widths the source relies on. */
module Common {

  datatype Option<T> = None | Some(value: T)

  /** The outcome of an operation that the source aborts with `fatal`,
      `internal_error` or a failed `assert`: `Err` carries the message the
      source prints before exiting. */
  datatype Result<T> = Ok(value: T) | Err(msg: string)

  const U64_LIMIT: int := 0x1_0000_0000_0000_0000
  const S64_MIN: int := -0x8000_0000_0000_0000
  const S64_MAX: int := 0x7FFF_FFFF_FFFF_FFFF
  const INT_MAX: int := 0x7FFF_FFFF

  type u64 = x: int | 0 <= x < U64_LIMIT
  type s64 = x: int | S64_MIN <= x <= S64_MAX

  /** The two's-complement reading of a u64 as s64, as the cast `(s64) x`
      behaves on the targets the source is built for. */
  function ToS64(x: u64): (r: s64)
    ensures r % U64_LIMIT == x                 // same bit pattern
    ensures x <= S64_MAX ==> r == x
  {
    if x <= S64_MAX then x else x - U64_LIMIT
  }
}
