/** The shapes the model uses for Rust's `Option`, `Result` and `u32`. */
module Wrappers {
  datatype Option<+T> = None | Some(value: T)

  datatype Result<+T, +E> = Ok(value: T) | Err(error: E)

  const U32_MAX: int := 0xFFFF_FFFF

  type u32 = n: int | 0 <= n <= U32_MAX
}
