/** Result types shared by every module, and small arithmetic helpers. */
module Prelude {

  /** A value that may be absent: the source's `X | None`. */
  datatype Option<+T> = None | Some(value: T)

  /** A value or the exception the source raises instead. */
  datatype Result<+T, +E> = Ok(value: T) | Err(error: E)

  function Min(a: int, b: int): int {
    if a <= b then a else b
  }

  function Max(a: int, b: int): int {
    if a >= b then a else b
  }

  /** 1 when the condition holds, else 0: used to count. */
  function Indicator(b: bool): int {
    if b then 1 else 0
  }
}
