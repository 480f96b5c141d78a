/** Types and facts that every part uses. */
module Basics {
  datatype Option<+T> = None | Some(value: T)

  /** A value, or the exception that was thrown instead. */
  datatype Outcome<+T, +E> = Ok(value: T) | Err(error: E)

  type Byte = b: int | 0 <= b < 256

  lemma CancelFactor(a: int, b: int, c: nat)
    requires a * c < b * c
    ensures a < b
  {
  }
}
