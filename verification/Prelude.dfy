/** Small shared types: optional values, and the outcome of an awaited call that may throw. */
module Prelude {

  datatype Option<+T> = None | Some(value: T)

  /** What an awaited call came back with: a value, or a thrown error. */
  datatype Answer<+T> = Returned(value: T) | Threw

  function Max(a: int, b: int): int {
    if a > b then a else b
  }

  /** The sequence without its k-th element. */
  function Without<T>(s: seq<T>, k: nat): seq<T>
    requires k < |s|
  {
    s[..k] + s[k + 1..]
  }
}
