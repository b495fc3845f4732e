/** What several modules share: the failure-carrying datatypes and clipping of text. */
module Wrappers {
  datatype Option<+T> = None | Some(value: T)

  datatype Result<+T, +E> = Ok(value: T) | Err(error: E)

  // Python's `s[:n]`.
  function Clip(s: string, n: nat): string {
    if |s| <= n then s else s[..n]
  }
}
