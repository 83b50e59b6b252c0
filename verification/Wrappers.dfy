/** Types and functions that several components share. */
module Wrappers {

  datatype Option<+T> = None | Some(value: T)

  /** A sequence without its element i. */
  function Without<T>(xs: seq<T>, i: nat): seq<T>
    requires i < |xs|
  {
    xs[..i] + xs[i + 1..]
  }
}
