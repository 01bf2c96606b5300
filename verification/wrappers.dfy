/**
 A value that may be absent: Python's `None` for a client that could not be
 set up, and the outcome of looking up a dictionary key that may be missing.
 */
module Wrappers {

  datatype Option<T> = None | Some(value: T)

  /** The found value, or `fallback` when nothing was found: the second argument of `dict.get`. */
  function ValueOr<T>(found: Option<T>, fallback: T): T {
    if found.Some? then found.value else fallback
  }
}
