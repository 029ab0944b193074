/** A result that may be missing. Here it always means: no result, because an assertion would fail. */
module Wrappers {
  datatype Option<T> = None | Some(value: T)
}
