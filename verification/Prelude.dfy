/** Optional values, and the states of a fiber. */
module Prelude {
  datatype Option<+T> = None | Some(value: T)

  datatype FiberState = READY | RUNNING | TERM
}
