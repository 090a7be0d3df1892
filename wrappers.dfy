/** Rust's `Option`, used for absent positions, initialisers, bodies and argument lists. */
module Wrappers {

  datatype Option<+T> = None | Some(value: T)
}
