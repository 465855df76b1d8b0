/** Rust's `Option<T>`, used for thread handles and for the optional response of an event. */
module Wrappers {

  datatype Option<+T> = None | Some(value: T)

}
