/** The optional value of the Rust source (`Option<T>`). */
module Wrappers {

  datatype Option<+T> = None | Some(value: T)
}
