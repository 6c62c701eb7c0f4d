/** Small failure-carrying datatypes shared by the widget models. */
module Basics {

  /** Rust's `Option<T>`. */
  datatype Option<+T> = None | Some(value: T)

  /** The outcome of a computation that calls `unwrap()` on a layout child:
      either it produced a value, or a child was missing and the code panics. */
  datatype Unwrapped<+T> = Ok(value: T) | Panic
}
