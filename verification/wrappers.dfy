/**
 The failure-carrying datatypes shared by the whole model.

 - `Option<T>` stands for Rust's `Option<T>`.
 - `Result<T, E>` stands for Rust's `Result<T, E>`.
 - `Outcome<T>` is what a Rust computation that may panic (an `unwrap` on
   `None`/`Err`, an out-of-range slice, a division by zero) ends with: either
   the value it returns or the panic that ends the program.
 */
module Wrappers {

  datatype Option<+T> = None | Some(value: T) {

    /** Returns the value held in `Some`, or `default` for `None`. */
    function GetOr(default: T): T {
      match this
      case Some(v) => v
      case None => default
    }
  }

  datatype Result<+T, +E> = Ok(value: T) | Err(error: E)

  datatype Outcome<+T> = Done(value: T) | Panic(reason: string)
}
