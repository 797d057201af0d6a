/** Result types shared by the models: an optional value, and the outcome of an operation that may throw. */
module Wrappers {

  datatype Option<+T> = None | Some(value: T) {
    function UnwrapOr(default: T): T {
      if Some? then value else default
    }
  }

  /** `Fail` stands for a thrown error: the enclosing transaction is rolled back. */
  datatype Outcome<+T, +E> = Ok(value: T) | Fail(error: E)
}
