/** Wrappers for Java null and exceptions, shared by all modules: `Option` stands for a
    Java reference that may be null, `Outcome` for a `void` call that may
    throw, `Result` for a value-returning call that may throw. */
module Wrappers {

  datatype Option<+T> = None | Some(value: T)

  datatype Outcome<+E> = Pass | Fail(error: E)

  datatype Result<+T, +E> = Ok(value: T) | Err(error: E)
}
