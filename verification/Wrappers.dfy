/** The two failure-carrying types the models share. */
module Wrappers {

  datatype Option<+T> = None | Some(value: T)

  /** A Rust `Result` whose error text is not part of the model. */
  datatype Result<+T> = Ok(value: T) | Err
}
