// The optional value and the success-or-exception outcome used throughout
// the model in place of Java's null and thrown exceptions.

module Wrappers {

  datatype Option<T> = None | Some(value: T)

  datatype Result<T, E> = Ok(value: T) | Err(error: E)
}
