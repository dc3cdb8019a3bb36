/** The optional value and the outcome-or-error of the source's `Option`
    and `Result<_, String>`. */
module Wrappers {
  datatype Option<T> = None | Some(value: T)

  datatype Result<T> = Ok(value: T) | Err(error: string)
}
