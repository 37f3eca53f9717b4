/** Option and Result, the two failure-carrying types the model needs
    (`Option<Ordering>` from `partial_cmp`, `Result<GenRef, IncorrectMutability>`
    from `try_from`). */
module Wrappers {

  datatype Option<+T> = None | Some(value: T)

  datatype Result<+R, +E> = Ok(value: R) | Err(error: E)
}
