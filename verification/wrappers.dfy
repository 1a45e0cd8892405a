/** Failure-carrying values: `None`/`Some` for a lookup that may miss, and
    `Ok`/`Err` for an operation that either returns or raises. */
module Wrappers {

  datatype Option<+T> = None | Some(value: T)

  datatype Result<+T, +E> = Ok(value: T) | Err(error: E)
}
