/** Option and Result values for the places where the pages use `undefined`
    or report an error instead of acting. */
module Wrappers {

  datatype Option<+T> = None | Some(value: T)

  datatype Result<+R, +E> = Success(value: R) | Failure(error: E)
}
