/** The two wrapper types of the model: an optional value (a nullable
    column, an absent row) and a value-or-error result (the ValueError that
    the CRUD layer raises). */
module Wrappers {

  datatype Option<+T> = None | Some(value: T)

  datatype Result<+R, +E> = Success(value: R) | Failure(error: E)
}
