/** The usual Option and Result datatypes: an absent value (a C# null) and an
    operation that either produces a value or raises an exception. */
module Wrappers {

  datatype Option<+T> = None | Some(value: T)

  datatype Result<+T, +E> = Ok(value: T) | Err(error: E)
}
