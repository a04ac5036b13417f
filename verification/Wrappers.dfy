// Result types shared by the components: Go's (value, error) pairs and
// pointers that may be nil.
module Wrappers {

  datatype Option<+T> = None | Some(value: T)

  datatype Result<+T, +E> = Ok(value: T) | Err(error: E)
}
