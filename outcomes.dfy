/** The failure-carrying datatypes shared by the whole model: an exception of the
    Python program becomes an `Err`, a value that may be `None` an `Option`. */
module Outcomes {

  datatype Option<+T> = None | Some(value: T)

  datatype Result<+T, +E> = Ok(value: T) | Err(error: E)
}
