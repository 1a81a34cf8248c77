/** The failure-carrying datatypes shared by the whole model. */
module Wrappers {

  /** A nullable column or an optional setting. */
  datatype Option<+T> = None | Some(value: T)

  /** The outcome of a fallible operation. */
  datatype Result<+T> = Ok(value: T) | Err(message: string)
}
