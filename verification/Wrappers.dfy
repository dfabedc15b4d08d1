/** Result types shared by the whole model. */
module Wrappers {

  datatype Option<+T> = None | Some(value: T)

  /** The source's `Result`, without the text of the error. */
  datatype Result<+T> = Ok(value: T) | Err
}
