/** Failure-carrying results shared by the model's modules. */
module Wrappers {

  datatype Option<+T> = None | Some(value: T)

  /** The Python exceptions the modelled code can raise. */
  datatype Exception = ValueError | IndexError

  datatype Result<+T> = Ok(value: T) | Raise(error: Exception)
}
