/** Optional values and error-carrying results shared by the whole model. */
module Wrappers {

  datatype Option<+T> = None | Some(value: T)

  /** The source reports every failure as a plain `Error` carrying a message,
      so the error side of a result is just that message. */
  datatype Result<+T> = Ok(value: T) | Err(message: string)
}
