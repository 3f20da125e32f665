/** Failure-carrying datatypes shared by every module of the model. */
module Wrappers {

  datatype Option<+T> = None | Some(value: T)

  /** The outcome of an operation that either yields a value or fails with a message. */
  datatype Result<+T> = Ok(value: T) | Err(message: string)
}

/** lib/output.js: the one part of console output that carries meaning for the model. */
module Output {

  /** The message carried by the error object that `throwError` throws. */
  function ThrowError(message: string): (r: string)
    ensures |r| == 8 + |message| && r[..8] == "\nERROR: " && r[8..] == message
  {
    "\nERROR: " + message
  }
}
