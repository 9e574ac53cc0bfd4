/** Failure-carrying values shared by the model: a value that may be absent,
    and the outcome of a call that may raise. */
module Wrappers {

  datatype Option<+T> = None | Some(value: T)

  /** What a call that may raise an exception yields: its value, or the
      text of the exception (what `str(e)` prints). */
  datatype Result<+T> = Success(value: T) | Failure(error: string)

  /** How a call to the chat platform that sends or edits a message ended:
      delivered, or raised with a message. */
  datatype Delivery = Delivered | Raised(error: string)
}
