/** Failure-carrying datatypes shared by every module of the model. */
module Wrappers {

  /** An optional value: `None` stands for an absent key, `null` or `undefined`. */
  datatype Option<+T> = None | Some(value: T) {

    /** The carried value, or `default` when there is none. */
    function GetOr(default: T): T {
      match this
      case Some(v) => v
      case None => default
    }
  }

  /** The outcome of an external call (an HTTP fetch, a JSON parse) that the model
      does not perform itself: either the parsed payload or the text of the error
      the call raised. */
  datatype Outcome<+T> = Ok(value: T) | Fail(msg: string)
}
