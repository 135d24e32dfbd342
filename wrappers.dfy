/** Option and Result, the two wrappers the handlers use: an optional request
    field (a key that may be absent from the JSON body) and a handler reply
    that is either a value or one of the API's error kinds. */
module Wrappers {

  datatype Option<+T> = None | Some(value: T) {

    /** The value when present, otherwise the given default
        (Python's `dict.get(key, default)`). */
    function GetOr(default: T): T {
      match this
      case Some(v) => v
      case None => default
    }
  }

  datatype Result<+T, +E> = Ok(value: T) | Err(error: E)
}
