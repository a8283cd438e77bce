/** The two failure-carrying types the rest of the model uses. */
module Wrappers {

  datatype Option<+T> = None | Some(value: T) {

    function GetOr(default: T): T {
      match this
      case Some(v) => v
      case None => default
    }
  }

  datatype Result<+T, +E> = Ok(value: T) | Err(error: E)
}

/** The error classes the services throw. */
module Errors {
  datatype ServiceError = NotFound | Conflict | Forbidden | Validation | DuplicateKey
}
