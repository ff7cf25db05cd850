/** Option and Result types for the values the application may or may not have:
    an unset environment variable, a missing header, a failed query. */
module Wrappers {

  datatype Option<+T> = None | Some(value: T) {
    function GetOr(default: T): T {
      match this
      case Some(v) => v
      case None => default
    }
  }

  /** A header, environment variable or field that JavaScript treats as given: present
      and not the empty string. */
  predicate Present(o: Option<string>) {
    o.Some? && o.value != ""
  }

  /** The outcome of a back-end call: a value, or the error message it raised. */
  datatype Result<+T> = Ok(value: T) | Err(message: string)
}
