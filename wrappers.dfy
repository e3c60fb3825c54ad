/** Failure-carrying values used across the model: Rust's `Option`, `Result` and a unit `Result<()>`. */
module Wrappers {

  datatype Option<T> = None | Some(value: T)

  datatype Result<T, E> = Ok(value: T) | Err(error: E) {
    /** `Result::ok`: the success value, discarding the error. */
    function ToOption(): (o: Option<T>)
      ensures o.Some? <==> Ok?
      ensures Ok? ==> o == Some(value)
    {
      match this
      case Ok(v) => Some(v)
      case Err(_) => None
    }
  }

  /** A `Result<(), E>`: success carries nothing. */
  datatype Outcome<E> = Pass | Fail(error: E)
}
