// How the model's operations report that they did not produce a value.
module Wrappers {

  /** A value that may be missing: an absent header, a parse that failed. */
  datatype Option<+T> = None | Some(value: T)

  /** Rust's `Result<T, E>`. */
  datatype Result<+T, +E> = Success(value: T) | Failure(error: E) {

    /** Rust's `map_err`: keeps a success, rewrites the error. */
    function MapFailure<E2>(f: E -> E2): Result<T, E2>
    {
      match this
      case Success(v) => Success(v)
      case Failure(e) => Failure(f(e))
    }
  }

  /** How a Rust function that may panic ends: it returns `Ok`, returns
      `Err` (a `?` that propagated), or unwinds with a panic message (an
      `expect` or `unwrap` that failed, or an overflow in a debug build). */
  datatype Outcome<+T> = Ok(value: T) | Err(error: string) | Panic(message: string) {

    /** A failure handed on unchanged by a caller whose own result has
        another type: `?` for an error, unwinding for a panic. */
    function Forward<U>(): (r: Outcome<U>)
      requires !Ok?
      ensures r.Err? <==> Err?
      ensures Err? ==> r.error == error
      ensures Panic? ==> r.Panic? && r.message == message
    {
      if Err? then Err(error) else Panic(message)
    }
  }
}
