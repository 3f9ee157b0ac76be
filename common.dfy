/** Shared result shapes for both services. */
module Common {

  /** Python's `X | None`: a query's `.first()` or a crud function that may return nothing. */
  datatype Option<+T> = None | Some(value: T)

  /**
   * What a request handler ends in:
   * - Done: the handler returned a value (HTTP 200);
   * - HttpError: the handler raised `HTTPException(status_code, detail)`;
   * - Uncaught: some other exception escaped the handler (the framework answers 500);
   *   `exception` names the Python exception class.
   */
  datatype Outcome<+T> =
    | Done(value: T)
    | HttpError(status: int, detail: string)
    | Uncaught(exception: string)
  {
    /** The same failure, for a handler whose success value has another type. */
    function PropagateFailure<U>(): (r: Outcome<U>)
      requires !Done?
      ensures HttpError? ==> r == HttpError(status, detail)
      ensures Uncaught? ==> r == Uncaught(exception)
    {
      if HttpError? then HttpError(status, detail) else Uncaught(exception)
    }
  }

  /** The exception `int(s)` raises on a string that is not a decimal integer. */
  const ValueError := "ValueError"
}
