/** Optional values (Python's `None` or a present value) and HTTP replies. */
module Wrappers {

  datatype Option<+T> = None | Some(value: T) {

    /** The present value, or `default` when there is none (Python's `x or default` on `None`). */
    function GetOr(default: T): T {
      match this
      case Some(v) => v
      case None => default
    }
  }

  /** What an endpoint answers: a value, or an HTTP error status code. */
  datatype Response<+T> = Ok(value: T) | HttpError(code: nat)

  /** What a call into a collaborator (a tool, a provider, a client constructor) does. */
  datatype Outcome = Succeeds | Raises
}
