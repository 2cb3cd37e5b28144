/** Small failure-carrying datatypes shared by every module of the model. */
module Wrappers {

  /** A possibly missing value; `None` stands for Java's `null` or an empty `Optional`. */
  datatype Option<+T> = None | Some(value: T) {

    /** The value, or `default` when there is none. */
    function GetOr(default: T): T {
      match this
      case Some(v) => v
      case None => default
    }
  }

  /** What one call into the rate-limited game API ends with: a value, the
      HTTP 429 condition carrying the Retry-After header in seconds (absent
      when the response has no such header), or any other exception. */
  datatype ApiResult<+T> = Ok(value: T) | RateLimited(retryAfter: Option<nat>) | Failed
}
