/** Shared vocabulary: optional values and the HTTP replies the handlers send. */
module Common {

  /** A value that may be absent (a missing request field, a `findOne` that matched nothing). */
  datatype Option<+T> = None | Some(value: T) {
    function GetOr(default: T): T {
      match this
      case Some(v) => v
      case None => default
    }
  }

  /** A stored document's key: a user id, or the URL parameter an order is posted under. */
  type Id = string

  /**
   * The reply a route handler ends with (the role gate's 401 and 403 are its own `Decision`).
   */
  datatype Status =
    | Ok200            // success, JSON body
    | BadRequest400    // validation failure or a "soft" not-found
    | ServerError500   // an exception caught by the handler's try/catch

  /** express-validator's `notEmpty()` on a string field (a missing field reads as ""). */
  predicate NotEmpty(s: string) {
    s != ""
  }

  /** express-validator's `isLength({ min: 6 })`, used for every password field. */
  const MinPasswordLength: nat := 6

  predicate LongEnough(password: string) {
    |password| >= MinPasswordLength
  }
}
