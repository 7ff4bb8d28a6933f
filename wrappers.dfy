/** Optional values and results, the shapes the client code expresses with
    `null`/`undefined` and with early returns that set an error message. */
module Wrappers {

  datatype Option<+T> = None | Some(value: T) {
    /** `x ?? d` in the client code. */
    function GetOr(default: T): T {
      match this
      case Some(v) => v
      case None => default
    }
  }

  datatype Result<+R, +E> = Ok(value: R) | Err(error: E)

  /** JavaScript truthiness of an optional number: `undefined`, `null` and 0 are falsy. */
  predicate IntTruthy(o: Option<int>) {
    o.Some? && o.value != 0
  }

  /** JavaScript truthiness of an optional string: `undefined`, `null` and "" are falsy. */
  predicate StrTruthy(o: Option<string>) {
    o.Some? && o.value != ""
  }
}
