/** Optional values and results that may carry a thrown JavaScript error. */
module Wrappers {

  datatype Option<+T> = None | Some(value: T)

  /** The only error the modelled code can raise: reading or writing a property of
      `undefined` throws a `TypeError`. */
  datatype JsError = TypeError

  /** The outcome of an operation that either returns a value or throws. */
  datatype Result<+T> = Ok(value: T) | Err(error: JsError)
}
