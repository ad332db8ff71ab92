/** Failure-carrying wrappers and the adapter's error taxonomy. */
module Wrappers {

  datatype Option<+T> = None | Some(value: T) {
    function GetOr(default: T): T
    {
      match this
      case Some(v) => v
      case None => default
    }
  }

  datatype Result<+R, +E> = Success(value: R) | Failure(error: E)

  /** The errors the adapter reports: the `waterline-errors` adapter codes it
      uses, a `TypeError` where the JavaScript would throw on `undefined`, a
      store error passed through unchanged, and the error thrown while a query
      object is built from criteria. */
  datatype AdapterError =
    | IdentityMissing
    | IdentityDuplicate
    | InvalidGroupBy
    | NotFound
    | TypeError
    | StoreError(code: string)
    | QueryError(message: string)
}
