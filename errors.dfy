/** The error values that cross the repository and service boundaries. */
module Errors {

  /** An optional value; for an `error` result, `None` is Go's `nil`. */
  datatype Option<T> = None | Some(value: T)

  datatype Error =
    /** Any failure the document store reports: connectivity, query execution, decoding. */
    | StoreFailure(message: string)
    /** `mongo.ErrNoDocuments`: a single-document lookup matched nothing. */
    | NoDocuments
    /** The store's duplicate-key write error: an insert reused an existing `_id`. */
    | DuplicateKey(id: string)
    /** "product not found on db", raised by the service's delete guard. */
    | ProductNotFound

  /** The error a driver call reports, given the failure the store produced (if any). */
  function Reported(failure: Option<string>): (err: Option<Error>)
    ensures err.None? <==> failure.None?
    ensures failure.Some? ==> err.value.StoreFailure? && err.value.message == failure.value
  {
    match failure
    case None => None
    case Some(message) => Some(StoreFailure(message))
  }
}
