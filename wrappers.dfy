/** Small value wrappers shared by the transit-map model. */
module Wrappers {

  /** A value that may be absent: JavaScript's `undefined`/`null` for an optional field. */
  datatype Option<+T> = None | Some(value: T) {
    function GetOr(default: T): T {
      match this
      case Some(v) => v
      case None => default
    }
  }

  /**
   * What a `fetch` followed by `response.json()` can give back: the request itself can
   * fail (`NetworkError`), or a response arrives with its `ok` flag and a body that did
   * (`Some`) or did not (`None`) decode as JSON.
   */
  datatype Reply<+T> = NetworkError | Response(ok: bool, json: Option<T>)
}
