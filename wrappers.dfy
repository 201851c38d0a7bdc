/** Option and Result, the two shapes the crate's `Option`/`Result` chains take. */
module Wrappers {

  datatype Option<+T> = None | Some(value: T)

  datatype Result<+T, +E> = Success(value: T) | Failure(error: E)

  /** `Option::filter(|v| !v.is_empty())` on a string value. */
  function NonEmpty(o: Option<string>): (r: Option<string>)
    ensures r.Some? <==> o.Some? && o.value != []
    ensures r.Some? ==> r == o
  {
    if o.Some? && o.value != [] then o else None
  }
}
