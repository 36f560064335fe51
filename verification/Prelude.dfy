/** Optional values and results, shared by the other modules. */
module Prelude {
  datatype Option<+T> = None | Some(value: T) {
    function GetOr(default: T): T {
      match this
      case Some(v) => v
      case None => default
    }
  }

  datatype Result<+T, +E> = Ok(value: T) | Err(error: E)

  /** A text that is there and not empty. */
  predicate Given(o: Option<string>) {
    o.Some? && o.value != ""
  }
}
