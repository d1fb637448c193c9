/** Small failure-carrying datatypes shared by the ledger model.
    `Option` stands for a SQL NULL / JavaScript `null`/`undefined`,
    `Result` and `Outcome` for a statement that either completes or throws. */
module Wrappers {

  datatype Option<+T> = None | Some(value: T) {
    function GetOr(default: T): T {
      match this
      case Some(v) => v
      case None => default
    }
  }

  datatype Result<+R, +E> = Success(value: R) | Failure(error: E)

  datatype Outcome<+E> = Pass | Fail(error: E)

  /** JavaScript truthiness of an optional string: `undefined`, `null`
      and the empty string are falsy, every other string is truthy. */
  predicate Truthy(s: Option<string>) {
    s.Some? && s.value != ""
  }
}
