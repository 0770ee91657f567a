/** Failure-compatible wrappers and the JavaScript notions of "falsy" that the
    formatter relies on when it writes `a || b`. */
module Wrappers {

  /** `None` stands for JavaScript's `null` / `undefined`. */
  datatype Option<+T> = None | Some(value: T)

  datatype Result<+T, +E> = Success(value: T) | Failure(error: E)

  /** A possibly-null string is truthy when it is present and not empty. */
  predicate Truthy(v: Option<string>) {
    v.Some? && v.value != ""
  }

  /** JavaScript's `a || b` on possibly-null strings. */
  function Or(a: Option<string>, b: Option<string>): Option<string> {
    if Truthy(a) then a else b
  }

  /** The text of a possibly-null string, `""` for `null`. */
  function TextOf(v: Option<string>): string {
    if v.Some? then v.value else ""
  }
}
