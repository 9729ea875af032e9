/** Option and Result, used for JavaScript's `undefined`/`null` and for thrown errors. */
module Wrappers {

  /** `None` stands for a value that is absent (`undefined` or `null` in JavaScript). */
  datatype Option<+T> = None | Some(value: T)

  /** `Failure` carries the message of an error that was thrown or a promise that rejected. */
  datatype Result<+R> = Success(value: R) | Failure(message: string)

  /** JavaScript truthiness of an optional string: present and not empty. */
  predicate Truthy(s: Option<string>)
    ensures Truthy(s) ==> s.Some? && |s.value| > 0
    ensures s == Some("") ==> !Truthy(s)
  {
    s.Some? && s.value != ""
  }
}
