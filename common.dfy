/** Failure-carrying wrappers shared by every module of the model. */
module Common {

  /** A value that may be absent: Java's null / Optional, TypeScript's `null`. */
  datatype Option<+T> = None | Some(value: T)

  /** The result of a Java call that either returns a value or throws. */
  datatype Result<+T, +E> = Success(value: T) | Failure(error: E)

  /** The result of a Java `void` call that may throw. */
  datatype Outcome<+E> = Pass | Fail(error: E)

  /** True when no element of `s` occurs twice. */
  ghost predicate NoDuplicates<T>(s: seq<T>)
  {
    forall i, j :: 0 <= i < j < |s| ==> s[i] != s[j]
  }
}
