/** The JavaScript conventions the UI stores rely on. */
module Js {
  import opened Common

  /** What a rejected promise carries: an `Error` with its message, or any other thrown value. */
  datatype Thrown = ErrorObject(message: string) | OtherValue

  /** The truth value of a `string | null`: both `null` and the empty string are falsy. */
  predicate Truthy(s: Option<string>)
  {
    s.Some? && s.value != ""
  }

  /** The stores' catch blocks: `e instanceof Error ? e.message : fallback`. */
  function CaughtMessage(e: Thrown, fallback: string): string
  {
    match e
    case ErrorObject(message) => message
    case OtherValue => fallback
  }
}
