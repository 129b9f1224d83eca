/** Small value wrappers shared by the billing, request and prompt-store models. */
module Wrappers {

  /** A value that may be absent: JavaScript `undefined`/`null`, or SQL NULL. */
  datatype Option<+T> = None | Some(value: T) {
    function GetOr(default: T): T {
      match this
      case Some(v) => v
      case None => default
    }
  }

  /** The outcome of an operation that can fail with an error value. */
  datatype Result<+R, +E> = Ok(value: R) | Err(error: E)

  /**
   * One field of a Prisma `update` payload: `Keep` is a field left out or set to
   * `undefined` (the column keeps its value), `Set(v)` writes `v`.
   */
  datatype Write<+T> = Keep | Set(value: T) {
    function ApplyTo(current: T): T {
      match this
      case Keep => current
      case Set(v) => v
    }
  }

  /** JavaScript truthiness of an optional string: absent and "" are both false. */
  predicate Truthy(s: Option<string>) {
    s.Some? && s.value != ""
  }
}
