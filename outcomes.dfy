/** Values that stand for what the front end receives from outside: an optional
    field of a JSON payload, and the settled result of an awaited API call. */
module Outcomes {

  /** A JSON field or a stored value that may be absent (`undefined`). */
  datatype Option<+T> = None | Some(value: T) {

    /** The value, or `default` when absent (JavaScript's `??`). */
    function GetOr(default: T): T {
      match this
      case Some(v) => v
      case None => default
    }
  }

  /** How an awaited call settled: the promise resolved with a value, or it
      rejected (the HTTP client throws on a failed request). */
  datatype Settled<+T> = Resolved(value: T) | Rejected

  /** JavaScript truthiness of an optional string: present and not empty. */
  predicate Truthy(s: Option<string>) {
    s.Some? && s.value != ""
  }

  /** `s || fallback` on an optional string: the string when it is truthy,
      the fallback when it is absent or empty. */
  function OrFallback(s: Option<string>, fallback: string): (r: string)
    ensures Truthy(s) ==> r == s.value
    ensures !Truthy(s) ==> r == fallback
  {
    if Truthy(s) then s.value else fallback
  }
}
