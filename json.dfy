/**
 * The shapes of already-parsed request bodies. JSON parsing itself is not
 * modelled: a handler receives either `InvalidJson` (the parser threw) or the
 * typed value it destructures.
 */
module Json {
  import opened Wrappers

  /** The result of `await request.json()`. */
  datatype Body<+T> = InvalidJson | Json(value: T)

  /**
   * A property of a parsed object that is either absent (`undefined`) or
   * present with some value (which may itself be `null`).
   */
  datatype Field<+T> = Absent | Present(value: T)

  /** A JSON value as far as `typeof` and strict equality can tell them apart. */
  datatype Value = Null | Bool(b: bool) | Number(n: real) | Str(s: string) | Composite

  /** A string-valued property is truthy when it is present, not null and not empty. */
  predicate Truthy(s: Option<string>) {
    s.Some? && s.value != []
  }
}
