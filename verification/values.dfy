/** Optional values and error-carrying results, and the JavaScript notion of a
    "truthy" string that the front end uses for every presence test. */
module Values {

  /** A value that may be absent: `null` or `undefined` in the front end. */
  datatype Option<+T> = None | Some(value: T) {

    /** The value, or a default when absent (`x ?? d`). */
    function GetOr(default: T): T {
      match this
      case Some(v) => v
      case None => default
    }
  }

  /** The outcome of a guard: `Ok(v)` carries on with `v`, `Err(m)` is `throw new Error(m)`. */
  datatype Result<+T> = Ok(value: T) | Err(message: string)

  /** JavaScript truthiness of a `string | null | undefined`: present and not the empty string. */
  predicate Truthy(s: Option<string>) {
    s.Some? && s.value != ""
  }

  /** The field kept only when it is truthy, as in `if (x) payload.x = x`. */
  function KeepTruthy(s: Option<string>): (r: Option<string>)
    ensures r.Some? <==> Truthy(s)
    ensures r.Some? ==> r == s
  {
    if Truthy(s) then s else None
  }
}
