/** Small value types shared by the whole model: JavaScript's `undefined`
    as `Option`, datastore failures as `Result`, and JavaScript truthiness
    of optional strings. */
module Common {

  /** A value that may be `undefined`. */
  datatype Option<+T> = None | Some(value: T)

  /** The outcome of an operation that can fail with an error value. */
  datatype Result<+R, +E> = Ok(value: R) | Err(error: E)

  /** JavaScript truthiness of a possibly-undefined string: `undefined` and
      the empty string are falsy, every other string is truthy. */
  predicate Truthy(o: Option<string>)
  {
    o.Some? && o.value != ""
  }

  /** What a template literal prints for a possibly-undefined string. */
  function Show(o: Option<string>): string
  {
    match o
    case Some(s) => s
    case None => "undefined"
  }

  /** `a || fallback` for a possibly-undefined string. */
  function OrElse(o: Option<string>, fallback: string): string
  {
    if Truthy(o) then o.value else fallback
  }
}
