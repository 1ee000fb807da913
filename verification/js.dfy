/** JavaScript value semantics the handlers rely on: fields that may be
    absent, the truthiness of strings and numbers, `a || b` defaulting and
    template-literal interpolation of an absent value. */
module Js {

  /** A JSON field that is either absent (`undefined`/`null`) or present. */
  datatype Option<+T> = None | Some(value: T)

  /** A string is truthy when it is present and non-empty. */
  predicate Truthy(o: Option<string>) {
    o.Some? && o.value != ""
  }

  /** `o || fallback` for a string field. */
  function Or(o: Option<string>, fallback: string): (r: string)
    ensures Truthy(o) ==> r == o.value
    ensures !Truthy(o) ==> r == fallback
  {
    if o.Some? && o.value != "" then o.value else fallback
  }

  /** A number is truthy when it is present and non-zero. */
  predicate NumTruthy(o: Option<real>) {
    o.Some? && o.value != 0.0
  }

  /** `o || fallback` for a numeric field. */
  function NumOr(o: Option<real>, fallback: real): (r: real)
    ensures NumTruthy(o) ==> r == o.value
    ensures !NumTruthy(o) ==> r == fallback
  {
    if o.Some? && o.value != 0.0 then o.value else fallback
  }

  /** `${o}` inside a template literal: an absent value prints as "undefined". */
  function Interpolate(o: Option<string>): (r: string)
    ensures o.Some? ==> r == o.value
    ensures o.None? ==> r == "undefined"
  {
    match o
    case Some(s) => s
    case None => "undefined"
  }
}
