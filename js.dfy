/** The few JavaScript value notions the bot relies on: values that may be
    `undefined`, results of calls that may throw, and `||` on strings. */
module Js {

  /** A value that may be `undefined` (an absent property, an unset variable). */
  datatype Option<+T> = None | Some(value: T)

  /** The outcome of a call that returns a value or throws an error. */
  datatype Result<+T, +E> = Ok(value: T) | Err(error: E)

  /** JavaScript truthiness of a string that may be `undefined`:
      `undefined` and the empty string are falsy, every other string is truthy. */
  predicate Truthy(v: Option<string>) {
    v.Some? && v.value != ""
  }

  /** `a || b` on two strings that may be `undefined`. */
  function Or(a: Option<string>, b: Option<string>): (r: Option<string>)
    ensures Truthy(r) <==> Truthy(a) || Truthy(b)
    ensures Truthy(a) ==> r == a
    ensures !Truthy(a) ==> r == b
  {
    if Truthy(a) then a else b
  }

  /** `v || ""`: the string itself when it is truthy, otherwise the empty string. */
  function OrEmpty(v: Option<string>): (s: string)
    ensures s != "" <==> Truthy(v)
    ensures Truthy(v) ==> s == v.value
  {
    if Truthy(v) then v.value else ""
  }
}
