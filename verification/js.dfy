/**
 The few ECMAScript value rules the server's decisions depend on: a value
 that may be `undefined`, the truthiness test behind `a || b` on strings,
 the coercion Node applies when a property of `process.env` is assigned, and
 a completion that is either a value or a thrown error.
 */
module Js {

  /** A string-valued slot that may hold `undefined`. */
  datatype Option<+T> = Undefined | Some(value: T)

  /** A string is truthy exactly when it is defined and not empty. */
  predicate Truthy(v: Option<string>) {
    v.Some? && v.value != ""
  }

  /** `v || fallback` for a possibly undefined string. */
  function Or(v: Option<string>, fallback: string): (r: string)
    ensures Truthy(v) ==> r == v.value
    ensures !Truthy(v) ==> r == fallback
    ensures r == "" ==> !Truthy(v)
  {
    if Truthy(v) then v.value else fallback
  }

  /**
   Assigning to a property of `process.env` stores the value converted to a
   string, so `undefined` is stored as the text "undefined". The same text is
   what a template literal `${v}` produces.
   */
  function EnvString(v: Option<string>): (r: string)
    ensures v.Some? ==> r == v.value
    ensures v.Undefined? ==> r == "undefined"
  {
    match v
    case Undefined => "undefined"
    case Some(s) => s
  }

  /** The outcome of a call that may throw: a value, or an error with its message. */
  datatype Completion<+T> = Normal(value: T) | Throw(message: string)
}
