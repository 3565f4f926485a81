/** The JavaScript value conventions the authentication pages rely on:
    `undefined`/`null` is `None`, a string property counts as true only when non-empty,
    `a || b` picks a fallback, and `String(v)` is what `localStorage` and
    string concatenation make of a value. */
module Js {

  /** A possibly-absent value; `None` stands for `undefined` or `null`. */
  datatype Option<+T> = None | Some(value: T) {

    /** The value, or `default` when absent. */
    function GetOr(default: T): T {
      match this
      case Some(v) => v
      case None => default
    }
  }

  /** A string-valued property is truthy when it is defined and not empty. */
  predicate Truthy(v: Option<string>) {
    v.Some? && v.value != ""
  }

  /** `v || fallback` for a string-valued property. */
  function Or(v: Option<string>, fallback: string): string {
    if Truthy(v) then v.value else fallback
  }

  /** `String(v)`: how an absent string is rendered when it is stored in
      `localStorage` or concatenated with another string. */
  function Text(v: Option<string>): string {
    match v
    case Some(s) => s
    case None => "undefined"
  }
}
