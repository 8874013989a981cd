/** Option and Result, together with the JavaScript notion of a possibly
    missing value that the front end passes around. */
module Wrappers {

  datatype Option<+T> = None | Some(value: T)

  datatype Result<+T, +E> = Ok(value: T) | Err(error: E)

  /** A property read from a plain JavaScript object: either `undefined`
      or a string. */
  datatype Field = Absent | Text(s: string)

  /** JavaScript truthiness of a field: `undefined` and `''` are falsy. */
  predicate Truthy(f: Field)
  {
    f.Text? && f.s != ""
  }

  /** The text a template literal such as `${x}` produces for the field. */
  function Render(f: Field): (r: string)
    ensures f.Text? ==> r == f.s
    ensures f.Absent? ==> r == "undefined"
  {
    match f
    case Absent => "undefined"
    case Text(s) => s
  }

  /** `x || fallback` for a field. */
  function OrElse(f: Field, fallback: string): (r: string)
    ensures Truthy(f) ==> r == f.s
    ensures !Truthy(f) ==> r == fallback
  {
    if Truthy(f) then f.s else fallback
  }
}
