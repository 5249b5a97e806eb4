/** The few JavaScript value rules the client relies on. */
module JsValues {
  import opened Wrappers

  /** JavaScript truthiness of a string that may be null or undefined: `null`, `undefined` and `""` are falsy. */
  predicate Truthy(x: Option<string>)
  {
    x.Some? && x.value != ""
  }

  /**
   * A value passed as a request parameter or payload field.
   * `Str` is a string; `Other` is any other defined value (a number, an object, an array),
   * carried with the text `String(value)` gives for it.
   */
  datatype Value = Undefined | Null | Str(text: string) | Other(text: string)
  {
    /** Neither null nor undefined (the test `value !== undefined && value !== null`). */
    predicate Present()
    {
      Str? || Other?
    }
  }

  /** `String(x)` for a string that may be undefined, as `localStorage.setItem` stores it. */
  function StoredText(x: Option<string>): (r: string)
    ensures x.Some? ==> r == x.value
    ensures x.None? ==> r == "undefined"
  {
    match x
    case Some(s) => s
    case None => "undefined"
  }
}
