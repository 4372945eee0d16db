/** The few observable facets of an arbitrary JavaScript value (`any`) that the
    ORM's text generation depends on. */
module JsValues {

  /** `JsNull` is the literal `null`; any other defined value is described by
      what `String(v)` and `JSON.stringify(v)` return for it and by whether it
      is truthy. */
  datatype JsValue =
    | JsNull
    | JsValue(text: string, json: string, truthy: bool)

  /** JavaScript truthiness (`null` is falsy). */
  predicate Truthy(v: JsValue) {
    v.JsValue? && v.truthy
  }
}
