/** Optional fields of a JSON record and JavaScript's truthiness rules for them. */
module JsValue {

  /** A field that may be absent (`undefined`), `null`, or hold a string. */
  datatype Option<+T> = None | Some(value: T)

  /** A string field is truthy when it is present and not the empty string. */
  predicate Truthy(o: Option<string>) {
    o.Some? && o.value != ""
  }

  /** `o || fallback` for a string field: the field when it is truthy, the fallback
      otherwise, so the result is empty only when both are. */
  function Or(o: Option<string>, fallback: string): (r: string)
    ensures Truthy(o) ==> r == o.value
    ensures !Truthy(o) ==> r == fallback
    ensures r == "" <==> !Truthy(o) && fallback == ""
    ensures r != fallback ==> Truthy(o)
  {
    if Truthy(o) then o.value else fallback
  }
}
