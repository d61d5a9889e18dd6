/** The JavaScript values the member records carry and the coercions the code
    applies to them: truthiness (`a || b`, `if (a)`) and `String(v)`. */
module Js {

  import opened Wrappers
  import opened Text

  /** A primitive JavaScript value: a string, a number (integral numbers only)
      or `NaN`, which `Number(...)` yields for text that is not a number. */
  datatype JsValue = Str(text: string) | Num(number: int) | NaN

  /** JavaScript truthiness: `''`, `0` and `NaN` are falsy. */
  predicate Truthy(v: JsValue)
  {
    match v
    case Str(s) => s != ""
    case Num(n) => n != 0
    case NaN => false
  }

  /** `String(v)` / `v.toString()`. */
  function ToText(v: JsValue): (r: string)
    ensures v.Str? ==> r == v.text
    ensures v.Num? && v.number >= 0 ==> AllDigits(r) && DecimalValue(r) == v.number
  {
    match v
    case Str(s) => s
    case Num(n) => IntToString(n)
    case NaN => "NaN"
  }

  /** A string field that may be absent (`undefined` or `null`) is truthy
      when it is present and not empty. */
  predicate Present(f: Option<string>)
  {
    f.Some? && f.value != ""
  }

  /** `f || ''` for a string field. */
  function OrEmpty(f: Option<string>): (r: string)
    ensures Present(f) ==> r == f.value
    ensures !Present(f) ==> r == ""
  {
    if Present(f) then f.value else ""
  }

  /** `v || ''` for a field that may hold a string or a number. */
  function ValueOrEmpty(f: Option<JsValue>): (r: JsValue)
    ensures Truthy(r) || r == Str("")
    ensures f.Some? && Truthy(f.value) ==> r == f.value
  {
    if f.Some? && Truthy(f.value) then f.value else Str("")
  }
}
