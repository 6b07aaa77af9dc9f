/**
 * JavaScript values as the frontend handles them (message payloads, response
 * bodies), with the three operations the frontend applies to them: truthiness,
 * optional-chaining property reads and conversion to a string.
 */
module JsValues {
  import opened Text

  /** A JavaScript value. Numbers are integers; arrays and functions are not modelled. */
  datatype JsValue =
    | Undefined
    | Null
    | JsBool(b: bool)
    | JsNumber(n: int)
    | JsString(s: string)
    | JsObject(props: map<string, JsValue>)

  /** The value `if (v)` accepts. */
  predicate Truthy(v: JsValue) {
    match v
    case Undefined => false
    case Null => false
    case JsBool(b) => b
    case JsNumber(n) => n != 0
    case JsString(s) => s != ""
    case JsObject(_) => true
  }

  /** Reading a property of `v` throws a TypeError exactly when `v` is undefined or null. */
  predicate ReadThrows(v: JsValue) {
    v == Undefined || v == Null
  }

  /** `v?.key` (and `v.key` when it does not throw): undefined unless `v` is an object holding `key`. */
  function Get(v: JsValue, key: string): (r: JsValue)
    ensures r != Undefined ==> v.JsObject? && key in v.props && r == v.props[key]
  {
    if v.JsObject? && key in v.props then v.props[key] else Undefined
  }

  /** `a || b`. */
  function Or(a: JsValue, b: JsValue): JsValue {
    if Truthy(a) then a else b
  }

  /** String(v): what `localStorage.setItem` stores and a template literal inserts. */
  function ToText(v: JsValue): (s: string)
    ensures s == "" <==> v == JsString("")
    ensures v.JsString? ==> s == v.s
  {
    match v
    case Undefined => "undefined"
    case Null => "null"
    case JsBool(b) => if b then "true" else "false"
    case JsNumber(n) => IntToString(n)
    case JsString(s) => s
    case JsObject(_) => "[object Object]"
  }
}
