/**
 * The slice of JavaScript value semantics the dashboard rules depend on:
 * JSON-shaped values, truthiness, strict equality, property reads and the
 * string a value becomes when used as an object key. Numbers here are the
 * integer ones the rules compare (ids and the 0/1 flag).
 */
module JsValues {
  import opened Wrappers
  import opened Text

  datatype JsValue =
    | JUndefined
    | JNull
    | JBool(b: bool)
    | JNum(n: int)
    | JStr(s: string)
    | JArray(items: seq<JsValue>)
    | JObject(fields: map<string, JsValue>)

  /** The exceptions the rules can raise. */
  datatype JsError =
    | TypeError
    | Failed(message: string)   // a rejected fetch or a body that is not JSON

  /** `!!v`: undefined, null, false, 0 and "" are falsy; objects and arrays are truthy. */
  predicate Truthy(v: JsValue) {
    match v
    case JUndefined => false
    case JNull => false
    case JBool(b) => b
    case JNum(n) => n != 0
    case JStr(s) => s != ""
    case JArray(_) => true
    case JObject(_) => true
  }

  /** `a === b` on values from JSON: equal primitives; two objects are two references. */
  predicate StrictEq(a: JsValue, b: JsValue) {
    a == b && !a.JArray? && !a.JObject?
  }

  /** `v?.name` reads undefined from a nullish v; `v.name` on a nullish v is a TypeError. */
  predicate Nullish(v: JsValue) {
    v.JUndefined? || v.JNull?
  }

  /** `v.name` for a non-nullish v: an object's own field, or undefined. */
  function Prop(v: JsValue, name: string): (r: Result<JsValue, JsError>)
    ensures r.Err? <==> Nullish(v)
  {
    if Nullish(v) then Err(TypeError)
    else if v.JObject? && name in v.fields then Ok(v.fields[name])
    else Ok(JUndefined)
  }

  /** `String(v)`, the key a value names when written as `obj[v]`. */
  function ToKey(v: JsValue): string
    decreases v, 1
  {
    match v
    case JUndefined => "undefined"
    case JNull => "null"
    case JBool(b) => if b then "true" else "false"
    case JNum(n) => IntToString(n)
    case JStr(s) => s
    case JArray(items) => Join(ElementKeys(items), ",")
    case JObject(_) => "[object Object]"
  }

  /** Array-to-string renders null and undefined elements as "". */
  function ElementKeys(items: seq<JsValue>): (r: seq<string>)
    decreases items, 0
    ensures |r| == |items|
  {
    if items == [] then []
    else [if Nullish(items[0]) then "" else ToKey(items[0])] + ElementKeys(items[1..])
  }
}
