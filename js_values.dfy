/**
 * The dynamically typed values that the validators receive as `any`:
 * only the parts of JavaScript semantics that the validators observe
 * (truthiness, `typeof`, `Array.isArray`, own properties and property reads).
 */
module JsValues {

  /** A JavaScript value. Numbers are reals (NaN is not represented); objects are maps of own properties. */
  datatype JsValue =
    | JsUndefined
    | JsNull
    | JsBool(b: bool)
    | JsNum(n: real)
    | JsStr(s: string)
    | JsArray(elems: seq<JsValue>)
    | JsObject(props: map<string, JsValue>)

  /** `!!v`: false exactly for undefined, null, false, 0 and the empty string. */
  predicate Truthy(v: JsValue) {
    match v
    case JsUndefined => false
    case JsNull => false
    case JsBool(b) => b
    case JsNum(n) => n != 0.0
    case JsStr(s) => s != ""
    case JsArray(_) => true
    case JsObject(_) => true
  }

  /** `typeof v` for the kinds of value represented here. */
  function TypeOf(v: JsValue): string {
    match v
    case JsUndefined => "undefined"
    case JsNull => "object"
    case JsBool(_) => "boolean"
    case JsNum(_) => "number"
    case JsStr(_) => "string"
    case JsArray(_) => "object"
    case JsObject(_) => "object"
  }

  /** `Array.isArray(v)`. */
  predicate IsArray(v: JsValue) {
    v.JsArray?
  }

  /** `v.hasOwnProperty(p)` for the named (non-index) properties the validators ask about. */
  predicate HasOwn(v: JsValue, p: string) {
    v.JsObject? && p in v.props
  }

  /** `v[p]`: the own property if there is one, otherwise undefined. */
  function Prop(v: JsValue, p: string): JsValue {
    if HasOwn(v, p) then v.props[p] else JsUndefined
  }

  /** `s.every(p)`: p holds of every element (checked left to right, stopping at the first failure). */
  function Every<T>(s: seq<T>, p: T -> bool): (r: bool)
    ensures r <==> forall i :: 0 <= i < |s| ==> p(s[i])
  {
    if s == [] then true else p(s[0]) && Every(s[1..], p)
  }

  /** `s.some(p)`: p holds of some element (checked left to right, stopping at the first success). */
  function AnyOf<T>(s: seq<T>, p: T -> bool): (r: bool)
    ensures r <==> exists i :: 0 <= i < |s| && p(s[i])
  {
    if s == [] then false else p(s[0]) || AnyOf(s[1..], p)
  }

  /** A string array, as a JavaScript value. */
  function StrArray(items: seq<string>): (v: JsValue)
    ensures v.JsArray? && |v.elems| == |items|
    ensures forall i :: 0 <= i < |items| ==> v.elems[i] == JsStr(items[i])
  {
    if items == [] then JsArray([])
    else JsArray([JsStr(items[0])] + StrArray(items[1..]).elems)
  }

  /** `allowed.includes(v)` for an array of strings: strict equality with some entry. */
  predicate IncludesStr(allowed: seq<string>, v: JsValue) {
    v.JsStr? && v.s in allowed
  }
}
