/** The JavaScript values that reach the service's constructor, and JavaScript truthiness. */
module JsValues {

  /**
   * A JavaScript value. Numbers are kept as reals plus a separate NaN, which is
   * all the service's truthiness test can distinguish; arrays and plain objects
   * carry their elements and own properties.
   */
  datatype JsValue =
    | Undefined
    | Null
    | Boolean(b: bool)
    | Number(x: real)
    | NaN
    | BigInt(i: int)
    | Str(s: string)
    | Array(items: seq<JsValue>)
    | Object(fields: map<string, JsValue>)

  /** The falsy values are undefined, null, false, 0, -0, NaN, 0n and the empty string. */
  predicate Truthy(v: JsValue)
    ensures !Truthy(v) <==> v in {Undefined, Null, Boolean(false), Number(0.0), NaN, BigInt(0), Str("")}
  {
    match v
    case Undefined => false
    case Null => false
    case Boolean(b) => b
    case Number(x) => x != 0.0
    case NaN => false
    case BigInt(i) => i != 0
    case Str(s) => s != ""
    case Array(_) => true
    case Object(_) => true
  }
}
