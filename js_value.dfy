/**
 * The JavaScript values that the `/run` handler can find in `req.body.code`.
 *
 * The body has been parsed from JSON, so `code` is one of the JSON value kinds,
 * or absent (`undefined`) when the body has no such key. A JavaScript string is
 * a sequence of UTF-16 code units, and its `length` counts those units.
 */
module JsValues {

  /** One UTF-16 code unit. */
  newtype CodeUnit = x: int | 0 <= x < 0x1_0000

  /** A JavaScript string as the language sees it: UTF-16 code units. */
  type JsString = seq<CodeUnit>

  datatype JsValue =
    | Undefined                  // the key `code` is missing from the body
    | Null
    | Boolean(b: bool)
    | Number(x: real)            // never NaN; any number is refused as a non-string
    | Str(units: JsString)
    | Array(elements: seq<JsValue>)
    | Object

  /** ECMAScript ToBoolean, restricted to the values a JSON body can produce. */
  predicate Truthy(v: JsValue) {
    match v
    case Undefined => false
    case Null => false
    case Boolean(b) => b
    case Number(x) => x != 0.0
    case Str(units) => |units| > 0
    case Array(_) => true
    case Object => true
  }

  /** `typeof v === 'string'` */
  predicate IsString(v: JsValue) {
    v.Str?
  }
}
