/** JavaScript values as they reach the server in a request body or in a
    socket payload, and the truthiness test that `if (!x)` performs on them. */
module JsValues {

  datatype Option<+T> = None | Some(value: T)

  /** A decoded JSON value. Numbers are integers here: fractions and NaN are
      not modelled. */
  datatype JsValue =
    | Undefined
    | Null
    | Bool(b: bool)
    | Num(n: int)
    | Str(s: string)
    | Array(items: seq<JsValue>)
    | Object

  /** JavaScript's ToBoolean: `undefined`, `null`, `false`, `0` and `""` are
      falsy, every other value (every array and object included) is truthy. */
  predicate Truthy(v: JsValue)
  {
    match v
    case Undefined => false
    case Null => false
    case Bool(b) => b
    case Num(n) => n != 0
    case Str(s) => s != ""
    case Array(_) => true
    case Object => true
  }
}
