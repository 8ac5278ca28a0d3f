/** JavaScript values as the backend handles them: request bodies after JSON parsing and plain objects. */
module JsValues {

  /** A JavaScript value. Numbers are modelled as integers (timestamps are integral milliseconds). */
  datatype Value =
    | Undefined
    | Null
    | Bool(b: bool)
    | Num(n: int)
    | Str(s: string)
    | Arr(items: seq<Value>)
    | Obj(fields: map<string, Value>)

  /** A plain object: its own enumerable properties. */
  type Record = map<string, Value>

  /** JavaScript truthiness: `undefined`, `null`, `false`, `0` and `""` are falsy. */
  predicate Truthy(v: Value)
  {
    match v
    case Undefined => false
    case Null => false
    case Bool(b) => b
    case Num(n) => n != 0
    case Str(s) => s != ""
    case Arr(_) => true
    case Obj(_) => true
  }

  /** The property read `r[k]`: a missing property reads as `undefined`. */
  function Get(r: Record, k: string): Value
  {
    if k in r then r[k] else Undefined
  }

  /** How a JSON Schema validator tests that an object has a property: present and not `undefined`. */
  predicate Present(r: Record, k: string)
  {
    k in r && r[k] != Undefined
  }
}
