/** Decoded JSON documents as both ends of the MQTT link and the HTTP API see
    them after parsing, with the Python truth values and `dict.get` lookups the
    server applies to them. */
module Json {

  datatype Value =
    | Null
    | Bool(b: bool)
    | Int(i: int)
    | Real(r: real)
    | Str(s: string)
    | Array(items: seq<Value>)
    | Object(fields: map<string, Value>)

  /** Python's `bool(v)` for a decoded value: `None`, `False`, `0`, `0.0`,
      `""`, `[]` and `{}` are false, everything else is true. */
  predicate Truthy(v: Value) {
    match v
    case Null => false
    case Bool(b) => b
    case Int(i) => i != 0
    case Real(r) => r != 0.0
    case Str(s) => s != ""
    case Array(items) => items != []
    case Object(fields) => fields != map[]
  }

  /** Lists and dicts cannot be dictionary keys in Python. */
  predicate Hashable(v: Value) {
    !v.Array? && !v.Object?
  }

  /** `fields.get(key, default)`. */
  function Get(fields: map<string, Value>, key: string, default: Value): Value {
    if key in fields then fields[key] else default
  }
}
