/** JSON values as Python sees them once decoded. */
module Values {
  import opened Wrappers

  /** Num stands for int and float alike. */
  datatype Value =
    | Null | Bool(b: bool) | Num(n: real) | Str(text: string)
    | List(items: seq<Value>) | Dict(fields: map<string, Value>)

  /** v.get(key) on a dict; None also stands for "not a dict". */
  function Get(v: Value, key: string): Option<Value> {
    if v.Dict? && key in v.fields then Some(v.fields[key]) else None
  }

  function GetOr(v: Value, key: string, default: Value): Value {
    Get(v, key).GetOr(default)
  }

  /** bool(v). */
  predicate Truthy(v: Value) {
    match v
    case Null => false
    case Bool(b) => b
    case Num(n) => n != 0.0
    case Str(s) => s != ""
    case List(items) => items != []
    case Dict(fields) => fields != map[]
  }

  /** bool(v.get(key)). */
  predicate HasTruthy(v: Value, key: string) {
    Get(v, key).Some? && Truthy(Get(v, key).value)
  }
}
