/**
  JSON values as `json.load` decodes them, and the Python dictionary
  operations the schedule processor applies to a decoded record.
 */
module Json {
  import opened Wrappers

  /** A decoded JSON value. Numbers are restricted to integers. */
  datatype Value =
    | Null
    | Bool(b: bool)
    | Num(n: int)
    | Str(s: string)
    | Arr(items: seq<Value>)
    | Obj(members: map<string, Value>)

  /** A schedule record: the JSON object held in one schedule file. */
  type Record = map<string, Value>

  /** Python truthiness of a decoded value: `None`, `False`, `0`, `""`, `[]` and `{}` are falsy. */
  predicate Truthy(v: Value)
  {
    match v
    case Null => false
    case Bool(b) => b
    case Num(n) => n != 0
    case Str(s) => s != ""
    case Arr(items) => items != []
    case Obj(m) => m != map[]
  }

  /** `record.get(key)`: `None` when the key is absent. */
  function Get(r: Record, key: string): Option<Value>
  {
    if key in r then Some(r[key]) else None
  }

  /** `record.get(key, default)`. */
  function GetOr(r: Record, key: string, default: Value): Value
  {
    if key in r then r[key] else default
  }

  /** Truthiness of `record.get(key)`; an absent key yields `None`, which is falsy. */
  predicate GetTruthy(r: Record, key: string)
  {
    key in r && Truthy(r[key])
  }
}
