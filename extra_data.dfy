/** JSON values stored in the `extra_data` dictionaries of review objects. */
module ExtraData {

  datatype Value = Null | Bool(b: bool) | Int(i: int) | Str(s: string) | List(items: seq<Value>)

  /** Python truthiness of a stored value. */
  predicate Truthy(v: Value) {
    match v
    case Null => false
    case Bool(b) => b
    case Int(i) => i != 0
    case Str(s) => s != ""
    case List(items) => items != []
  }

  /** `extra_data.get(key)`: the stored value, or None when the key is absent. */
  function Get(extraData: map<string, Value>, key: string): Value {
    if key in extraData then extraData[key] else Null
  }
}
