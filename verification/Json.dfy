/** JSON documents as the harness sees them after `json.loads`: the values, `dict.get`, and Python's `==`. */
module Json {

  datatype Value =
    | Null
    | Bool(b: bool)
    | Integer(n: int)
    | Float(x: real)
    | Text(s: string)
    | List(items: seq<Value>)
    | Object(fields: Fields)

  type Fields = map<string, Value>

  /** `fields.get(name)`: an absent field reads as null. */
  function Get(fields: Fields, name: string): Value {
    if name in fields then fields[name] else Null
  }

  /** Python compares `True == 1` and `1 == 1.0`; everything else is compared by shape. */
  function Comparable(v: Value): Value {
    match v
    case Bool(b) => Float(if b then 1.0 else 0.0)
    case Integer(n) => Float(n as real)
    case List(items) => List(seq(|items|, i requires 0 <= i < |items| => Comparable(items[i])))
    case Object(fields) => Object(map k | k in fields :: Comparable(fields[k]))
    case _ => v
  }

  /** Python's `==` on decoded JSON. */
  predicate PyEq(a: Value, b: Value) {
    Comparable(a) == Comparable(b)
  }

  /** Lists and dictionaries cannot be set members or dictionary keys in Python. */
  predicate Hashable(v: Value) {
    !v.List? && !v.Object?
  }
}
