/** Python values as the service meets them: what `json.loads` returns, the entries of a
    plan dictionary, the metrics dictionaries of a scraping run. */
module Values {
  import opened Wrappers

  datatype Value =
    | Null
    | Bool(b: bool)
    | Int(i: int)
    | Float(f: real)
    | Str(s: string)
    | List(items: seq<Value>)
    | Dict(fields: map<string, Value>)

  /** `bool(v)`: Python's truth value. The falsy values are exactly `None`, `False`, the
      zeros, and the empty string, list and dictionary. */
  predicate Truthy(v: Value)
    ensures !Truthy(v) <==> v in {Null, Bool(false), Int(0), Float(0.0), Str(""), List([]), Dict(map[])}
  {
    match v
    case Null => false
    case Bool(b) => b
    case Int(i) => i != 0
    case Float(f) => f != 0.0
    case Str(s) => s != ""
    case List(items) => items != []
    case Dict(fields) => fields != map[]
  }

  /** `type(v).__name__`, as it appears in the text of a TypeError or AttributeError. */
  function TypeName(v: Value): string {
    match v
    case Null => "NoneType"
    case Bool(_) => "bool"
    case Int(_) => "int"
    case Float(_) => "float"
    case Str(_) => "str"
    case List(_) => "list"
    case Dict(_) => "dict"
  }

  /** `d.get(key)`: a missing key and a key bound to `None` both give `None`. */
  function Get(d: map<string, Value>, key: string): (r: Option<Value>)
    ensures r.Some? <==> key in d && d[key] != Null
    ensures r.Some? ==> r.value == d[key]
  {
    if key in d && d[key] != Null then Some(d[key]) else None
  }
}
