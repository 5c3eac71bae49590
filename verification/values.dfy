/** Python's dynamically typed values (`Any`, JSON-like payloads, YAML documents), as far
    as the source inspects them: `None`, booleans, numbers, strings, lists and dicts with
    string keys. */
module PyValues {
  import opened Dicts

  datatype Value =
    | VNone
    | VBool(b: bool)
    | VInt(i: int)
    | VFloat(r: real)
    | VStr(s: string)
    | VList(items: seq<Value>)
    | VDict(entries: Dict<Value>)

  /** Python truthiness (`bool(v)`). */
  predicate Truthy(v: Value)
  {
    match v
    case VNone => false
    case VBool(b) => b
    case VInt(i) => i != 0
    case VFloat(r) => r != 0.0
    case VStr(s) => s != []
    case VList(items) => items != []
    case VDict(entries) => entries != []
  }

  /** Python's `str(v)`: a string is itself; `show` renders every other value. */
  function Str(v: Value, show: Value -> string): string
  {
    if v.VStr? then v.s else show(v)
  }

  /** Values that can be a dict key (`hash(v)` does not raise). */
  predicate Hashable(v: Value)
  {
    !v.VList? && !v.VDict?
  }
}
