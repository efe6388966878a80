/** The JSON documents that Express hands the controllers as `req.body` and that the
    document store keeps as items, with JavaScript's truthiness and object spread. */
module Json {
  import opened Wrappers

  /** A JSON value. Numbers are integers here; fractions do not matter to any decision of the core. */
  datatype Value =
    | Null
    | Bool(b: bool)
    | Num(n: int)
    | Str(s: string)
    | Arr(items: seq<Value>)
    | Obj(fields: map<string, Value>)

  /** A JSON object: attribute name to value. `{...a, ...b}` is `a + b` (later attributes win). */
  type Object = map<string, Value>

  /** `JSON.parse`: `None` when it throws. */
  type Parser = string -> Option<Value>

  /** `!!v` in JavaScript for a value that came from JSON. */
  predicate Truthy(v: Value) {
    match v
    case Null => false
    case Bool(b) => b
    case Num(n) => n != 0
    case Str(s) => s != ""
    case Arr(_) => true
    case Obj(_) => true
  }

  /** `o[k]`, with `None` for `undefined`. */
  function Get(o: Object, k: string): Option<Value> {
    if k in o then Some(o[k]) else None
  }

  /** `!!o[k]`: present and truthy. */
  predicate HasTruthy(o: Object, k: string) {
    k in o && Truthy(o[k])
  }
}
