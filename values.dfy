/**
 * The dynamically typed values that flow through the configuration store,
 * the plugin registry and the parsing helpers, with Python's truthiness and
 * `str()`/`repr()` for them.
 */
module PyValues {
  import opened Text

  /** A Python value: `None`, a bool, an int, a str, a list, or any other object (shown by its `str()`). */
  datatype Value =
    | Null
    | Bool(b: bool)
    | Int(i: int)
    | Str(s: string)
    | List(items: seq<Value>)
    | Obj(text: string)

  /** Python's `bool(v)`: `None`, `False`, `0`, `''` and `[]` are false; everything else is true. */
  predicate Truthy(v: Value) {
    match v
    case Null => false
    case Bool(b) => b
    case Int(i) => i != 0
    case Str(s) => s != ""
    case List(items) => items != []
    case Obj(_) => true
  }

  /** Whether the value can be a dict key: a list cannot (`TypeError: unhashable type`). */
  predicate Hashable(v: Value) {
    !v.List?
  }

  /** Python's `repr(v)`; string escapes are not modelled. */
  function PyRepr(v: Value): string
    decreases v, 1
  {
    if v.Str? then "'" + v.s + "'" else PyStr(v)
  }

  /** Python's `str(v)`. */
  function PyStr(v: Value): string
    decreases v, 0
  {
    match v
    case Null => "None"
    case Bool(b) => if b then "True" else "False"
    case Int(i) => IntToDecimal(i)
    case Str(s) => s
    case List(items) => "[" + Join(seq(|items|, i requires 0 <= i < |items| => PyRepr(items[i])), ", ") + "]"
    case Obj(text) => text
  }
}
