/**
 * The JSON-shaped values the repository stores in `raw_data` / `raw_json` and
 * receives from the Marketcheck API, with the Python operations the core applies
 * to them: truthiness, `dict.get` and `str(...)`.
 */
module PyJson {
  import opened Text

  /** A decoded JSON value; `JFloat` is a number written with a fraction, kept as an exact value. */
  datatype Json =
    | JNull
    | JBool(b: bool)
    | JInt(i: int)
    | JFloat(f: real)
    | JStr(s: string)
    | JList(items: seq<Json>)
    | JObj(fields: map<string, Json>)

  /** Python truthiness: `None`, `False`, `0`, `""`, `[]` and `{}` are false. */
  predicate Truthy(j: Json) {
    match j
    case JNull => false
    case JBool(b) => b
    case JInt(i) => i != 0
    case JFloat(f) => f != 0.0
    case JStr(s) => s != []
    case JList(xs) => xs != []
    case JObj(m) => |m| != 0
  }

  /** `d.get(key, default)`. */
  function Get(d: map<string, Json>, key: string, default: Json): Json {
    if key in d then d[key] else default
  }

  /**
   * `str(v)` for the scalar values, a whole float as `N.0`; other floats and
   * containers are rendered as the empty text.
   */
  function PyStr(j: Json): string {
    match j
    case JNull => "None"
    case JBool(b) => if b then "True" else "False"
    case JInt(i) => IntToString(i)
    case JFloat(f) => if f == f.Floor as real then IntToString(f.Floor) + ".0" else ""
    case JStr(s) => s
    case JList(_) => ""
    case JObj(_) => ""
  }
}
