/** The JSON scalars the helper and the plugin exchange, with the two runtimes'
    notions of truthiness and string conversion. */
module Values {
  import opened Text

  /** A JSON scalar. `Null` also stands for an absent key (Python's `dict.get`
      returns `None`, JavaScript reads `undefined`). */
  datatype Scalar = Null | Bool(b: bool) | Int(i: int) | Str(s: string)

  /** Truthiness, which Python (`if v`, `a or b`) and JavaScript (`v || d`, `filter(Boolean)`)
      agree on for these scalars: `None`/`null`, `False`, `0` and `""` are false. */
  predicate Truthy(v: Scalar) {
    match v
    case Null => false
    case Bool(b) => b
    case Int(i) => i != 0
    case Str(s) => s != ""
  }

  /** Python's `str(v)`. */
  function PyStr(v: Scalar): string {
    match v
    case Null => "None"
    case Bool(b) => if b then "True" else "False"
    case Int(i) => ShowInt(i)
    case Str(s) => s
  }

  /** JavaScript's `String(v)` and template interpolation `${v}`. */
  function JsStr(v: Scalar): string {
    match v
    case Null => "null"
    case Bool(b) => if b then "true" else "false"
    case Int(i) => ShowInt(i)
    case Str(s) => s
  }

  /** A JSON object with scalar members. */
  type JsonObject = map<string, Scalar>

  /** Member lookup: `o.get(k)` in Python, `o[k]` in JavaScript. */
  function Get(o: JsonObject, k: string): Scalar {
    if k in o then o[k] else Null
  }

  /** Python's `a or b` (and JavaScript's `a || b`): `a` when truthy, else `b`. */
  function Or(a: Scalar, b: Scalar): (r: Scalar)
    ensures Truthy(r) <==> Truthy(a) || Truthy(b)
    ensures r == a || r == b
  {
    if Truthy(a) then a else b
  }
}
