/** The values a recipe (a JSON-decoded dict) holds, as far as the core looks at them. */
module Values {
  import opened PyStrings

  /**
   * A recipe value. Strings, integers, booleans and None are modelled exactly;
   * every other object (lists, nested dicts, floats) is carried only by what
   * the core asks of it: its `str()` text and its truth value.
   */
  datatype Value =
    | Str(s: string)
    | Int(i: int)
    | Bool(b: bool)
    | NoneVal
    | Other(shown: string, truthy: bool)

  /** Python truthiness. */
  predicate Truthy(v: Value) {
    match v
    case Str(s) => s != []
    case Int(i) => i != 0
    case Bool(b) => b
    case NoneVal => false
    case Other(_, t) => t
  }

  /** `str(v)`, as an f-string formats it. */
  function Show(v: Value): (r: string)
    ensures v.Str? ==> r == v.s
  {
    match v
    case Str(s) => s
    case Int(i) => IntToString(i)
    case Bool(b) => if b then "True" else "False"
    case NoneVal => "None"
    case Other(shown, _) => shown
  }

  /** A recipe: the dict of placeholder names to values. */
  type Recipe = map<string, Value>

  /** `d.get(key, "")`. */
  function GetOrEmpty(d: Recipe, key: string): (v: Value)
    ensures key in d ==> v == d[key]
    ensures key !in d ==> v == Str("")
  {
    if key in d then d[key] else Str("")
  }
}
