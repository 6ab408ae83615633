/**
 * The JSON-like dictionaries the Python services pass around: a fetched post, tweet, video or
 * feed entry is a map from field names to scalar values, read with `dict.get`, tested for
 * truthiness with `or`, and formatted into f-strings.
 */
module Values {
  import opened Wrappers
  import opened Text

  /** A scalar JSON value as Python sees it after decoding (floats are not modelled). */
  datatype Value = Null | Str(s: string) | Num(n: int)

  type Object = map<string, Value>

  /** `o.get(k)`: `None` when the key is missing. */
  function Get(o: Object, k: string): (v: Value)
    ensures k !in o ==> v == Null
    ensures k in o ==> v == o[k]
  {
    if k in o then o[k] else Null
  }

  /** `o.get(k, default)`: the default only when the key is missing, not when it holds `None`. */
  function GetOr(o: Object, k: string, default: Value): (v: Value)
    ensures k !in o ==> v == default
    ensures k in o ==> v == o[k]
  {
    if k in o then o[k] else default
  }

  /** Python truthiness: `None`, `""` and `0` are false. */
  predicate Truthy(v: Value) {
    match v
    case Null => false
    case Str(s) => s != ""
    case Num(n) => n != 0
  }

  /** `a or b`: the first operand when it is truthy, the second otherwise. */
  function Or(a: Value, b: Value): (r: Value)
    ensures Truthy(a) ==> r == a
    ensures !Truthy(a) ==> r == b
  {
    if Truthy(a) then a else b
  }

  /** `f"{v}"`: `None` prints as `None`, integers in decimal. */
  function Show(v: Value): (r: string)
    ensures v.Str? ==> r == v.s
    ensures v.Null? ==> r == "None"
  {
    match v
    case Null => "None"
    case Str(s) => s
    case Num(n) => IntToString(n)
  }

  /** A value on which `.lower()` and `in` work: only strings; anything else raises. */
  function AsText(v: Value): (r: Option<string>)
    ensures r.Some? <==> v.Str?
    ensures r.Some? ==> r.value == v.s
  {
    if v.Str? then Some(v.s) else None
  }
}
