/**
 * The handful of PHP value semantics the client relies on: the shape of a
 * value, its truthiness (what `?:` and `if (!$x)` test) and the silenced
 * array read `@$a['key']`, which yields null for a missing key.
 */
module PhpValues {

  /** A PHP value. Arrays are string-keyed, as the option arrays are. */
  datatype Value =
    | Null
    | Bool(b: bool)
    | Int(i: int)
    | Str(s: string)
    | Arr(entries: map<string, Value>)

  /** PHP's conversion to bool: null, false, 0, "", "0" and [] are false. */
  predicate Truthy(v: Value): (truthy: bool)
    ensures !truthy <==> v in {Null, Bool(false), Int(0), Str(""), Str("0"), Arr(map[])}
  {
    match v
    case Null => false
    case Bool(b) => b
    case Int(i) => i != 0
    case Str(s) => s != "" && s != "0"
    case Arr(entries) => |entries| > 0
  }

  /** `@$a[key]`: the entry when present, null (with the notice silenced) otherwise. */
  function Lookup(a: map<string, Value>, key: string): (v: Value)
    ensures key in a ==> v == a[key]
    ensures key !in a ==> v == Null
  {
    if key in a then a[key] else Null
  }
}
