/** JSON-shaped values: the records the portal keeps in its JSON stores and in the
    session state are dictionaries from field names to these values. */
module Json {

  datatype Option<+T> = None | Some(value: T)

  /** The JSON values the stores hold. `Null` is also what a dictionary lookup
      with `.get(key)` yields for a missing key. */
  datatype Value =
    | Null
    | Bool(b: bool)
    | Num(n: int)
    | Str(s: string)
    | StrList(items: seq<string>)

  /** A JSON object, i.e. a dictionary from field names to values. */
  type Record = map<string, Value>

  /** `r.get(key)`: the stored value, or `Null` when the key is absent. */
  function Get(r: Record, key: string): (v: Value)
    ensures key in r ==> v == r[key]
    ensures key !in r ==> v == Null
  {
    if key in r then r[key] else Null
  }

  /** `r.get(key, default)`. */
  function GetOr(r: Record, key: string, default: Value): (v: Value)
    ensures key in r ==> v == r[key]
    ensures key !in r ==> v == default
  {
    if key in r then r[key] else default
  }

  /** The text of a string field, or `default` when the field is absent or not a string. */
  function GetText(r: Record, key: string, default: string): string
  {
    if key in r && r[key].Str? then r[key].s else default
  }

  /** Python truthiness of a JSON value. */
  predicate Truthy(v: Value)
  {
    match v
    case Null => false
    case Bool(b) => b
    case Num(n) => n != 0
    case Str(s) => s != ""
    case StrList(items) => items != []
  }

  /** `not r.get(key)`: the field is missing or holds a falsy value. */
  predicate Blank(r: Record, key: string)
  {
    !Truthy(Get(r, key))
  }

  /** `d.get(key, default)` on a dictionary of integer amounts. */
  function Amount(d: map<string, int>, key: string, default: int): int
  {
    if key in d then d[key] else default
  }
}
