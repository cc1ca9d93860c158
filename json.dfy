/**
 * Parsed JSON bodies as Python holds them after `response.json()`: `None`,
 * booleans, integers, strings, lists and dicts. Floats are not modelled.
 */
module JsonValues {
  import Strings

  datatype Json =
    | JNull
    | JBool(b: bool)
    | JNum(n: int)
    | JStr(s: string)
    | JArr(items: seq<Json>)
    | JObj(fields: map<string, Json>)

  /** Python truthiness: `None`, `False`, `0`, `""`, `[]` and `{}` are false. */
  predicate Truthy(j: Json) {
    match j
    case JNull => false
    case JBool(b) => b
    case JNum(n) => n != 0
    case JStr(s) => s != ""
    case JArr(items) => items != []
    case JObj(fields) => fields != map[]
  }

  /** `d.get(key, default)` on a dict. */
  function Get(fields: map<string, Json>, key: string, default: Json): (v: Json)
    ensures key in fields ==> v == fields[key]
    ensures key !in fields ==> v == default
  {
    if key in fields then fields[key] else default
  }

  /**
   * `str(j)` as an f-string inserts it: strings as they are, numbers in decimal,
   * `None`/`True`/`False` by name. Lists and dicts get a fixed placeholder
   * instead of Python's `repr`.
   */
  function Show(j: Json): string {
    match j
    case JNull => "None"
    case JBool(b) => if b then "True" else "False"
    case JNum(n) => Strings.IntToString(n)
    case JStr(s) => s
    case JArr(_) => "[...]"
    case JObj(_) => "{...}"
  }

  /** A one-entry body `{"message": m}`. */
  function MessageBody(m: Json): Json {
    JObj(map["message" := m])
  }
}
