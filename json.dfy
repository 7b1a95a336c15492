/** The JSON values a request body can carry, and Python's notion of a "falsy" value. */
module Json {

  /** Numbers are integers only: floating point is not modelled. */
  datatype JsonValue =
    | JNull
    | JBool(b: bool)
    | JNum(n: int)
    | JStr(s: string)
    | JList(items: seq<JsonValue>)
    | JObject(fields: map<string, JsonValue>)

  /** `bool(v)` in Python: null, false, 0, "", [] and {} are falsy, everything else is truthy. */
  predicate Truthy(v: JsonValue)
  {
    match v
    case JNull => false
    case JBool(b) => b
    case JNum(n) => n != 0
    case JStr(s) => s != ""
    case JList(items) => items != []
    case JObject(fields) => fields != map[]
  }

  /** `data.get(key)` on a JSON object: a missing key reads as `None`, i.e. JSON null. */
  function Get(fields: map<string, JsonValue>, key: string): (v: JsonValue)
    ensures key !in fields ==> !Truthy(v)
    ensures key in fields ==> v == fields[key]
  {
    if key in fields then fields[key] else JNull
  }
}
