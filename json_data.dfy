/** The JSON values `json.load` yields from config.json, with the two Python
    operations the application applies to them: truthiness (`if value:`) and
    `dict.get(key, default)`. */
module JsonData {

  /** A parsed JSON document. Numbers are modelled as integers only. */
  datatype Json =
    | JNull
    | JBool(b: bool)
    | JInt(i: int)
    | JStr(s: string)
    | JArr(items: seq<Json>)
    | JObj(fields: map<string, Json>)

  /** What reading config.json gives: the parsed document, or the message of
      the exception `open` or `json.load` raised. */
  datatype ConfigFile = Unreadable(message: string) | Parsed(doc: Json)

  /** Python truthiness: `None`, `False`, `0`, `""`, `[]` and `{}` are false. */
  predicate Truthy(v: Json) {
    match v
    case JNull => false
    case JBool(b) => b
    case JInt(i) => i != 0
    case JStr(s) => s != ""
    case JArr(items) => items != []
    case JObj(fields) => fields != map[]
  }

  /** `d.get(key, default)` on a dict. */
  function Get(d: map<string, Json>, key: string, default: Json): (v: Json)
    ensures key in d ==> v == d[key]
    ensures key !in d ==> v == default
  {
    if key in d then d[key] else default
  }

  /** Python's name for the type of a JSON value. */
  function TypeName(v: Json): string {
    match v
    case JNull => "NoneType"
    case JBool(_) => "bool"
    case JInt(_) => "int"
    case JStr(_) => "str"
    case JArr(_) => "list"
    case JObj(_) => "dict"
  }

  /** The message of the `AttributeError` that `.get` on a non-dict raises. */
  function NoGetMessage(v: Json): string {
    "'" + TypeName(v) + "' object has no attribute 'get'"
  }

  /** The keys of a dict other than `key` keep their values in `d'`. */
  ghost predicate OthersUnchanged(d: map<string, Json>, d': map<string, Json>, key: string) {
    && d'.Keys - {key} == d.Keys - {key}
    && forall k :: k in d && k != key ==> k in d' && d'[k] == d[k]
  }
}
