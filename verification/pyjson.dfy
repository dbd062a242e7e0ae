/** Decoded JSON documents as the Python code sees them after
    `response.json()`, together with the bits of Python semantics the code
    leans on: truthiness, `dict.get`, hashability, and the messages of the
    exceptions raised when a document has an unexpected shape. */
module PyJson {

  /** A decoded JSON value. Numbers are integers only. */
  datatype Json =
    | JNull
    | JBool(b: bool)
    | JNum(n: int)
    | JStr(s: string)
    | JArr(items: seq<Json>)
    | JObj(fields: map<string, Json>)

  /** An HTTP reply: status code and body text. */
  datatype HttpResponse = HttpResponse(status: nat, text: string)

  /** Python's `bool(v)`. */
  predicate Truthy(v: Json) {
    match v
    case JNull => false
    case JBool(b) => b
    case JNum(n) => n != 0
    case JStr(s) => |s| != 0
    case JArr(items) => |items| != 0
    case JObj(fields) => |fields| != 0
  }

  /** Lists and dicts cannot be dictionary keys. */
  predicate Hashable(v: Json) {
    !v.JArr? && !v.JObj?
  }

  /** `type(v).__name__`. */
  function TypeName(v: Json): string {
    match v
    case JNull => "NoneType"
    case JBool(_) => "bool"
    case JNum(_) => "int"
    case JStr(_) => "str"
    case JArr(_) => "list"
    case JObj(_) => "dict"
  }

  /** `d.get(key, default)` on a dict. */
  function GetOr(fields: map<string, Json>, key: string, default: Json): Json {
    if key in fields then fields[key] else default
  }

  /** Message of the `AttributeError` raised by `v.attr` on a value that
      lacks the method. */
  function NoAttribute(v: Json, attr: string): string {
    "'" + TypeName(v) + "' object has no attribute '" + attr + "'"
  }

  /** Message of the `TypeError` raised when an unhashable value is used
      as a dictionary key. */
  function UnhashableType(v: Json): string {
    "unhashable type: '" + TypeName(v) + "'"
  }
}
