/** JSON documents as the HTTP client library hands them back after decoding
    a response body, and Python's notion of which of them are "truthy". */
module JsonValues {

  /** A decoded JSON document. Numbers are kept as integers (see README). */
  datatype Json =
    | Null
    | Bool(b: bool)
    | Number(n: int)
    | String(s: string)
    | Array(items: seq<Json>)
    | Object(fields: map<string, Json>)

  /** A JSON object as Python sees it after decoding: a dict keyed by strings. */
  type Dict = map<string, Json>

  /** Python truthiness of a decoded value: `null`, `false`, `0`, `""`, `[]`
      and `{}` are falsy, everything else is truthy. */
  predicate Truthy(v: Json)
  {
    match v
    case Null => false
    case Bool(b) => b
    case Number(n) => n != 0
    case String(s) => s != ""
    case Array(items) => items != []
    case Object(fields) => fields != map[]
  }

  /** The test `data and isinstance(data, dict)` that a decoded body must pass
      to be handed back to the caller: it holds exactly of non-empty objects. */
  predicate IsUsableDict(v: Json)
    ensures IsUsableDict(v) <==> v.Object? && v.fields != map[]
  {
    Truthy(v) && v.Object?
  }
}
