/**
 * JSON values as the dashboard receives them from the feed and the REST API.
 * Numbers are integers (floating point is not modelled), an object is a map
 * from field name to value and an absent field is a key missing from the map.
 */
module Json {
  import opened Wrappers

  datatype Json =
    | JNull
    | JBool(b: bool)
    | JNum(n: int)
    | JStr(s: string)
    | JArr(items: seq<Json>)
    | JObj(fields: Record)

  /** A plain JavaScript object; `{...a, ...b}` is `a + b`. */
  type Record = map<string, Json>

  /** JavaScript truthiness of a present value (objects and arrays are always truthy). */
  predicate Truthy(j: Json) {
    match j
    case JNull => false
    case JBool(b) => b
    case JNum(n) => n != 0
    case JStr(s) => s != ""
    case JArr(_) => true
    case JObj(_) => true
  }

  /** `r[k]` is present and truthy (`undefined` is falsy). */
  predicate FieldTruthy(r: Record, k: string) {
    k in r && Truthy(r[k])
  }

  /** Reads field `k` of a value that may not be an object: `v?.k`. */
  function Field(v: Json, k: string): Option<Json> {
    if v.JObj? && k in v.fields then Some(v.fields[k]) else None
  }
}
