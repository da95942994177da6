/**
 * A value as `JSON.parse` (TypeScript scripts) and `json.load` (Python
 * scripts) deliver it. Only integral numbers are modelled.
 */
module Json {

  datatype Value =
    | JNull
    | JBool(b: bool)
    | JNum(n: int)
    | JStr(s: string)
    | JArray(items: seq<Value>)
    | JObject(fields: map<string, Value>)
}
