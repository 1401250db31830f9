/** The JSON values the client sees after json.Unmarshal into `any`:
    null, bool, float64 (kept opaque here), string, []any and map[string]any. */
module JsonModel {

  datatype Json =
    | JNull
    | JBool(b: bool)
    | JNumber(n: real)
    | JString(s: string)
    | JArray(elems: seq<Json>)
    | JObject(fields: map<string, Json>)

  /** Go's `m[key]` on a map[string]any holding decoded JSON yields nil both
      for a missing key and for a JSON null. */
  predicate IsNil(o: map<string, Json>, key: string)
  {
    key !in o || o[key] == JNull
  }
}
