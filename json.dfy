/**
 * Parsed JSON values and raw bytes. JSON text itself (JSON.parse and
 * JSON.stringify) is not implemented: the operations that need it take the
 * parser or the encoder as a function parameter.
 */
module Json {

  import opened Wrappers

  type Bytes = seq<bv8>

  /** A value as JSON.parse returns it (numbers restricted to integers). */
  datatype Json =
    | JNull
    | JBool(b: bool)
    | JNumber(n: int)
    | JString(s: string)
    | JArray(items: seq<Json>)
    | JObject(fields: map<string, Json>)

  /** Property access `obj[key]` on an object: None stands for `undefined`. */
  function Get(fields: map<string, Json>, key: string): (r: Option<Json>)
    ensures r.Some? <==> key in fields
    ensures r.Some? ==> r.value == fields[key]
  {
    if key in fields then Some(fields[key]) else None
  }
}
