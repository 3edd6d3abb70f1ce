/** The values `JSON.parse` produces and `JSON.stringify` consumes. The text
    encoding itself is not modelled: a frame is either text that fails to
    parse or one of these values. */
module Json {

  /** JSON numbers are restricted to integers: every number the core
      exchanges (counts, ports, millisecond instants) is integral. */
  datatype Json =
    | JNull
    | JBool(b: bool)
    | JNumber(n: int)
    | JString(str: string)
    | JArray(items: seq<Json>)
    | JObject(fields: map<string, Json>)
}
