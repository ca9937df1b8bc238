/** The decoded JSON values a webhook payload is built from. */
module JsonValues {

  /** One decoded JSON value. Numbers are kept as integers: the handler only
      passes them through or compares them with a string. */
  datatype Json =
    | JNull
    | JBool(b: bool)
    | JNumber(n: int)
    | JString(s: string)
    | JArray(items: seq<Json>)
    | JObject(fields: map<string, Json>)
}
