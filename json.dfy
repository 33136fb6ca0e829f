/** The values a decoded JSON document (a Python `dict` of plain values) can hold. */
module JsonValues {

  datatype Json =
    | JNull
    | JBool(b: bool)
    | JInt(i: int)
    | JStr(s: string)
    | JArray(items: seq<Json>)
    | JObject(fields: map<string, Json>)

  /** A decoded request body, as handed to a handler's constructor. */
  type Raw = map<string, Json>
}
