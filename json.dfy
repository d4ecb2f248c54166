/** The decoded JSON values the plugin sends and receives. Numbers are integers only. */
module JsonData {

  datatype Json =
    | JNull
    | JBool(b: bool)
    | JNumber(n: int)
    | JString(str: string)
    | JArray(items: seq<Json>)
    | JObject(fields: map<string, Json>)
}
