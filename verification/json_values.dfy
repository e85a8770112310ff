/** JSON values as the serializers, the admin forms and the HEROIC payloads handle
    them. Floating-point numbers are kept as their text: nothing here computes with them. */
module JsonValues {

  datatype Json =
    | JNull
    | JBool(b: bool)
    | JInt(i: int)
    | JNumber(text: string)
    | JStr(s: string)
    | JList(items: seq<Json>)
    | JObject(fields: map<string, Json>)
}
