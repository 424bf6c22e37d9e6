/** JSON values as the Python `json` module decodes them. */
module Json {

  datatype Json =
    | JNull
    | JBool(b: bool)
    | JInt(i: int)
    /** A number with a fraction or an exponent, which `json` decodes as a
        float. */
    | JReal(r: real)
    | JStr(s: string)
    | JList(items: seq<Json>)
    | JObj(fields: map<string, Json>)
}
