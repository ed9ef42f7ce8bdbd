/** JSON values; an integer and a float are different numbers, as they are for the runtime. */
module JsonValues {
  datatype Json =
    | Null
    | Bool(b: bool)
    | Integer(n: int)
    | Float(digits: string)
    | Str(s: string)
    | Array(items: seq<Json>)
    | Object(fields: map<string, Json>)
}
