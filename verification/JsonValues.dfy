/** JSON values as they arrive in a request or sit in a metadata column.
    Numerals are integers: non-integral numerals are not part of this model. */
module JsonValues {
  datatype Json =
    | Null
    | Bool(flag: bool)
    | Num(n: int)
    | Str(text: string)
    | Arr(items: seq<Json>)
    | Obj(members: map<string, Json>)
}
