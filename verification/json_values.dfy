// JSON values. Objects are maps: two objects are equal when they have the same keys and values, in whatever order.

module JsonValues {
  import opened CelTokenizer
  import opened CelParser

  type Fields = map<Text, Json>

  datatype Json =
    | JNull
    | JBool(b: bool)
    | JNum(n: Num)
    | JStr(text: Text)
    | JArr(items: seq<Json>)
    | JObj(fields: Fields)
}
