/** The JSON value type the store keeps (serde_json's `Value`). */
module Json {

  /** A JSON value. An object maps string keys to values; numbers are kept
      as exact decimals. */
  datatype Value =
    | Object(fields: map<string, Value>)
    | Array(items: seq<Value>)
    | Str(text: string)
    | Num(number: real)
    | Bool(flag: bool)
    | Null

  /** A record: the only kind of value a collection may hold. */
  predicate IsRecord(v: Value) {
    v.Object?
  }
}
