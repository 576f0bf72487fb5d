/** JSON values as `JSON.parse` produces them. The parser itself is not part
    of this model: the decoder is given it as a function, `None` standing for
    the `SyntaxError` that `JSON.parse` throws. */
module JsonValue {

  datatype Option<+T> = None | Some(value: T)

  datatype Json =
    | JNull
    | JBool(b: bool)
    | JNumber(n: real)
    | JString(s: string)
    | JArray(elements: seq<Json>)
    | JObject(members: seq<(string, Json)>)

  /** ECMAScript falsiness of a parsed value: `null`, `false`, `0` and `""`. */
  predicate IsFalsy(v: Json) {
    v == JNull || v == JBool(false) || (v.JNumber? && v.n == 0.0) || v == JString("")
  }
}
