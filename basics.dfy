/** Value types shared by every part of the model. */
module Basics {

  /** A value that may be absent: a missing request field, a key that is not stored. */
  datatype Option<+T> = None | Some(value: T)

  /** One octet of a request body or of a stored object. */
  newtype byte = x: int | 0 <= x < 256

  /** A JSON value as JSON.parse produces it and JSON.stringify consumes it
      (numbers are limited to integers; object members keep their insertion order). */
  datatype Json =
    | JNull
    | JBool(b: bool)
    | JNumber(n: int)
    | JString(s: string)
    | JArray(items: seq<Json>)
    | JObject(members: seq<(string, Json)>)
}
