// Small shared types: optional values, error returns and JSON trees.
module Basics {
  datatype Option<+T> = None | Some(value: T)

  datatype Result<+T, +E> = Ok(value: T) | Err(error: E)

  /** A value of Go's `any`, seen through its JSON form. */
  datatype Json =
    | Null
    | Bool(b: bool)
    | Num(n: real)
    | Str(s: string)
    | Arr(items: seq<Json>)
    | Obj(fields: map<string, Json>)

  type JsonMap = map<string, Json>

  /** A type assertion `v, _ := m[key].(string)`: the zero value unless a string is stored. */
  function StringAt(m: JsonMap, key: string): string {
    if key in m && m[key].Str? then m[key].s else ""
  }

  /** A type assertion `v, _ := m[key].(map[string]any)`, with a nil map read as empty. */
  function ObjectAt(m: JsonMap, key: string): JsonMap {
    if key in m && m[key].Obj? then m[key].fields else map[]
  }
}
