/** JSON values as the inventory tool sees them after `json.load`, and the
    records ("goods") it keeps: a good is a JSON object, a map from field
    names to values. */
module Json {

  datatype Option<+T> = None | Some(value: T)

  /** A parsed JSON value. Python's int and float both arrive as `Num`;
      `Bool` is kept apart because a JSON Schema "number" excludes booleans. */
  datatype Json =
    | Null
    | Bool(b: bool)
    | Num(n: real)
    | Str(s: string)
    | Arr(items: seq<Json>)
    | Obj(fields: map<string, Json>)

  /** Python's `dict.get(key, default)`. */
  function Get(fields: map<string, Json>, key: string, default: Json): Json
  {
    if key in fields then fields[key] else default
  }
}
