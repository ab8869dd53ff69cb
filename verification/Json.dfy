/**
 JSON values as `serde_json::Value` holds them. Objects are maps: the repository builds
 serde_json without `preserve_order`, so an object has one entry per key and no order of its own.
 */
module Json {
  import opened Prelude

  datatype Json =
    | Null
    | Bool(b: bool)
    | Num(n: real)
    | Str(s: string)
    | Arr(items: seq<Json>)
    | Obj(fields: map<string, Json>)

  /** `Value::get` on a key: only objects have entries. */
  function Get(value: Json, key: string): Option<Json> {
    if value.Obj? && key in value.fields then Some(value.fields[key]) else None
  }

  function AsBool(value: Option<Json>): Option<bool> {
    if value.Some? && value.value.Bool? then Some(value.value.b) else None
  }
}
