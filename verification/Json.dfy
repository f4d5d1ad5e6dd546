/** JSON values as `serde_json::Value` presents them to the gateway. The reader and the writer
    are parameters: a `Codec` bundles them. */
module Json {
  import opened Wrappers

  datatype Json =
    | Null
    | Bool(b: bool)
    | Uint(n: nat)            // an integer that fits u64
    | Number(text: string)    // any other number
    | Str(s: string)
    | Arr(items: seq<Json>)
    | Obj(fields: map<string, Json>)
  {
    function Get(key: string): Option<Json> {
      if Obj? && key in fields then Some(fields[key]) else None
    }

    function AsStr(): Option<string> {
      if Str? then Some(s) else None
    }

    function AsU64(): Option<nat> {
      if Uint? then Some(n) else None
    }
  }

  function GetIn(j: Option<Json>, key: string): Option<Json> {
    if j.Some? then j.value.Get(key) else None
  }

  function StrIn(j: Option<Json>): Option<string> {
    if j.Some? then j.value.AsStr() else None
  }

  function U64In(j: Option<Json>): Option<nat> {
    if j.Some? then j.value.AsU64() else None
  }

  datatype Codec = Codec(parse: string -> Option<Json>, render: Json -> string)
}
