// The order-preserving JSON value model shared by the api files (api/tool_calling.go,
// api/anthropic_stream.go): objects keep their members in source order, duplicates and all.
module JsonValue {
  import opened Wrappers

  // A number keeps its literal.
  datatype Json =
    | Object(members: seq<Member>)
    | Array(items: seq<Json>)
    | String(s: string)
    | Number(literal: string)
    | Bool(b: bool)
    | Null

  datatype Member = Member(key: string, value: Json)

  // The first member with this key.
  function GetField(v: Json, key: string): Option<Json> {
    if v.Object? then FirstField(v.members, key) else None
  }

  function FirstField(members: seq<Member>, key: string): Option<Json> {
    if members == [] then None
    else if members[0].key == key then Some(members[0].value)
    else FirstField(members[1..], key)
  }

  function GetString(v: Json, key: string): string {
    var f := GetField(v, key);
    if f.Some? && f.value.String? then f.value.s else ""
  }

  predicate HasField(v: Json, key: string) {
    GetField(v, key).Some?
  }
}
