/** JSON values as the server holds them after `JSON.parse`, and the two
    JavaScript operations applied to them: reading a named field and the
    `||` default operator. `None` of an `Option<Json>` stands for `undefined`. */
module Json {
  import opened Wrappers

  datatype Json =
    | JNull
    | JBool(b: bool)
    | JNum(n: real)
    | JStr(s: string)
    | JArr(items: seq<Json>)
    | JObj(fields: map<string, Json>)

  /** JavaScript truthiness: `undefined`, `null`, `false`, `0` and `""` are
      falsy (`JSON.parse` never yields NaN); every array and object is truthy. */
  predicate Truthy(v: Option<Json>) {
    match v
    case None => false
    case Some(JNull) => false
    case Some(JBool(b)) => b
    case Some(JNum(n)) => n != 0.0
    case Some(JStr(s)) => s != ""
    case Some(_) => true
  }

  /** `v || d`: the left operand when it is truthy, otherwise the default. */
  function Or(v: Option<Json>, d: Json): (r: Json)
    ensures Truthy(v) ==> Some(r) == v
    ensures !Truthy(v) ==> r == d
  {
    if Truthy(v) then v.value else d
  }

  /** `v.name` for a field name that no built-in prototype defines (here
      `severity`, `confidence`, `method`): an object's own field, otherwise
      `undefined`. Reading a field of `null` throws, so callers rule it out. */
  function OwnField(v: Json, name: string): (r: Option<Json>)
    requires !v.JNull?
    ensures r.Some? <==> v.JObj? && name in v.fields
    ensures r.Some? ==> r.value == v.fields[name]
  {
    if v.JObj? && name in v.fields then Some(v.fields[name]) else None
  }
}
