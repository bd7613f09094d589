/** JSON values as the package sees them after `json.load` / `Response.json()`. */
module Json {

  datatype Json =
    | JNull
    | JBool(b: bool)
    | JNum(n: real)
    | JStr(s: string)
    | JArr(items: seq<Json>)
    | JObj(fields: map<string, Json>)

  /** A JSON object, the shape of every `@graph` node. */
  type Node = map<string, Json>

  /** Python's `d.get(key)`: the value, or `None` when the key is absent. */
  function Get(n: Node, key: string): (v: Json)
    ensures key !in n ==> v == JNull
    ensures key in n ==> v == n[key]
  {
    if key in n then n[key] else JNull
  }
}
