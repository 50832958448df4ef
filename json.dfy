/**
 * JSON documents as `json.load` returns them, and the library functions the
 * parser calls (`json.load`, `json.dumps`, `float`), taken as given.
 */
module Json {
  import opened Wrappers

  datatype Json =
    | JNull
    | JBool(b: bool)
    | JNumber(n: real)
    | JString(s: string)
    | JArray(items: seq<Json>)
    | JObject(fields: map<string, Json>)

  /**
   * The library functions the parser relies on: `loads` is `json.load` on a
   * file's text (`None` when it raises), `dumps` is `json.dumps`, and
   * `toFloat` is `float()` on a string (`None` when it raises).
   */
  datatype Codec = Codec(
    loads: string -> Option<Json>,
    dumps: Json -> string,
    toFloat: string -> Option<real>)
}
