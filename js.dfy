/** The JavaScript values the proxy receives from `JSON.parse`, and the
    string conversion that template literals and regular expressions apply. */
module Js {
  import opened Wrappers

  /** A value produced by `JSON.parse`. Numbers are kept exact. */
  datatype Json =
    | JNull
    | JBool(b: bool)
    | JNumber(n: real)
    | JString(s: string)
    | JArray(elems: seq<Json>)
    | JObject(fields: map<string, Json>)

  /** Reads property `key` of a value that is not `null`: an own field of an
      object, and `undefined` (None) for a missing field or any other kind of
      value. Reading a property of `null` throws, so callers check for it first. */
  function Get(v: Json, key: string): Option<Json>
    requires !v.JNull?
  {
    if v.JObject? && key in v.fields then Some(v.fields[key]) else None
  }

  /** The text JavaScript makes of a string that may be `undefined`
      (`${x}` in a template literal, or the argument of `RegExp.test`). */
  function ToJsString(v: Option<string>): string {
    match v
    case Some(s) => s
    case None => "undefined"
  }
}
