/**
 * The shape of a parsed JSON value, as far as the site's validators look at
 * it, and JavaScript's truthiness on it.  Parsing itself is an oracle: the
 * model takes what `JSON.parse` / `json.loads` returned, never the text.
 */
module Json {
  import opened Text

  datatype Json =
    | JNull
    | JBool(b: bool)
    | JNum(n: int)
    | JStr(s: string)
    | JArr(items: seq<Json>)
    | JObj(fields: map<string, Json>)

  /** `!!v` in JavaScript. */
  predicate Truthy(j: Json) {
    match j
    case JNull => false
    case JBool(b) => b
    case JNum(n) => n != 0
    case JStr(s) => s != []
    case _ => true
  }

  /** `o[key]` on a parsed object; `None` is `undefined`. */
  function Get(j: Json, key: string): Option<Json> {
    if j.JObj? && key in j.fields then Some(j.fields[key]) else None
  }

  /** The string held under `key`, when there is one. */
  function GetStr(j: Json, key: string): Option<string> {
    match Get(j, key)
    case Some(JStr(s)) => Some(s)
    case _ => None
  }

  /** `String(n)` for an integer. */
  function IntToString(n: int): string {
    if n >= 0 then NatToString(n) else "-" + NatToString(-n)
  }

  /**
   * `String(v)`, which is what `RegExp.prototype.test` applies to a
   * non-string argument: arrays join their elements' texts with ',' (null
   * elements giving ''), plain objects give "[object Object]".
   */
  function JsToString(j: Json): string {
    match j
    case JNull => "null"
    case JBool(b) => if b then "true" else "false"
    case JNum(n) => IntToString(n)
    case JStr(s) => s
    case JArr(items) =>
      Join(seq(|items|, i requires 0 <= i < |items| => if items[i].JNull? then [] else JsToString(items[i])), ",")
    case JObj(_) => "[object Object]"
  }
}
