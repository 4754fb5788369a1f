/**
 * JSON values as the screens see them after `JSON.parse`, with the JavaScript
 * notions the code relies on: truthiness, optional chaining and template-literal text.
 */
module Json {
  import opened Wrappers
  import JsText

  /** Numbers are integers here: the screens only compare, count and print them. */
  datatype Json =
    | JNull
    | JBool(b: bool)
    | JNum(n: int)
    | JStr(s: string)
    | JArr(items: seq<Json>)
    | JObj(fields: map<string, Json>)

  /** JavaScript truthiness: `null`, `false`, `0` and `""` are falsy, every array and object is truthy. */
  predicate Truthy(j: Json) {
    match j
    case JNull => false
    case JBool(b) => b
    case JNum(n) => n != 0
    case JStr(s) => s != ""
    case _ => true
  }

  /** Optional chaining `j?.key`: `None` is `undefined` (no such field, or `j` is not an object). */
  function Get(j: Json, key: string): (r: Option<Json>)
    ensures r.Some? <==> j.JObj? && key in j.fields
  {
    if j.JObj? && key in j.fields then Some(j.fields[key]) else None
  }

  /** `j?.key` used as a condition. */
  predicate HasTruthy(j: Json, key: string) {
    Get(j, key).Some? && Truthy(Get(j, key).value)
  }

  /** `a || b` on a possibly-undefined value. */
  function OrElse(a: Option<Json>, b: Json): (r: Json)
    ensures a.Some? && Truthy(a.value) ==> r == a.value
    ensures !(a.Some? && Truthy(a.value)) ==> r == b
  {
    if a.Some? && Truthy(a.value) then a.value else b
  }

  /** `array.join(",")` */
  function JoinComma(parts: seq<string>): string {
    if parts == [] then "" else if |parts| == 1 then parts[0] else parts[0] + "," + JoinComma(parts[1..])
  }

  /** How `${j}` prints a value: arrays join their elements (a `null` element prints empty), objects print `[object Object]`. */
  function ToText(j: Json): string
    decreases j
  {
    match j
    case JNull => "null"
    case JBool(b) => if b then "true" else "false"
    case JNum(n) => JsText.IntToString(n)
    case JStr(s) => s
    case JArr(items) =>
      JoinComma(seq(|items|, i requires 0 <= i < |items| => if items[i] == JNull then "" else ToText(items[i])))
    case JObj(_) => "[object Object]"
  }
}
