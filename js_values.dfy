/**
 * JSON values as a request body carries them, and the pieces of JavaScript
 * semantics the handlers and validators depend on: property access, truthiness,
 * `typeof`, and the length of a string in UTF-16 code units.
 */
module JsValues {
  import opened Wrappers

  /** A parsed JSON value. Numbers are kept as integers. */
  datatype Json =
    | JNull
    | JBool(b: bool)
    | JNum(n: int)
    | JStr(s: string)
    | JArr(items: seq<Json>)
    | JObj(fields: map<string, Json>)

  /** What `await req.json()` produces: a value, or a rejection for a body that is not JSON. */
  datatype RequestBody = Unparseable | Parsed(value: Json)

  /** `v[key]` for a value that is not null; `None` stands for `undefined`. */
  function Property(v: Json, key: string): Option<Json>
  {
    if v.JObj? && key in v.fields then Some(v.fields[key]) else None
  }

  /** JavaScript truthiness of a value (`None` is `undefined`). */
  predicate Truthy(v: Option<Json>): (r: bool)
    ensures (v == None || v == Some(JNull)) ==> !r
    ensures v.Some? && (v.value.JArr? || v.value.JObj?) ==> r
    ensures v.Some? && v.value.JStr? ==> (r <==> v.value.s != "")
    ensures v.Some? && v.value.JBool? ==> (r <==> v.value.b)
  {
    match v
    case None => false
    case Some(JNull) => false
    case Some(JBool(b)) => b
    case Some(JNum(n)) => n != 0
    case Some(JStr(s)) => s != ""
    case Some(_) => true
  }

  /** The result of JavaScript's `typeof` on a value (`None` is `undefined`). */
  function TypeOf(v: Option<Json>): (r: string)
    ensures r in {"undefined", "boolean", "number", "string", "object"}
    ensures r == "string" <==> v.Some? && v.value.JStr?
    ensures r == "undefined" <==> v == None
  {
    match v
    case None => "undefined"
    case Some(JBool(_)) => "boolean"
    case Some(JNum(_)) => "number"
    case Some(JStr(_)) => "string"
    case Some(_) => "object"
  }

  /** Number of UTF-16 code units of one character: two above the Basic Multilingual Plane. */
  function CodeUnits(c: char): nat
  {
    if c as int >= 0x1_0000 then 2 else 1
  }

  /** `s.length` in JavaScript, which counts UTF-16 code units, not characters. */
  function JsLength(s: string): (n: nat)
    ensures |s| <= n <= 2 * |s|
    ensures (forall i :: 0 <= i < |s| ==> s[i] as int < 0x1_0000) ==> n == |s|
  {
    if s == [] then 0 else CodeUnits(s[0]) + JsLength(s[1..])
  }
}
