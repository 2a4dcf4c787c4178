/** The JavaScript values that flow through the core untyped (`any`):
    parsed JSON, response bodies and the proxy's payloads. Numbers are
    integers; fractional numbers and NaN are not modelled. */
module JsValues {
  import opened JsText

  datatype JsValue =
    | Undefined
    | Null
    | Bool(b: bool)
    | Num(n: int)
    | Str(s: string)
    | Array(items: seq<JsValue>)
    | Object(fields: map<string, JsValue>)

  /** JavaScript truthiness: `false`, `0`, `""`, `null` and `undefined`
      are falsy, everything else (every array and object) is truthy. */
  predicate Truthy(v: JsValue) {
    match v
    case Undefined => false
    case Null => false
    case Bool(b) => b
    case Num(n) => n != 0
    case Str(s) => s != ""
    case _ => true
  }

  /** `a || b`: `a` when it is truthy, else `b`. */
  function Or(a: JsValue, b: JsValue): (r: JsValue)
    ensures Truthy(a) ==> r == a
    ensures !Truthy(a) ==> r == b
  {
    if Truthy(a) then a else b
  }

  /** `v == null`: reading any property of such a value throws a `TypeError`. */
  predicate IsNullish(v: JsValue) {
    v.Null? || v.Undefined?
  }

  /** `v.prop` for a value that is not nullish. The properties read in this
      core exist only on plain objects; on any other value they are `undefined`. */
  function Field(v: JsValue, prop: string): JsValue {
    if v.Object? && prop in v.fields then v.fields[prop] else Undefined
  }

  /** `xs.join(",")`. */
  function Join(xs: seq<string>): string {
    if xs == [] then "" else if |xs| == 1 then xs[0] else xs[0] + "," + Join(xs[1..])
  }

  /** `String(v)`: an array joins its elements with commas, rendering
      `null` and `undefined` elements as empty strings; a plain object
      renders as "[object Object]". */
  function StringOf(v: JsValue): string
    decreases v
  {
    match v
    case Undefined => "undefined"
    case Null => "null"
    case Bool(b) => if b then "true" else "false"
    case Num(n) => IntToString(n)
    case Str(s) => s
    case Array(items) =>
      Join(seq(|items|, i requires 0 <= i < |items| =>
        if items[i].Null? || items[i].Undefined? then "" else StringOf(items[i])))
    case Object(_) => "[object Object]"
  }

  /** A string map as a JavaScript object with string values. */
  function StringMapValue(m: map<string, string>): (r: JsValue)
    ensures r.Object? && r.fields.Keys == m.Keys
    ensures forall k :: k in m ==> r.fields[k] == Str(m[k])
  {
    Object(map k | k in m :: Str(m[k]))
  }
}
