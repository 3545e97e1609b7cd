/** JSON-like values as the TypeScript client holds them, with `undefined`. */
module JsonValues {

  /** A client value. Numbers are reals (no NaN or infinities). */
  datatype Json =
    | JUndefined
    | JNull
    | JBool(b: bool)
    | JNum(n: real)
    | JStr(s: string)
    | JArr(items: seq<Json>)
    | JObj(fields: map<string, Json>)

  /** JavaScript truthiness: arrays and objects are truthy even when empty. */
  predicate Truthy(v: Json)
  {
    match v
    case JUndefined => false
    case JNull => false
    case JBool(b) => b
    case JNum(n) => n != 0.0
    case JStr(s) => s != ""
    case JArr(_) => true
    case JObj(_) => true
  }

  /** `a ?? b`: `b` only when `a` is null or undefined. */
  function Coalesce(a: Json, b: Json): (r: Json)
    ensures a.JNull? || a.JUndefined? ==> r == b
    ensures !(a.JNull? || a.JUndefined?) ==> r == a
  {
    if a.JNull? || a.JUndefined? then b else a
  }

  /** `v?.key`: undefined unless `v` is an object holding `key` (no prototype members). */
  function Member(v: Json, key: string): (r: Json)
    ensures v.JObj? && key in v.fields ==> r == v.fields[key]
    ensures !(v.JObj? && key in v.fields) ==> r.JUndefined?
  {
    if v.JObj? && key in v.fields then v.fields[key] else JUndefined
  }

  function StrArr(xs: seq<string>): (r: Json)
    ensures r.JArr? && |r.items| == |xs| && forall i | 0 <= i < |xs| :: r.items[i] == JStr(xs[i])
  {
    JArr(seq(|xs|, i requires 0 <= i < |xs| => JStr(xs[i])))
  }
}
