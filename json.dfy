/**
 * Decoded JSON values as Python holds them (`None`, `bool`, numbers, `str`,
 * `list`, `dict`), with Python's truthiness and `float(...)` conversion.
 */
module JsonValue {
  import opened Wrappers

  datatype Json =
    | JNull
    | JBool(b: bool)
    | JNum(n: real)
    | JStr(s: string)
    | JArr(items: seq<Json>)
    | JObj(fields: map<string, Json>)

  /** `bool(v)` in Python. */
  predicate Truthy(v: Json) {
    match v
    case JNull => false
    case JBool(b) => b
    case JNum(n) => n != 0.0
    case JStr(s) => s != []
    case JArr(items) => items != []
    case JObj(fields) => fields != map[]
  }

  /** `d.get(key, default)` on a dict. */
  function Get(fields: map<string, Json>, key: string, default: Json): Json {
    if key in fields then fields[key] else default
  }

  /**
   * `float(v)`: numbers convert, booleans give 1.0 or 0.0, strings go through
   * `parseFloat` (Python's float syntax), anything else raises (None here).
   */
  function AsFloat(v: Json, parseFloat: string -> Option<real>): Option<real> {
    match v
    case JNum(n) => Some(n)
    case JBool(b) => Some(if b then 1.0 else 0.0)
    case JStr(s) => parseFloat(s)
    case _ => None
  }

  /** A JSON number as Python computes with it; `True`/`False` count as 1 and 0. */
  function Number(v: Json): Option<real> {
    match v
    case JNum(n) => Some(n)
    case JBool(b) => Some(if b then 1.0 else 0.0)
    case _ => None
  }

  /** Python's `<` on two strings: the first differing character decides, else the shorter is less. */
  function StrLess(a: string, b: string): (r: bool)
    ensures r ==> a != b
  {
    if b == [] then false
    else if a == [] then true
    else if a[0] != b[0] then a[0] < b[0]
    else StrLess(a[1..], b[1..])
  }

  /** Of two different strings one is less than the other. */
  lemma {:induction false} StrLessTotal(a: string, b: string)
    ensures a == b || StrLess(a, b) || StrLess(b, a)
  {
    if a != [] && b != [] && a[0] == b[0] {
      StrLessTotal(a[1..], b[1..]);
      assert a == [a[0]] + a[1..] && b == [b[0]] + b[1..];
    }
  }

  lemma {:induction false} StrLessTransitive(a: string, b: string, c: string)
    requires StrLess(a, b) && StrLess(b, c)
    ensures StrLess(a, c)
  {
    if a != [] && a[0] == b[0] && b[0] == c[0] {
      StrLessTransitive(a[1..], b[1..], c[1..]);
    }
  }

  /**
   * Python's `a < b` on decoded JSON values: numbers (with booleans) by value,
   * strings lexicographically; None where Python raises a TypeError.
   */
  function Less(a: Json, b: Json): (r: Option<bool>)
    ensures Number(a).Some? && Number(b).Some? ==> r == Some(Number(a).value < Number(b).value)
    ensures a.JStr? && b.JStr? ==> r == Some(StrLess(a.s, b.s))
    ensures (a.JNull? || b.JNull? || a.JObj? || b.JObj?) ==> r == None
    ensures (a.JStr? && Number(b).Some?) || (Number(a).Some? && b.JStr?) ==> r == None
  {
    if Number(a).Some? && Number(b).Some? then Some(Number(a).value < Number(b).value)
    else if a.JStr? && b.JStr? then Some(StrLess(a.s, b.s))
    else None
  }
}
