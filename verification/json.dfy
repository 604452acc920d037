/** Decoded JSON values as Python's `json` module hands them over, and the
    three Python operations the embeddings parser applies to them:
    truthiness, `dict.get` and `value[0]`. */
module JsonValues {
  import opened Wrappers

  /** A decoded JSON value. `JNull` is Python's `None`; a number keeps only its
      real value (the parser never computes on numbers); an object is a
      Python `dict` from string keys to values. */
  datatype Json =
    | JNull
    | JBool(b: bool)
    | JNum(n: real)
    | JStr(s: string)
    | JArr(items: seq<Json>)
    | JObj(fields: map<string, Json>)

  /** Python truthiness: `None`, `False`, zero, and empty strings, lists and
      dicts are falsy; everything else is truthy. */
  predicate Truthy(v: Json) {
    match v
    case JNull => false
    case JBool(b) => b
    case JNum(n) => n != 0.0
    case JStr(s) => s != ""
    case JArr(items) => items != []
    case JObj(fields) => fields != map[]
  }

  /** `d.get(key)`: the value under `key`, or `None` when the key is absent. */
  function Get(d: map<string, Json>, key: string): (v: Json)
    ensures key !in d ==> v == JNull
  {
    if key in d then d[key] else JNull
  }

  /** Python's `a or b`: `a` when it is truthy, otherwise `b`. */
  function Or(a: Json, b: Json): (v: Json)
    ensures v == a || v == b
    ensures Truthy(a) ==> v == a
  {
    if Truthy(a) then a else b
  }

  /** `v[0]`, or `None` when Python raises: an `IndexError` on an empty list
      or string, a `KeyError` on a dict (its keys are strings, never `0`), a
      `TypeError` on `None`, a boolean or a number. Indexing a string gives the
      one-character string. */
  function Index0(v: Json): (r: Option<Json>)
    ensures r.Some? <==> (v.JArr? && v.items != []) || (v.JStr? && v.s != "")
    ensures v.JArr? && v.items != [] ==> r == Some(v.items[0])
  {
    match v
    case JArr(items) => if items != [] then Some(items[0]) else None
    case JStr(s) => if s != "" then Some(JStr([s[0]])) else None
    case _ => None
  }
}
