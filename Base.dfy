/** Small value types shared by every component: an optional value, a
    success-or-failure result, and the JSON values that `JSON.parse`
    produces and the validators inspect. */
module Base {

  datatype Option<+T> = None | Some(value: T)

  datatype Result<+T, +E> = Ok(value: T) | Err(error: E)

  /** A JSON value as `JSON.parse` yields it. Numbers are exact rationals
      (no IEEE rounding); an object is a map, since `JSON.parse` keeps the
      last of duplicate keys and no validator looks at key order. */
  datatype Json =
    | JNull
    | JBool(b: bool)
    | JNum(n: real)
    | JStr(s: string)
    | JArr(items: seq<Json>)
    | JObj(fields: map<string, Json>)

  /** The member `key` of an object, absent when the object lacks it. */
  function Member(fields: map<string, Json>, key: string): Option<Json> {
    if key in fields then Some(fields[key]) else None
  }

  /** JavaScript's `Number.isInteger` on an exact number. */
  predicate IsInteger(n: real) {
    n.Floor as real == n
  }

  function Max(a: int, b: int): (m: int)
    ensures m >= a && m >= b && (m == a || m == b)
  {
    if a >= b then a else b
  }

  function MaxReal(a: real, b: real): (m: real)
    ensures m >= a && m >= b && (m == a || m == b)
  {
    if a >= b then a else b
  }
}
