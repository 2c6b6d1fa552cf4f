/**
 * The JavaScript values the server reads out of parsed JSON: the result of
 * `JSON.parse`, the request body, and the property reads and truth tests the
 * handlers apply to them.
 */
module JsValues {
  import opened Wrappers

  /** A JSON value. Numbers are kept exact; only their zero-ness and equality with 5 matter here. */
  datatype Json =
    | JNull
    | JBool(b: bool)
    | JNum(n: real)
    | JStr(s: string)
    | JArr(items: seq<Json>)
    | JObj(fields: map<string, Json>)

  /** A JavaScript value read from parsed JSON: `None` is `undefined`. */
  type Value = Option<Json>

  /** The exceptions the modelled code can raise; all of them are `TypeError`s. */
  datatype Exception = TypeError

  /** JavaScript truthiness of a JSON-derived value. */
  predicate Truthy(v: Value)
    ensures Truthy(v) ==> v.Some? && !v.value.JNull?
    ensures v.Some? && (v.value.JArr? || v.value.JObj?) ==> Truthy(v)
  {
    match v
    case None => false
    case Some(JNull) => false
    case Some(JBool(b)) => b
    case Some(JNum(n)) => n != 0.0
    case Some(JStr(s)) => s != ""
    case Some(_) => true
  }

  /**
   * `base[key]` on a value that is not `null`: an own field of an object, and
   * `undefined` on every other kind. Only keys that are not properties of the
   * built-in prototypes are read through this (`length` has its own reader).
   */
  function Lookup(base: Json, key: string): (r: Value)
    ensures r.Some? ==> base.JObj? && key in base.fields && r.value == base.fields[key]
    ensures base.JObj? && key in base.fields ==> r.Some?
  {
    match base
    case JObj(fields) => if key in fields then Some(fields[key]) else None
    case _ => None
  }

  /** `base[key]` on any parsed value: reading a property of `null` throws a `TypeError`. */
  function Get(base: Json, key: string): (r: Result<Value, Exception>)
    ensures r.Failure? <==> base == JNull
    ensures r.Success? ==> r.value == Lookup(base, key)
  {
    if base.JNull? then Failure(TypeError) else Success(Lookup(base, key))
  }

  /** `a || b` where `b` is a literal: `a` when it is truthy, otherwise `b`. */
  function Or(a: Value, b: Json): (r: Json)
    ensures Truthy(a) ==> Some(r) == a
    ensures !Truthy(a) ==> r == b
  {
    if Truthy(a) then a.value else b
  }
}
