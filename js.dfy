/**
 * The JavaScript values that the route handlers read from request bodies and
 * write into documents, with the truthiness rules the handlers rely on
 * (`a || b`, `if (x)`, `!x`).
 */
module Js {

  datatype Option<+T> = None | Some(value: T)

  /** A JSON-like value. `Undefined` is an absent property; `Date` holds milliseconds. */
  datatype Value =
    | Undefined
    | Null
    | Bool(b: bool)
    | Num(n: int)
    | Str(s: string)
    | Date(ms: int)
    | Arr(items: seq<Value>)
    | Obj(fields: map<string, Value>)

  /** JavaScript truthiness (NaN and -0 are not modelled). */
  predicate Truthy(v: Value) {
    match v
    case Undefined => false
    case Null => false
    case Bool(b) => b
    case Num(n) => n != 0
    case Str(s) => s != ""
    case _ => true
  }

  /** JavaScript `a || b` on values. */
  function Or(a: Value, b: Value): Value {
    if Truthy(a) then a else b
  }

  /** A document of a collection, or a parsed request body: property name to value. */
  type Doc = map<string, Value>

  /** `d.k`: the property, or `undefined` when the document has none. */
  function Field(d: Doc, k: string): Value {
    if k in d then d[k] else Undefined
  }

  /** A present, non-empty string (an environment variable or string
      property that passes `if (x)`). */
  predicate Present(o: Option<string>) {
    o.Some? && o.value != ""
  }

  /** JavaScript `o || d` for an optional string. */
  function OrElse(o: Option<string>, d: string): string {
    if Present(o) then o.value else d
  }

  /** What a handler sends: `res.status(status).json(body)` (no status call means 200). */
  datatype Response = Response(status: int, body: Doc)

  /** `res.status(status).json({ error: message })` */
  function ErrorResponse(status: int, message: string): (r: Response)
    ensures r.status == status && Field(r.body, "error") == Str(message)
  {
    Response(status, map["error" := Str(message)])
  }
}
