/**
 * The JavaScript values a parsed request body can hold, and JavaScript's
 * truthiness test (`if (x)`, `!x`), which is all the handlers use to
 * validate their input.
 */
module JsValues {
  import opened Wrappers

  /** A value of a parsed JSON or form-encoded body field. Arrays and objects
      are one case, since every one of them is truthy. Numbers are rationals:
      -0 is `Num(0.0)` and an infinite value any nonzero `Num`, with the same
      truthiness; NaN does not arise from JSON or form parsing. */
  datatype JsValue =
    | Undefined
    | Null
    | Bool(b: bool)
    | Num(n: real)
    | Str(s: string)
    | Compound

  /** JavaScript's ToBoolean: `undefined`, `null`, `false`, `0` and `""` are
      falsy; everything else, including `"0"`, `"false"` and `"   "`, is truthy. */
  predicate Truthy(v: JsValue)
  {
    match v
    case Undefined => false
    case Null => false
    case Bool(b) => b
    case Num(n) => n != 0.0
    case Str(s) => s != []
    case Compound => true
  }

  /** The falsy values are exactly `undefined`, `null`, `false`, `0` and
      `""`; every other value, `"0"`, `"   "` and any object included, is
      truthy. */
  lemma FalsyValues(v: JsValue)
    ensures !Truthy(v) <==> v in {Undefined, Null, Bool(false), Num(0.0), Str([])}
  {
  }

  /** A value that is either a string or absent (a header, an environment
      variable), as the JavaScript value it reads as. */
  function OfOptional(o: Option<string>): (v: JsValue)
    ensures Truthy(v) <==> o.Some? && o.value != []
  {
    match o
    case None => Undefined
    case Some(s) => Str(s)
  }

  /** A field that may be absent, read from a record of columns. */
  function Lookup(columns: map<string, JsValue>, key: string): (v: JsValue)
  {
    if key in columns then columns[key] else Undefined
  }
}
