/**
 * JSON values as Python's `json.loads` produces them, with the parts of
 * Python's dynamic semantics the pipeline relies on: truthiness, `dict.get`,
 * equality with a number, and hashing for use as a dictionary key.
 */
module Json {
  import opened Wrappers

  /**
   * A decoded JSON value. Numbers are exact reals: Python compares an `int`
   * and a `float` by value, and the pipeline never depends on the difference.
   */
  datatype Json =
    | JNull
    | JBool(b: bool)
    | JNum(n: real)
    | JStr(s: string)
    | JArr(items: seq<Json>)
    | JObj(fields: map<string, Json>)

  /** `json.loads`: `None` stands for a raised `JSONDecodeError`. */
  type Parser = string -> Option<Json>

  /** Python's truth value of a decoded JSON value. */
  predicate Truthy(j: Json) {
    match j
    case JNull => false
    case JBool(b) => b
    case JNum(n) => n != 0.0
    case JStr(s) => s != ""
    case JArr(xs) => xs != []
    case JObj(m) => m != map[]
  }

  /** `d.get(key, default)` on a decoded object. */
  function Get(m: map<string, Json>, key: string, default: Json): Json {
    if key in m then m[key] else default
  }

  /** The numeric value Python sees in a number or a bool (`True == 1`). */
  function NumericValue(j: Json): Option<real> {
    match j
    case JNum(n) => Some(n)
    case JBool(b) => Some(if b then 1.0 else 0.0)
    case _ => None
  }

  /** Python's `j == x` for a float `x`. */
  predicate EqualsNumber(j: Json, x: real) {
    NumericValue(j) == Some(x)
  }

  /**
   * A dictionary key after hashing. Python merges `True`, `1` and `1.0`
   * into one key, so a bool becomes its numeric value.
   */
  datatype Key = KNull | KNum(n: real) | KStr(s: string)

  /**
   * The key a value stands for in a dict or a set; `Failure` is the
   * `TypeError` Python raises for an unhashable list or dict.
   */
  function HashKey(j: Json): (r: Result<Key>)
    ensures r.Failure? <==> (j.JArr? || j.JObj?)
    ensures j.JStr? ==> r == Success(KStr(j.s))
  {
    match j
    case JNull => Success(KNull)
    case JBool(b) => Success(KNum(if b then 1.0 else 0.0))
    case JNum(n) => Success(KNum(n))
    case JStr(s) => Success(KStr(s))
    case JArr(_) => Failure("TypeError: unhashable type: 'list'")
    case JObj(_) => Failure("TypeError: unhashable type: 'dict'")
  }

  /** The JSON value stored for a Python value that may be `None`. */
  function OrNull(o: Option<Json>): Json {
    match o
    case None => JNull
    case Some(j) => j
  }
}
