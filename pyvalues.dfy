/** Python values as the scanner's JSON lines decode them, and the three Python
    behaviours the wrapper relies upon: truthiness, `isinstance(v, (int, float))`
    (where `bool` is a subclass of `int`) and dictionary-key equality. */
module PyValues {

  datatype Option<T> = None | Some(value: T)

  /** One JSON value after `json.loads`. A list or an object nested inside a
      record is never inspected by the wrapper; only whether it is empty
      (its truthiness) is observable. */
  datatype Value =
    | Str(s: string)
    | Bool(b: bool)
    | Int(i: int)
    | Float(f: real)
    | Null
    | Nested(nonEmpty: bool)

  /** A decoded JSON object: string keys, each present once. */
  type Record = map<string, Value>

  /** `d.get(k)`: the value under `k`, or `None` when the key is absent. */
  function Get(d: Record, k: string): Value {
    if k in d then d[k] else Null
  }

  /** Python truthiness: empty strings and containers, zero, False and None are false. */
  predicate Truthy(v: Value) {
    match v
    case Str(s) => s != ""
    case Bool(b) => b
    case Int(i) => i != 0
    case Float(f) => f != 0.0
    case Null => false
    case Nested(nonEmpty) => nonEmpty
  }

  /** `isinstance(v, (int, float))`; True and False are ints in Python. */
  predicate IsNumber(v: Value) {
    v.Bool? || v.Int? || v.Float?
  }

  /** `float(v)` for a number (IEEE-754 rounding is not modelled). */
  function AsReal(v: Value): real
    requires IsNumber(v)
  {
    match v
    case Bool(b) => if b then 1.0 else 0.0
    case Int(i) => i as real
    case Float(f) => f
  }

  /** A dictionary key up to Python's equality: `True`, `1` and `1.0` are one key. */
  datatype Key = KStr(s: string) | KNum(n: real) | KNone

  /** The key a value stands for in a dict, or None when the value is unhashable
      (a list or a dict: storing under it raises TypeError). */
  function HashKey(v: Value): Option<Key> {
    match v
    case Str(s) => Some(KStr(s))
    case Null => Some(KNone)
    case Nested(_) => None
    case _ => Some(KNum(AsReal(v)))
  }

  /** Python's `==` between two hashable JSON scalars, written case by case. */
  predicate PyEq(a: Value, b: Value)
    requires HashKey(a).Some? && HashKey(b).Some?
  {
    if a.Str? || b.Str? then a.Str? && b.Str? && a.s == b.s
    else if a.Null? || b.Null? then a.Null? && b.Null?
    else AsReal(a) == AsReal(b)
  }

  /** Two hashable values are the same dict key exactly when Python finds them equal. */
  lemma HashKeyMatchesEquality(a: Value, b: Value)
    requires HashKey(a).Some? && HashKey(b).Some?
    ensures HashKey(a) == HashKey(b) <==> PyEq(a, b)
  {
  }
}
