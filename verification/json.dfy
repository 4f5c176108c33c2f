/** Decoded JSON as the Python code handles it: dictionaries, lists, strings,
    numbers, booleans and `None`, together with the few built-in operations
    the statement post-processing applies to them (truthiness, `dict.get`,
    `isinstance(v, (int, float))` and `float(v)`). */
module Json {
  import opened Wrappers
  import opened Chars
  import opened Decimal

  /** A Python value decoded from JSON. Dictionary key order is not modelled. */
  datatype Value =
    | Null
    | Bool(b: bool)
    | Int(i: int)
    | Float(r: real)
    | Str(s: string)
    | Arr(items: seq<Value>)
    | Obj(fields: map<string, Value>)

  const EmptyObj: Value := Obj(map[])

  /** Python truthiness: `None`, `False`, zero and empty containers are false. */
  predicate Truthy(v: Value) {
    match v
    case Null => false
    case Bool(b) => b
    case Int(i) => i != 0
    case Float(r) => r != 0.0
    case Str(s) => |s| > 0
    case Arr(a) => |a| > 0
    case Obj(m) => |m| > 0
  }

  /** `d.get(k, default)`. */
  function Get(d: map<string, Value>, k: string, default: Value): Value {
    if k in d then d[k] else default
  }

  /** `v or default`. */
  function Or(v: Value, default: Value): Value {
    if Truthy(v) then v else default
  }

  /** Python's `key in v`: a key of a dictionary, a substring of a string or
      an element of a list. `None` stands for the `TypeError` that a number,
      a boolean or `None` raises, none of them being a container. */
  function Contains(v: Value, key: string): (r: Option<bool>)
    ensures r.None? <==> v.Null? || v.Bool? || v.Int? || v.Float?
    ensures v.Obj? ==> r == Some(key in v.fields)
    ensures v.Arr? ==> r == Some(exists k :: 0 <= k < |v.items| && v.items[k] == Str(key))
  {
    match v
    case Obj(m) => Some(key in m)
    case Str(t) => Some(Occurs(key, t))
    case Arr(a) => Some(Str(key) in a)
    case _ => None
  }

  /** A string holds the keys written into it, and none longer than itself. */
  lemma ContainsText(a: string, key: string, b: string, t: string)
    ensures Contains(Str(a + key + b), key) == Some(true)
    ensures |t| < |key| ==> Contains(Str(t), key) == Some(false)
  {
    OccursPlaced(a, key, b, t);
  }

  /** `isinstance(v, (int, float))`; `bool` is a subclass of `int`. */
  predicate IsNumber(v: Value) {
    v.Bool? || v.Int? || v.Float?
  }

  /** Python's `float(v)`; `None` stands for the `TypeError` or `ValueError`
      it raises. */
  function ToFloat(v: Value): (r: Option<real>)
    ensures IsNumber(v) ==> r.Some?
    ensures v.Null? || v.Arr? || v.Obj? ==> r.None?
  {
    match v
    case Bool(b) => Some(if b then 1.0 else 0.0)
    case Int(i) => Some(i as real)
    case Float(x) => Some(x)
    case Str(s) => FloatOfString(s)
    case _ => None
  }
}
