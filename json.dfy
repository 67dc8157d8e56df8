/** The JSON values that reach the core: the scalars `json.loads` produces for
    the fields of an extraction or of a ground-truth record. */
module Json {

  /** A decoded JSON scalar, with Python's view of its type: `bool` is a
      subclass of `int`, so `Bool` counts as a number wherever the source
      asks `isinstance(v, (int, float))`. */
  datatype Value = Null | Str(s: string) | Int(i: int) | Float(f: real) | Bool(b: bool)
  {
    /** `isinstance(v, (int, float))` */
    predicate IsNumber() {
      Int? || Float? || Bool?
    }

    /** `float(v)` for a number, exact (no IEEE-754 rounding). */
    function AsReal(): real
      requires IsNumber()
    {
      match this
      case Int(i) => i as real
      case Float(f) => f
      case Bool(b) => if b then 1.0 else 0.0
    }
  }

  /** A decoded JSON object: a Python `dict` with string keys. */
  type JsonObject = map<string, Value>

  /** `d.get(key)`: the value under `key`, or `None` when the key is missing. */
  function Get(d: JsonObject, key: string): Value {
    if key in d then d[key] else Null
  }
}
