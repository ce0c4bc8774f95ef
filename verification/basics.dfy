/** Small shared vocabulary: optional values, results, bytes, and the JSON
    values that the signaling payloads, the peer file and the config file
    are made of. */
module Basics {

  /** Python's `Optional[T]`: `None` or a present value. */
  datatype Option<+T> = None | Some(value: T) {
    function GetOr(default: T): T {
      match this
      case Some(v) => v
      case None => default
    }
  }

  /** A value or the error an operation raised instead of returning. */
  datatype Result<+T, +E> = Ok(value: T) | Err(error: E) {
    predicate IsFailure() {
      Err?
    }

    function PropagateFailure<U>(): Result<U, E>
      requires Err?
    {
      Err(error)
    }

    function Extract(): T
      requires Ok?
    {
      value
    }
  }

  type Byte = x: int | 0 <= x < 256
  type Bytes = seq<Byte>

  /** An unsigned 16-bit number, as carried in audio frame headers. */
  type U16 = x: int | 0 <= x < 0x1_0000

  /** Python truthiness of an optional string: present and non-empty. */
  predicate Truthy(s: Option<string>) {
    s.Some? && s.value != ""
  }

  /** A JSON scalar as Python's `json` module hands it over. */
  datatype Value = Null | Bool(b: bool) | Int(i: int) | Num(r: real) | Str(s: string)

  /** A JSON object (a Python `dict` with string keys and scalar values). */
  type Object = map<string, Value>

  /** `d.get(key)`, with JSON `null` and a missing key both reading as `None`. */
  function GetStr<K>(d: map<K, Value>, key: K): (r: Result<Option<string>, K>)
    ensures key !in d ==> r == Ok(None)
    ensures key in d && d[key].Str? ==> r == Ok(Some(d[key].s))
    ensures r.Err? <==> key in d && !d[key].Str? && !d[key].Null?
  {
    if key !in d then Ok(None)
    else match d[key]
      case Null => Ok(None)
      case Str(s) => Ok(Some(s))
      case _ => Err(key)
  }
}
