/** JavaScript values as the reconciler, the state container and the animation
    registry see them, plus the Option/Result wrappers the other modules share. */
module Values {

  datatype Option<+T> = None | Some(value: T)

  /** Success, or the message of the exception the source throws. */
  datatype Result<+T> = Ok(value: T) | Err(message: string)

  /** A JavaScript value. Numbers are integers; a function is known only by its
      identity, because `isEqual` and `===` compare functions by reference. */
  datatype Value =
    | Undefined
    | Null
    | Bool(b: bool)
    | Num(n: int)
    | Str(s: string)
    | Arr(items: seq<Value>)
    | Object(fields: map<string, Value>)
    | Fn(id: nat)

  /** A plain object used as a property bag. */
  type Props = map<string, Value>

  /** JavaScript truthiness (`NaN` is not modelled). */
  predicate Truthy(v: Value) {
    match v
    case Undefined => false
    case Null => false
    case Bool(b) => b
    case Num(n) => n != 0
    case Str(s) => s != ""
    case _ => true
  }

  /** `m[k]`: a missing property reads as `undefined`. */
  function Lookup(m: Props, k: string): Value {
    if k in m then m[k] else Undefined
  }
}
