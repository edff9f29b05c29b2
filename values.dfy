/**
 * JavaScript values as the mixins see them: the only thing a mixin asks of a
 * property value is whether it is truthy (`!!v`), and the values it produces
 * come from injected crypto collaborators.
 */
module Values {

  /** The JavaScript values a property can hold, as far as the mixins tell them apart. */
  datatype Value =
    | Undefined
    | Null
    | Bool(b: bool)
    | Num(n: int)
    | Str(s: string)

  /** JavaScript truthiness, `!!v`. */
  predicate Truthy(v: Value) {
    match v
    case Undefined => false
    case Null => false
    case Bool(b) => b
    case Num(n) => n != 0
    case Str(s) => s != ""
  }

  /** The enumerable properties of a plain object. */
  type Props = map<string, Value>

  /** `o[p]`: a property the object lacks reads as `undefined`. */
  function Get(props: Props, p: string): Value {
    if p in props then props[p] else Undefined
  }

  datatype Option<T> = None | Some(value: T)

  /** A call that either returns a value or throws an error. */
  datatype Result<T, E> = Ok(value: T) | Err(error: E)
}
