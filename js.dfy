/** JavaScript values as far as the typeahead logic inspects them:
    nullish values, truthiness and property reads. */
module Js {

  /** `T | null` (or an absent optional field): None is the nullish value. */
  datatype Option<T> = None | Some(value: T) {
    /** The nullish-coalescing operator `this ?? default`. */
    function OrElse(default: T): T {
      match this
      case Some(v) => v
      case None => default
    }
  }

  /** A JavaScript string's `length`: the number of UTF-16 code units, two
      for each character outside the Basic Multilingual Plane. */
  function Utf16Length(s: string): (n: nat)
    ensures |s| <= n <= 2 * |s|
    ensures (forall i :: 0 <= i < |s| ==> s[i] as int <= 0xFFFF) ==> n == |s|
  {
    if s == [] then 0
    else (if s[0] as int <= 0xFFFF then 1 else 2) + Utf16Length(s[1..])
  }

  /** A JavaScript value. Numbers are integers here (no NaN, no fractions). */
  datatype Value =
    | Undefined
    | Null
    | Bool(b: bool)
    | Number(n: int)
    | Str(s: string)
    | Object(props: map<string, Value>)

  /** JavaScript truthiness: `undefined`, `null`, `false`, `0` and `""` are falsy. */
  predicate Truthy(v: Value) {
    match v
    case Undefined => false
    case Null => false
    case Bool(b) => b
    case Number(n) => n != 0
    case Str(s) => s != ""
    case Object(_) => true
  }

  /** The property read `v[key]` on a value that is neither null nor undefined;
      primitives carry none of the properties this model reads. */
  function Property(v: Value, key: string): Value {
    match v
    case Object(props) => if key in props then props[key] else Undefined
    case _ => Undefined
  }
}
