/**
 * The dynamically typed values that the CEC transport hands to event callbacks.
 *
 * A raw command event is a first value `cmd` followed by positional `args`;
 * depending on the transport version these are integers, byte strings,
 * dictionaries, or objects carrying attributes.
 */
module PyValues {

  /** One element of a Python `bytes` value. */
  type byte = x: int | 0 <= x < 256

  /**
   * `Bytes` stands for any sequence of small integers (bytes, bytearray or a list
   * of ints); `Dict` is a dictionary with string keys; `Obj` is any other object,
   * described by the attributes it exposes.
   */
  datatype Value =
    | PyNone
    | Int(i: int)
    | Bytes(items: seq<byte>)
    | Dict(entries: map<string, Value>)
    | Obj(attrs: map<string, Value>)

  /** Python truthiness: None (`PyNone`), 0 and empty containers are false, any object is true. */
  predicate Truthy(v: Value) {
    match v
    case PyNone => false
    case Int(i) => i != 0
    case Bytes(items) => |items| > 0
    case Dict(entries) => |entries| > 0
    case Obj(_) => true
  }

  /** `d.get(key, default)` on a dictionary. */
  function Get(entries: map<string, Value>, key: string, default: Value): (r: Value)
    ensures key in entries ==> r == entries[key]
    ensures key !in entries ==> r == default
  {
    if key in entries then entries[key] else default
  }

  /** `hasattr(v, name)`: only objects expose attributes; dictionary keys are not attributes. */
  predicate HasAttr(v: Value, name: string) {
    v.Obj? && name in v.attrs
  }

  /** `getattr(v, name, None)`. */
  function GetAttr(v: Value, name: string): (r: Value)
    ensures HasAttr(v, name) ==> r == v.attrs[name]
    ensures !HasAttr(v, name) ==> r == PyNone
  {
    if HasAttr(v, name) then v.attrs[name] else PyNone
  }
}
