/**
 * The JavaScript values that the schemas and the client look at: JSON-like data plus the two
 * host objects an upload may be (a Node `Buffer` and a web `File`).
 */
module JsValue {

  newtype byte = x: int | 0 <= x < 256

  /**
   * A JavaScript value. Numbers carry an exact `real` (no floating point); `File` keeps only
   * what the upload checks read: its `size` in bytes and its MIME `type`.
   */
  datatype Value =
    | Undefined
    | Null
    | Bool(b: bool)
    | Num(n: real)
    | Str(s: string)
    | Arr(items: seq<Value>)
    | Obj(props: map<string, Value>)
    | Buffer(bytes: seq<byte>)
    | File(size: nat, mime: string)

  /** Property access `o[key]`: a key that is absent reads as `undefined`. */
  function Field(props: map<string, Value>, key: string): Value {
    if key in props then props[key] else Undefined
  }

  /**
   * Whether a value is an object to a schema that reads properties: a plain object, and also
   * a `Buffer` or a `File`, whose `typeof` is "object" as well.
   */
  predicate IsObject(v: Value) {
    v.Obj? || v.Buffer? || v.File?
  }

  /**
   * The properties a schema can read from a value. A `Buffer` or a `File` is given none.
   * Of the keys the request and response schemas declare, only `text` and `stream` are
   * properties of either class: both are methods of a `File`. A method fails `z.string()`
   * (`text`) just as a missing property does. Reading `stream` as missing changes no
   * verdict: the one schema declaring it also requires `image` first, which neither class
   * has.
   */
  function Props(v: Value): map<string, Value> {
    if v.Obj? then v.props else map[]
  }

  /** JavaScript truthiness, as used by `if (x)` and `!x`. */
  predicate Truthy(v: Value) {
    match v
    case Undefined => false
    case Null => false
    case Bool(b) => b
    case Num(n) => n != 0.0
    case Str(s) => s != ""
    case _ => true
  }
}
