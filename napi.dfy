/**
 * The host side of the native boundary: the JavaScript values a caller can
 * hand to the native add-on through N-API, the call information a native
 * callback receives, and the host services the add-on calls but does not own.
 */
module Napi {
  import opened Wrappers

  /** CFStringEncoding, UInt32 and uint32_t values. */
  newtype UInt32 = x: int | 0 <= x < 0x1_0000_0000

  /** UInt8 / uint8_t. */
  newtype Byte = x: int | 0 <= x < 0x100

  /**
   * The first word of a native object, as a tag check reads it. The add-on
   * declares two static MAGICs, one for the class callback data and one for
   * StringEncoding; a ConstructorCookie has no MAGIC of its own and is tagged
   * with StringEncoding's, so a cookie and an identity carry the same tag.
   * No other word equals either of them.
   */
  datatype Tag = ClassMagic | EncodingMagic | Foreign(word: nat)

  /**
   * Native memory as seen through an untrusted pointer: the tag word, then the
   * 32-bit encoding field that a ConstructorCookie or a StringEncoding carries
   * (the StringEncodingClass callback data only has its tag read).
   */
  datatype Native = Native(magic: Tag, encoding: UInt32)

  datatype Ptr = NullPtr | To(target: Native)

  datatype TypedArrayType =
    | Int8Array | Uint8Array | Uint8ClampedArray | Int16Array | Uint16Array
    | Int32Array | Uint32Array | Float32Array | Float64Array | BigInt64Array | BigUint64Array

  /**
   * A JavaScript value. Numbers are integers. A plain object carries the
   * native pointer that ObjectWrap attached to it (NullPtr when none) and its
   * own data properties. A Node Buffer is a Uint8Array.
   */
  datatype Value =
    | Undefined
    | Null
    | Boolean(b: bool)
    | Number(n: int)
    | Str(s: string)
    | Symbol(id: nat)
    | External(data: Native)
    | Function(id: nat)
    | Object(wrap: Ptr, props: map<string, Value>)
    | ArrayBuffer(bytes: seq<Byte>)
    | DataView(bytes: seq<Byte>)
    | TypedArray(kind: TypedArrayType, bytes: seq<Byte>)

  /** napi's IsObject: every value of type object, functions included. */
  predicate IsObject(v: Value) {
    v.Object? || v.Function? || v.ArrayBuffer? || v.DataView? || v.TypedArray?
  }

  /** The pointer ObjectWrap's unwrap yields for an object: only wrapped plain objects carry one. */
  function WrapOf(v: Value): Ptr
    requires IsObject(v)
  {
    if v.Object? then v.wrap else NullPtr
  }

  /** Reading `v[key]`: a missing own property reads as undefined. */
  function Prop(v: Value, key: string): Value {
    if v.Object? && key in v.props then v.props[key] else Undefined
  }

  /** JavaScript's ToBoolean on the values modelled here. */
  predicate Truthy(v: Value) {
    match v
    case Undefined => false
    case Null => false
    case Boolean(b) => b
    case Number(n) => n != 0
    case Str(s) => s != ""
    case _ => true
  }

  /** A Node Buffer holding the given bytes. */
  function BufferOf(bytes: seq<Byte>): Value {
    TypedArray(Uint8Array, bytes)
  }

  /**
   * What the add-on asks of the host runtime beyond its value model: the
   * coercion of a non-number to a number and of a non-string to a string,
   * calling a function value with one argument, and the two libraries the
   * error messages use (util.inspect and cli-truncate).
   */
  datatype Host = Host(
    coerceNumber: Value -> int,
    coerceString: Value -> string,
    call: (Value, Value) -> Value,
    inspect: Value -> string,
    truncate: (string, nat) -> string)

  /** `Napi::Value::ToString`: a string is its own text; anything else is the host's to render. */
  function JsString(host: Host, v: Value): string {
    if v.Str? then v.s else host.coerceString(v)
  }

  /** `ToNumber()` followed by the conversion to uint32_t, which reduces modulo 2^32. */
  function ToUInt32(host: Host, v: Value): (r: UInt32)
    ensures v.Number? && 0 <= v.n < 0x1_0000_0000 ==> r as int == v.n
  {
    ((if v.Number? then v.n else host.coerceNumber(v)) % 0x1_0000_0000) as UInt32
  }

  /** The `info` of a native callback: its callback data, its arguments and how it was called. */
  datatype CallInfo = CallInfo(data: Native, args: seq<Value>, isConstructCall: bool) {
    /** `info[i]`: a missing argument reads as undefined. */
    function Arg(i: nat): Value {
      if i < |args| then args[i] else Undefined
    }
  }
}
