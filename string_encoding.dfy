/**
 * StringEncoding: the identity of one CoreFoundation text encoding as the
 * host sees it, minted only by the StringEncoding class behind a tag check,
 * with its static lookups, its accessors and its decode/encode operations.
 */
module StringEncoding {
  import opened Wrappers
  import opened Napi
  import opened CoreFoundation
  import opened Errors
  import opened TranscodeOptions

  /** The StringEncodingClass instance that every callback of the class receives as its data. */
  const ClassData := Native(ClassMagic, 0)

  const BugReport := "Invalid callback data passed to StringEncodingClass::ForMethodCall! This is a bug in iconv-corefoundation."
  const NotAConstructor := "StringEncoding is not a constructor."
  const NotAFunction := "StringEncoding is not a function."
  const ExpectedBuffer := "a Buffer, ArrayBuffer, DataView, or Uint8Array"

  // ---------------------------------------------------------------------------
  // Tag checks on the untrusted pointers a callback receives
  // ---------------------------------------------------------------------------

  /** StringEncodingClass::ForMethodCall: trust the callback data only if it carries the class tag. */
  function ForMethodCall(info: CallInfo): (r: Result<Native, Exception>)
    ensures r.Success? <==> info.data.magic == ClassMagic
    ensures r.Success? ==> r.value == info.data
    ensures r.Failure? ==> r.error == InternalError(BugReport) && !r.error.IsTypeError()
  {
    if info.data.magic != ClassMagic then Failure(InternalError(BugReport))
    else Success(info.data)
  }

  /** ConstructorCookie::ForCtorCall: argument 0 must be an external whose memory carries StringEncoding's tag. */
  function ForCtorCall(info: CallInfo): (r: Result<Native, Exception>)
    ensures r.Success? <==> info.Arg(0).External? && info.Arg(0).data.magic == EncodingMagic
    ensures r.Success? ==> info.Arg(0) == External(r.value)
    ensures r.Failure? ==> r.error == TypeError(if info.isConstructCall then NotAConstructor else NotAFunction)
  {
    var cookie := info.Arg(0);
    if cookie.External? && cookie.data.magic == EncodingMagic then Success(cookie.data)
    else Failure(TypeError(if info.isConstructCall then NotAConstructor else NotAFunction))
  }

  // ---------------------------------------------------------------------------
  // Construction and unwrapping
  // ---------------------------------------------------------------------------

  /** The JavaScript object wrapping a StringEncoding (`Value()`), with the property its constructor defines. */
  function WrapperOf(se: Native): Value {
    Object(To(se), map["cfStringEncoding" := Number(se.encoding as int)])
  }

  /** The object the StringEncoding constructor leaves behind, or what it throws. */
  function Constructed(info: CallInfo, thisProps: map<string, Value>): (r: Result<Value, Exception>)
    ensures info.data.magic != ClassMagic ==> r == Failure(InternalError(BugReport))
    ensures info.data.magic == ClassMagic ==> (r.Success? <==> ForCtorCall(info).Success?)
    ensures info.data.magic == ClassMagic && r.Failure? ==> r.error == ForCtorCall(info).error && r.error.IsTypeError()
    ensures r.Success? ==> info.Arg(0).External?
    ensures r.Success? ==> UnwrapIdentity(r.value) == Some(Native(EncodingMagic, info.Arg(0).data.encoding))
    ensures r.Success? ==> Prop(r.value, "cfStringEncoding") == Number(info.Arg(0).data.encoding as int)
  {
    var cls :- ForMethodCall(info);
    var cookie :- ForCtorCall(info);
    var se := Native(EncodingMagic, cookie.encoding);
    Success(Object(To(se), thisProps["cfStringEncoding" := Number(se.encoding as int)]))
  }

  /**
   * The StringEncoding constructor, field by field: the tag, then the class
   * (checked), then the encoding (from the checked cookie), then the
   * `cfStringEncoding` property on `this`.
   */
  method Construct(info: CallInfo, thisProps: map<string, Value>) returns (r: Result<Value, Exception>)
    ensures r == Constructed(info, thisProps)
  {
    var se := Native(EncodingMagic, 0);
    var cls := ForMethodCall(info);
    if cls.Failure? {
      return Failure(cls.error);
    }
    var cookie := ForCtorCall(info);
    if cookie.Failure? {
      return Failure(cookie.error);
    }
    se := se.(encoding := cookie.value.encoding);
    var props := thisProps["cfStringEncoding" := Number(se.encoding as int)];
    r := Success(Object(To(se), props));
  }

  /** StringEncodingClass::New: construct with a fresh tagged cookie; the only way an identity is minted. */
  function New(encoding: UInt32): (w: Value)
    ensures w == WrapperOf(Native(EncodingMagic, encoding))
    ensures UnwrapIdentity(w) == Some(Native(EncodingMagic, encoding))
  {
    var cookie := Native(EncodingMagic, encoding);
    Constructed(CallInfo(ClassData, [External(cookie)], true), map[]).value
  }

  /** What StringEncoding::Unwrap returns: nullopt, or a pointer that may be null. */
  datatype Unwrapped = Rejected | Present(ptr: Ptr)

  /**
   * StringEncoding::Unwrap as written: non-objects and objects whose wrapped
   * pointer carries another tag are rejected; a null pointer is passed on.
   */
  function Unwrap(v: Value): (r: Unwrapped)
    ensures r.Rejected? <==> !IsObject(v) || (WrapOf(v).To? && WrapOf(v).target.magic != EncodingMagic)
    ensures r.Present? ==> r.ptr == WrapOf(v)
    ensures r.Present? && r.ptr.To? ==> r.ptr.target.magic == EncodingMagic
  {
    if !IsObject(v) then Rejected
    else
      var se := WrapOf(v);
      if se.To? && se.target.magic != EncodingMagic then Rejected else Present(se)
  }

  /** Unwrap with the null pointer counted as "not a StringEncoding". */
  function UnwrapIdentity(v: Value): (r: Option<Native>)
    ensures r.Some? <==> Unwrap(v).Present? && Unwrap(v).ptr.To?
    ensures r.Some? ==> r.value == Unwrap(v).ptr.target && r.value.magic == EncodingMagic
  {
    match Unwrap(v)
    case Present(To(se)) => Some(se)
    case _ => None
  }

  /** Minting then unwrapping gives back the identity minted. */
  lemma UnwrapNew(encoding: UInt32)
    ensures Unwrap(New(encoding)) == Present(To(Native(EncodingMagic, encoding)))
  {
  }

  /** An object whose wrapped pointer carries any other tag is never taken for an identity. */
  lemma ForgeryRejected(v: Value)
    requires v.Object? && v.wrap.To? && v.wrap.target.magic != EncodingMagic
    ensures Unwrap(v) == Rejected && UnwrapIdentity(v) == None && UnwrapOrThrow(v).Failure?
  {
  }

  /** The unwrap the transcoding entry points use: a StringEncoding, or a TypeError. */
  function UnwrapOrThrow(v: Value): (r: Result<Native, Exception>)
    ensures r.Success? <==> UnwrapIdentity(v).Some?
    ensures r.Success? ==> r.value.magic == EncodingMagic && WrapOf(v) == To(r.value)
    ensures r.Failure? ==> r.error == NotAStringEncoding(v) && r.error.IsTypeError()
  {
    match UnwrapIdentity(v)
    case Some(se) => Success(se)
    case None => Failure(NotAStringEncoding(v))
  }

  // ---------------------------------------------------------------------------
  // Encoding and decoding
  // ---------------------------------------------------------------------------

  /**
   * StringEncoding::cfEncode: the service's external representation as a
   * Buffer; if the service produces none, NotRepresentableError with the
   * caller's original string (or the text itself) and this encoding.
   */
  function CfEncode(svc: Service, se: Native, text: string, lossByte: Byte, origString: Option<Value>): (r: Result<Value, Exception>)
    ensures r.Failure? <==> svc.externalRepresentation(text, se.encoding, lossByte).None?
    ensures r.Failure? ==> r.error == NotRepresentable(origString.GetOr(Str(text)), WrapperOf(se))
    ensures r.Success? ==> r.value == BufferOf(svc.externalRepresentation(text, se.encoding, lossByte).value)
  {
    match svc.externalRepresentation(text, se.encoding, lossByte)
    case None => Failure(NotRepresentable(origString.GetOr(Str(text)), WrapperOf(se)))
    case Some(data) => Success(BufferOf(data))
  }

  /** The bytes a value that cfDecode accepts gives access to; None for every other value. */
  function ViewedBytes(buffer: Value): Option<seq<Byte>> {
    match buffer
    case ArrayBuffer(bytes) => Some(bytes)
    case DataView(bytes) => Some(bytes)
    case TypedArray(kind, bytes) => if kind == Uint8Array then Some(bytes) else None
    case _ => None
  }

  /**
   * What cfDecode yields: a TypeError for anything but a byte view, before the
   * service is asked; otherwise the service's decoding of a copy of the bytes,
   * or NotRepresentableError carrying the original buffer.
   */
  function Decoded(svc: Service, se: Native, buffer: Value): (r: Result<string, Exception>)
    ensures ViewedBytes(buffer).None? ==> r == Failure(FormattedTypeError(ExpectedBuffer, buffer))
    ensures ViewedBytes(buffer).Some? ==>
      (r.Success? <==> svc.createWithBytes(ViewedBytes(buffer).value, se.encoding).Some?)
    ensures ViewedBytes(buffer).Some? && r.Success? ==>
      Some(r.value) == svc.createWithBytes(ViewedBytes(buffer).value, se.encoding)
    ensures ViewedBytes(buffer).Some? && r.Failure? ==> r.error == NotRepresentable(buffer, WrapperOf(se))
  {
    match ViewedBytes(buffer)
    case None => Failure(FormattedTypeError(ExpectedBuffer, buffer))
    case Some(bytes) =>
      match svc.createWithBytes(bytes, se.encoding)
      case None => Failure(NotRepresentable(buffer, WrapperOf(se)))
      case Some(text) => Success(text)
  }

  /**
   * StringEncoding::cfDecode: the branch chain that fills `data` and `length`
   * from an ArrayBuffer, a DataView or a typed array (refusing every element
   * type but uint8), then one call to the service.
   */
  method CfDecode(svc: Service, se: Native, buffer: Value) returns (r: Result<string, Exception>)
    ensures r == Decoded(svc, se, buffer)
  {
    var data: seq<Byte>;
    var length: nat;
    if buffer.ArrayBuffer? {
      data, length := buffer.bytes, |buffer.bytes|;
    } else if buffer.DataView? {
      data, length := buffer.bytes, |buffer.bytes|;
    } else if buffer.TypedArray? {
      data, length := buffer.bytes, |buffer.bytes|;
      if buffer.kind != Uint8Array {
        return Failure(FormattedTypeError(ExpectedBuffer, buffer));
      }
    } else {
      return Failure(FormattedTypeError(ExpectedBuffer, buffer));
    }
    assert data[..length] == data && ViewedBytes(buffer) == Some(data);
    var cfString := svc.createWithBytes(data[..length], se.encoding);
    if cfString.None? {
      return Failure(NotRepresentable(buffer, WrapperOf(se)));
    }
    r := Success(cfString.value);
  }

  /** StringEncoding.prototype.decode: the decoded text as a string. */
  function Decode(svc: Service, se: Native, buffer: Value): (r: Result<Value, Exception>)
    ensures r.Success? <==> Decoded(svc, se, buffer).Success?
    ensures r.Success? ==> r.value == Str(Decoded(svc, se, buffer).value)
    ensures r.Failure? ==> r.error == Decoded(svc, se, buffer).error
    ensures r.Failure? && ViewedBytes(buffer).Some? ==> r.error.NotRepresentable? && r.error.text == buffer
  {
    var text :- Decoded(svc, se, buffer);
    Success(Str(text))
  }

  /**
   * StringEncoding.prototype.encode: the content coerced to a string, encoded
   * with the options' loss byte; a failure reports the coerced string.
   */
  function Encode(svc: Service, host: Host, se: Native, content: Value, options: Value): (r: Result<Value, Exception>)
    requires LossByteInRange(options)
    ensures r.Failure? <==>
      svc.externalRepresentation(JsString(host, content), se.encoding, EncodeOptionsOf(options).lossByte).None?
    ensures r.Failure? ==> r.error == NotRepresentable(Str(JsString(host, content)), WrapperOf(se))
    ensures r.Success? ==> r == CfEncode(svc, se, JsString(host, content), EncodeOptionsOf(options).lossByte, None)
  {
    var text := JsString(host, content);
    CfEncode(svc, se, text, EncodeOptionsOf(options).lossByte, Some(Str(text)))
  }

  /** Text encoded without a loss byte decodes back to itself, when the service round-trips. */
  lemma EncodeDecodeRoundTrip(svc: Service, host: Host, se: Native, text: string)
    requires RoundTrips(svc)
    requires Encode(svc, host, se, Str(text), Undefined).Success?
    ensures Decode(svc, se, Encode(svc, host, se, Str(text), Undefined).value) == Success(Str(text))
  {
  }

  // ---------------------------------------------------------------------------
  // Accessors, equality and conversion to a primitive
  // ---------------------------------------------------------------------------

  /** The `ianaCharSetName` accessor: the service's IANA name, or null when it has none. */
  function IanaCharSetName(svc: Service, se: Native): (r: Value)
    ensures r == Null <==> svc.idToIanaName(se.encoding).None?
    ensures r != Null ==> r == Str(svc.idToIanaName(se.encoding).value)
  {
    match svc.idToIanaName(se.encoding)
    case Some(name) => Str(name)
    case None => Null
  }

  /** The `windowsCodepage` accessor: null exactly for the UINT32_MAX answer. */
  function WindowsCodepage(svc: Service, se: Native): (r: Value)
    ensures r == Null <==> svc.idToCodepage(se.encoding) == NoCodepage
    ensures r != Null ==> r == Number(svc.idToCodepage(se.encoding) as int) && 0 <= r.n < NoCodepage as int
  {
    var codepage := svc.idToCodepage(se.encoding);
    if codepage == NoCodepage then Null else Number(codepage as int)
  }

  /** The `nsStringEncoding` accessor: always a number, the sentinel included. */
  function NsStringEncoding(svc: Service, se: Native): (r: Value)
    ensures r.Number? && 0 <= r.n < 0x1_0000_0000
    ensures r.n == svc.idToNs(se.encoding) as int
  {
    Number(svc.idToNs(se.encoding) as int)
  }

  /** The `name` accessor: the service's display name, always present. */
  function Name(svc: Service, se: Native): (r: Value)
    ensures r.Str? && r.s == svc.nameOf(se.encoding)
  {
    Str(svc.nameOf(se.encoding))
  }

  /** `[Symbol.toPrimitive](hint)`: the id for "number"; for any other hint the IANA name, else the display name. */
  function ToPrimitive(svc: Service, host: Host, se: Native, hint: Value): (r: Value)
    ensures JsString(host, hint) == "number" ==> r == Number(se.encoding as int)
    ensures JsString(host, hint) != "number" ==>
      r == if IanaCharSetName(svc, se) != Null then IanaCharSetName(svc, se) else Name(svc, se)
    ensures JsString(host, hint) != "number" ==> r.Str?
  {
    if JsString(host, hint) == "number" then Number(se.encoding as int)
    else
      match svc.idToIanaName(se.encoding)
      case Some(name) => Str(name)
      case None => Str(svc.nameOf(se.encoding))
  }

  /**
   * StringEncoding.prototype.equals exactly as written: the unwrapped
   * pointer is dereferenced whenever Unwrap returns a value, null included.
   * None stands for that null dereference.
   */
  function EqualsAsWritten(se: Native, other: Value): (r: Option<bool>)
    ensures r.None? <==> Unwrap(other) == Present(NullPtr)
  {
    match Unwrap(other)
    case Rejected => Some(false)
    case Present(NullPtr) => None
    case Present(To(o)) => Some(o.encoding == se.encoding)
  }

  /** The input that shows it: an object nothing is wrapped in. */
  lemma EqualsAsWrittenDereferencesNull(se: Native)
    ensures EqualsAsWritten(se, Object(NullPtr, map[])) == None
  {
  }

  /** equals: true exactly for a genuine identity with the same id. */
  function Equals(se: Native, other: Value): (r: bool)
    ensures r <==> UnwrapIdentity(other).Some? && UnwrapIdentity(other).value.encoding == se.encoding
    ensures UnwrapIdentity(other).None? ==> !r
  {
    match UnwrapIdentity(other)
    case Some(o) => o.encoding == se.encoding
    case None => false
  }

  /** Where the original returns at all, Equals returns the same. */
  lemma EqualsAgreesWhereDefined(se: Native, other: Value)
    requires EqualsAsWritten(se, other).Some?
    ensures EqualsAsWritten(se, other) == Some(Equals(se, other))
  {
  }

  /** Equality is reflexive on minted identities. */
  lemma EqualsReflexive(encoding: UInt32)
    ensures Equals(Native(EncodingMagic, encoding), New(encoding))
  {
  }

  /** Equality is symmetric on genuine identities. */
  lemma EqualsSymmetric(u: Value, v: Value)
    requires UnwrapIdentity(u).Some? && UnwrapIdentity(v).Some?
    ensures Equals(UnwrapIdentity(u).value, v) == Equals(UnwrapIdentity(v).value, u)
  {
  }

  // ---------------------------------------------------------------------------
  // Static lookups
  // ---------------------------------------------------------------------------

  /** StringEncoding.byCFStringEncoding: mint the id itself if the service has it. */
  function ByCFStringEncoding(svc: Service, host: Host, info: CallInfo): (r: Result<Value, Exception>)
    ensures info.data.magic != ClassMagic ==> r == Failure(InternalError(BugReport))
    ensures info.data.magic == ClassMagic ==> (r.Success? <==> svc.isAvailable(ToUInt32(host, info.Arg(0))))
    ensures info.data.magic == ClassMagic && r.Failure? ==>
      r.error == UnrecognizedEncoding(info.Arg(0), SpecifierKind.CFStringEncoding)
    ensures r.Success? ==> UnwrapIdentity(r.value) == Some(Native(EncodingMagic, ToUInt32(host, info.Arg(0))))
    ensures r.Success? ==> r.value == New(ToUInt32(host, info.Arg(0)))
  {
    var cls :- ForMethodCall(info);
    var encoding := ToUInt32(host, info.Arg(0));
    if svc.isAvailable(encoding) then Success(New(encoding))
    else Failure(UnrecognizedEncoding(info.Arg(0), SpecifierKind.CFStringEncoding))
  }

  /** StringEncoding.byIANACharSetName: mint the id the service maps the name to. */
  function ByIANACharSetName(svc: Service, host: Host, info: CallInfo): (r: Result<Value, Exception>)
    ensures info.data.magic != ClassMagic ==> r == Failure(InternalError(BugReport))
    ensures info.data.magic == ClassMagic ==>
      (r.Failure? <==> svc.ianaNameToId(JsString(host, info.Arg(0))) == InvalidId)
    ensures info.data.magic == ClassMagic && r.Failure? ==>
      r.error == UnrecognizedEncoding(info.Arg(0), SpecifierKind.IANACharSetName)
    ensures r.Success? ==>
      UnwrapIdentity(r.value) == Some(Native(EncodingMagic, svc.ianaNameToId(JsString(host, info.Arg(0)))))
    ensures r.Success? ==> r.value == New(svc.ianaNameToId(JsString(host, info.Arg(0))))
  {
    var cls :- ForMethodCall(info);
    var encoding := svc.ianaNameToId(JsString(host, info.Arg(0)));
    if encoding == InvalidId then Failure(UnrecognizedEncoding(info.Arg(0), SpecifierKind.IANACharSetName))
    else Success(New(encoding))
  }

  /** StringEncoding.byWindowsCodepage: mint the id the service maps the codepage to. */
  function ByWindowsCodepage(svc: Service, host: Host, info: CallInfo): (r: Result<Value, Exception>)
    ensures info.data.magic != ClassMagic ==> r == Failure(InternalError(BugReport))
    ensures info.data.magic == ClassMagic ==>
      (r.Failure? <==> svc.codepageToId(ToUInt32(host, info.Arg(0))) == InvalidId)
    ensures info.data.magic == ClassMagic && r.Failure? ==>
      r.error == UnrecognizedEncoding(info.Arg(0), SpecifierKind.WindowsCodepage)
    ensures r.Success? ==>
      UnwrapIdentity(r.value) == Some(Native(EncodingMagic, svc.codepageToId(ToUInt32(host, info.Arg(0)))))
    ensures r.Success? ==> r.value == New(svc.codepageToId(ToUInt32(host, info.Arg(0))))
  {
    var cls :- ForMethodCall(info);
    var encoding := svc.codepageToId(ToUInt32(host, info.Arg(0)));
    if encoding == InvalidId then Failure(UnrecognizedEncoding(info.Arg(0), SpecifierKind.WindowsCodepage))
    else Success(New(encoding))
  }

  /** StringEncoding.byNSStringEncoding: mint the id the service maps the NSStringEncoding to; no range check of its own. */
  function ByNSStringEncoding(svc: Service, host: Host, info: CallInfo): (r: Result<Value, Exception>)
    ensures info.data.magic != ClassMagic ==> r == Failure(InternalError(BugReport))
    ensures info.data.magic == ClassMagic ==>
      (r.Failure? <==> svc.nsToId(ToUInt32(host, info.Arg(0))) == InvalidId)
    ensures info.data.magic == ClassMagic && r.Failure? ==>
      r.error == UnrecognizedEncoding(info.Arg(0), SpecifierKind.NSStringEncoding)
    ensures r.Success? ==>
      UnwrapIdentity(r.value) == Some(Native(EncodingMagic, svc.nsToId(ToUInt32(host, info.Arg(0)))))
    ensures r.Success? ==> r.value == New(svc.nsToId(ToUInt32(host, info.Arg(0))))
  {
    var cls :- ForMethodCall(info);
    var encoding := svc.nsToId(ToUInt32(host, info.Arg(0)));
    if encoding == InvalidId then Failure(UnrecognizedEncoding(info.Arg(0), SpecifierKind.NSStringEncoding))
    else Success(New(encoding))
  }

  /** StringEncoding.system: always the service's system encoding, once the callback data checks out. */
  function System(svc: Service, info: CallInfo): (r: Result<Value, Exception>)
    ensures r.Success? <==> info.data.magic == ClassMagic
    ensures r.Failure? ==> r.error == InternalError(BugReport)
    ensures r.Success? ==> UnwrapIdentity(r.value) == Some(Native(EncodingMagic, svc.systemId))
    ensures r.Success? ==> r.value == New(svc.systemId)
  {
    var cls :- ForMethodCall(info);
    Success(New(svc.systemId))
  }

  /**
   * No NSStringEncoding from 2^31 to 2^32 - 1 is refused by a range check: each
   * is looked up as given, refused exactly when the service answers the
   * sentinel, and otherwise becomes the identity the service names.
   */
  lemma NSLookupHasNoRangeCheck(svc: Service, host: Host, n: UInt32)
    requires n >= 0x8000_0000
    ensures ByNSStringEncoding(svc, host, CallInfo(ClassData, [Number(n as int)], false)).Success? <==>
      svc.nsToId(n) != InvalidId
    ensures ByNSStringEncoding(svc, host, CallInfo(ClassData, [Number(n as int)], false)).Failure? ==>
      ByNSStringEncoding(svc, host, CallInfo(ClassData, [Number(n as int)], false)).error ==
        UnrecognizedEncoding(Number(n as int), SpecifierKind.NSStringEncoding)
    ensures ByNSStringEncoding(svc, host, CallInfo(ClassData, [Number(n as int)], false)).Success? ==>
      UnwrapIdentity(ByNSStringEncoding(svc, host, CallInfo(ClassData, [Number(n as int)], false)).value) ==
        Some(Native(EncodingMagic, svc.nsToId(n)))
  {
    var info := CallInfo(ClassData, [Number(n as int)], false);
    assert ToUInt32(host, info.Arg(0)) == n;
  }

  // ---------------------------------------------------------------------------
  // Messages of the errors raised here
  // ---------------------------------------------------------------------------

  /** What a template string makes of a value: a genuine identity renders through toPrimitive("string"). */
  function Rendered(svc: Service, host: Host, v: Value): string {
    match UnwrapIdentity(v)
    case Some(se) => JsString(host, ToPrimitive(svc, host, se, Str("string")))
    case None => JsString(host, v)
  }

  /** The message of an UnrecognizedEncodingError raised by a lookup of the given kind. */
  lemma UnrecognizedMessageNamesKind(host: Host, specifier: Value, kind: SpecifierKind)
    ensures UnrecognizedEncodingMessage(host, specifier, KindNumber(kind.Code()))
      == UnrecognizedPrefix + SpecifierLabels[kind.Code()] + ": " + host.inspect(specifier)
  {
  }

  /** A NotRepresentableError from cfEncode names the encoding by its IANA name, else its display name. */
  lemma NotRepresentableNamesEncoding(svc: Service, host: Host, se: Native, text: string, lossByte: Byte, origString: Option<Value>)
    requires se.magic == EncodingMagic
    requires CfEncode(svc, se, text, lossByte, origString).Failure?
    ensures var e := CfEncode(svc, se, text, lossByte, origString).error;
      var name := if svc.idToIanaName(se.encoding).Some? then svc.idToIanaName(se.encoding).value else svc.nameOf(se.encoding);
      e.NotRepresentable? &&
      NotRepresentableMessage(host, e.text, Rendered(svc, host, e.encoding))[..|NotRepresentablePrefix| + |name|]
        == NotRepresentablePrefix + name
  {
  }
}
