/**
 * The package's convenience functions `decode` and `encode`, which accept
 * either an IANA character set name or a StringEncoding.
 */
module Index {
  import opened Wrappers
  import opened Napi
  import opened CoreFoundation
  import opened Errors
  import opened TranscodeOptions
  import opened StringEncoding

  /** What the declared parameter type `string | StringEncoding` admits. */
  predicate IsEncodingArgument(encoding: Value) {
    encoding.Str? || UnwrapIdentity(encoding).Some?
  }

  /** The identity a name resolves to through `StringEncoding.byIANACharSetName`; an identity stands for itself. */
  function Resolve(svc: Service, host: Host, encoding: Value): (r: Result<Native, Exception>)
    requires IsEncodingArgument(encoding)
    ensures encoding.Str? ==> (r.Success? <==> svc.ianaNameToId(encoding.s) != InvalidId)
    ensures encoding.Str? && r.Success? ==> r.value == Native(EncodingMagic, svc.ianaNameToId(encoding.s))
    ensures encoding.Str? && r.Failure? ==> r.error == UnrecognizedEncoding(encoding, SpecifierKind.IANACharSetName)
    ensures !encoding.Str? ==> r == Success(UnwrapIdentity(encoding).value)
  {
    if encoding.Str? then
      var found :- ByIANACharSetName(svc, host, CallInfo(ClassData, [encoding], false));
      Success(UnwrapIdentity(found).value)
    else
      Success(UnwrapIdentity(encoding).value)
  }

  /** decode(buffer, encoding): resolve the encoding, then that identity's decode. */
  function DecodeWith(svc: Service, host: Host, buffer: Value, encoding: Value): (r: Result<Value, Exception>)
    requires IsEncodingArgument(encoding)
    ensures encoding.Str? && svc.ianaNameToId(encoding.s) == InvalidId ==>
      r == Failure(UnrecognizedEncoding(encoding, SpecifierKind.IANACharSetName))
    ensures encoding.Str? && svc.ianaNameToId(encoding.s) != InvalidId ==>
      r == Decode(svc, Native(EncodingMagic, svc.ianaNameToId(encoding.s)), buffer)
    ensures !encoding.Str? ==> r == Decode(svc, UnwrapIdentity(encoding).value, buffer)
  {
    var se :- Resolve(svc, host, encoding);
    Decode(svc, se, buffer)
  }

  /** encode(content, encoding, options): resolve the encoding, then that identity's encode. */
  function EncodeWith(svc: Service, host: Host, content: Value, encoding: Value, options: Value): (r: Result<Value, Exception>)
    requires IsEncodingArgument(encoding) && LossByteInRange(options)
    ensures encoding.Str? && svc.ianaNameToId(encoding.s) == InvalidId ==>
      r == Failure(UnrecognizedEncoding(encoding, SpecifierKind.IANACharSetName))
    ensures encoding.Str? && svc.ianaNameToId(encoding.s) != InvalidId ==>
      r == Encode(svc, host, Native(EncodingMagic, svc.ianaNameToId(encoding.s)), content, options)
    ensures !encoding.Str? ==> r == Encode(svc, host, UnwrapIdentity(encoding).value, content, options)
  {
    var se :- Resolve(svc, host, encoding);
    Encode(svc, host, se, content, options)
  }

  /** An unrecognised name fails the lookup whatever the buffer is, even one decode would refuse. */
  lemma UnknownNameFailsBeforeBuffer(svc: Service, host: Host, name: string, buffer: Value, content: Value, options: Value)
    requires svc.ianaNameToId(name) == InvalidId && LossByteInRange(options)
    ensures DecodeWith(svc, host, buffer, Str(name)).Failure?
    ensures DecodeWith(svc, host, buffer, Str(name)).error.UnrecognizedEncoding?
    ensures EncodeWith(svc, host, content, Str(name), options) == Failure(UnrecognizedEncoding(Str(name), SpecifierKind.IANACharSetName))
  {
  }

  /** An identity argument is used unchanged: no lookup happens, so the name mapping cannot influence the result. */
  lemma IdentityNeedsNoLookup(svc: Service, host: Host, buffer: Value, content: Value, encoding: Value, options: Value, nameToId: string -> UInt32)
    requires UnwrapIdentity(encoding).Some? && LossByteInRange(options)
    ensures DecodeWith(svc, host, buffer, encoding) == DecodeWith(svc.(ianaNameToId := nameToId), host, buffer, encoding)
    ensures EncodeWith(svc, host, content, encoding, options) == EncodeWith(svc.(ianaNameToId := nameToId), host, content, encoding, options)
  {
  }

  /** Passing a name and passing the identity it resolves to give the same result. */
  lemma NameAndIdentityAgree(svc: Service, host: Host, buffer: Value, content: Value, name: string, options: Value)
    requires svc.ianaNameToId(name) != InvalidId && LossByteInRange(options)
    ensures DecodeWith(svc, host, buffer, Str(name)) == DecodeWith(svc, host, buffer, New(svc.ianaNameToId(name)))
    ensures EncodeWith(svc, host, content, Str(name), options) == EncodeWith(svc, host, content, New(svc.ianaNameToId(name)), options)
  {
  }
}
