/**
 * The transcoding engine: the acceptance predicate, encoding with a
 * service-selected encoding, and decode-then-encode between two encodings.
 */
module Transcode {
  import opened Wrappers
  import opened Napi
  import opened CoreFoundation
  import opened Errors
  import opened TranscodeOptions
  import opened StringEncoding

  /** EncodeOptions::isEncodingOk: accept without a predicate, else the truthiness of its answer for the identity. */
  function IsEncodingOk(host: Host, options: EncodeOptions, se: Native): (ok: bool)
    ensures options.isEncodingOk.None? ==> ok
    ensures options.isEncodingOk.Some? ==> (ok <==> Truthy(host.call(options.isEncodingOk.value, WrapperOf(se))))
  {
    match options.isEncodingOk
    case None => true
    case Some(f) => Truthy(host.call(f, WrapperOf(se)))
  }

  /** An options value that sets no predicate accepts every encoding. */
  lemma NoPredicateAcceptsAll(host: Host, optionsValue: Value, se: Native)
    requires LossByteInRange(optionsValue)
    requires !(IsObject(optionsValue) && Prop(optionsValue, "isEncodingOk").Function?)
    ensures IsEncodingOk(host, EncodeOptionsOf(optionsValue), se)
  {
  }

  /**
   * The second isEncodingOk overload: mint the identity for an id, hand it
   * back through the out-parameter, and ask the predicate about it.
   */
  method IsEncodingOkFor(host: Host, options: EncodeOptions, encoding: UInt32) returns (encodingObj: Native, ok: bool)
    ensures encodingObj == Native(EncodingMagic, encoding)
    ensures UnwrapIdentity(New(encoding)) == Some(encodingObj)
    ensures ok == IsEncodingOk(host, options, encodingObj)
  {
    var minted := UnwrapIdentity(New(encoding)).value;
    encodingObj := minted;
    ok := IsEncodingOk(host, options, minted);
  }

  /** Which of the service's two selectors an entry point uses. */
  datatype Selector = Fastest | Smallest

  /** CFStringGetFastestEncoding or CFStringGetSmallestEncoding on the text. */
  function Select(svc: Service, selector: Selector, text: string): UInt32 {
    match selector
    case Fastest => svc.fastest(text)
    case Smallest => svc.smallest(text)
  }

  /** The identity a selector picks for a text. */
  function Chosen(svc: Service, selector: Selector, text: string): Native {
    Native(EncodingMagic, Select(svc, selector, text))
  }

  /** The plain object `{encoding, text}` that selectAndEncode returns. */
  function TextAndEncoding(encoding: Value, text: Value): Value {
    Object(NullPtr, map["encoding" := encoding, "text" := text])
  }

  /**
   * What selectAndEncode yields: one selection and one question to the
   * predicate; null on rejection, with no encoding attempted and no other
   * encoding tried; on acceptance the selected identity and cfEncode's bytes
   * with the options' loss byte, or cfEncode's NotRepresentableError.
   */
  function SelectedEncoded(svc: Service, host: Host, text: string, options: EncodeOptions, selector: Selector, origString: Option<Value>): (r: Result<Value, Exception>)
    ensures !IsEncodingOk(host, options, Chosen(svc, selector, text)) ==> r == Success(Null)
    ensures r.Failure? <==> (IsEncodingOk(host, options, Chosen(svc, selector, text)) &&
      svc.externalRepresentation(text, Select(svc, selector, text), options.lossByte).None?)
    ensures r.Failure? ==> r.error == NotRepresentable(origString.GetOr(Str(text)), WrapperOf(Chosen(svc, selector, text)))
    ensures (IsEncodingOk(host, options, Chosen(svc, selector, text)) &&
      svc.externalRepresentation(text, Select(svc, selector, text), options.lossByte).Some?) ==>
      r == Success(TextAndEncoding(WrapperOf(Chosen(svc, selector, text)),
        BufferOf(svc.externalRepresentation(text, Select(svc, selector, text), options.lossByte).value)))
    ensures r.Success? && r.value != Null ==>
      UnwrapIdentity(Prop(r.value, "encoding")) == Some(Chosen(svc, selector, text)) &&
      Prop(r.value, "text") == BufferOf(svc.externalRepresentation(text, Select(svc, selector, text), options.lossByte).value)
  {
    var encoding := Chosen(svc, selector, text);
    if IsEncodingOk(host, options, encoding) then
      var encoded :- CfEncode(svc, encoding, text, options.lossByte, origString);
      Success(TextAndEncoding(WrapperOf(encoding), encoded))
    else
      Success(Null)
  }

  /**
   * selectAndEncode: select, store the selection in the out-parameter before
   * the predicate is asked, then encode if accepted.
   */
  method SelectAndEncode(svc: Service, host: Host, text: string, options: EncodeOptions, selector: Selector, origString: Option<Value>)
    returns (selectedEncoding: Native, r: Result<Value, Exception>)
    ensures selectedEncoding == Chosen(svc, selector, text)
    ensures r == SelectedEncoded(svc, host, text, options, selector, origString)
  {
    var encoding := Native(EncodingMagic, Select(svc, selector, text));
    selectedEncoding := encoding;
    if IsEncodingOk(host, options, encoding) {
      var encoded := CfEncode(svc, encoding, text, options.lossByte, origString);
      if encoded.Failure? {
        r := Failure(encoded.error);
        return;
      }
      var result := Object(NullPtr, map[]);
      result := result.(props := result.props["encoding" := WrapperOf(encoding)]);
      result := result.(props := result.props["text" := encoded.value]);
      r := Success(result);
    } else {
      r := Success(Null);
    }
  }

  /** Whatever selectAndEncode returns without a loss byte decodes back, with the encoding it names, to the text. */
  lemma SelectedEncodedRoundTrip(svc: Service, host: Host, text: string, options: EncodeOptions, selector: Selector, origString: Option<Value>)
    requires RoundTrips(svc) && options.lossByte == 0
    requires SelectedEncoded(svc, host, text, options, selector, origString).Success?
    requires SelectedEncoded(svc, host, text, options, selector, origString).value != Null
    ensures var result := SelectedEncoded(svc, host, text, options, selector, origString).value;
      UnwrapIdentity(Prop(result, "encoding")).Some? &&
      Decode(svc, UnwrapIdentity(Prop(result, "encoding")).value, Prop(result, "text")) == Success(Str(text))
  {
  }

  /** encodeFastest / encodeSmallest: the first argument as a string, the second as options. */
  function EncodeSelecting(svc: Service, host: Host, info: CallInfo, selector: Selector): (r: Result<Value, Exception>)
    requires LossByteInRange(info.Arg(1))
    ensures !IsEncodingOk(host, EncodeOptionsOf(info.Arg(1)), Chosen(svc, selector, JsString(host, info.Arg(0)))) ==> r == Success(Null)
    ensures r.Failure? ==> r.error == NotRepresentable(Str(JsString(host, info.Arg(0))), WrapperOf(Chosen(svc, selector, JsString(host, info.Arg(0)))))
    ensures r.Success? && r.value != Null ==>
      UnwrapIdentity(Prop(r.value, "encoding")) == Some(Chosen(svc, selector, JsString(host, info.Arg(0))))
    ensures r == SelectedEncoded(svc, host, JsString(host, info.Arg(0)), EncodeOptionsOf(info.Arg(1)), selector, None)
  {
    SelectedEncoded(svc, host, JsString(host, info.Arg(0)), EncodeOptionsOf(info.Arg(1)), selector, None)
  }

  /** encodeFastest: the encoding is the service's fastest for the text. */
  function EncodeFastest(svc: Service, host: Host, info: CallInfo): (r: Result<Value, Exception>)
    requires LossByteInRange(info.Arg(1))
    ensures r.Success? && r.value != Null ==>
      UnwrapIdentity(Prop(r.value, "encoding")) == Some(Native(EncodingMagic, svc.fastest(JsString(host, info.Arg(0)))))
    ensures r.Failure? ==> r.error.NotRepresentable? && r.error.text == Str(JsString(host, info.Arg(0)))
    ensures r == SelectedEncoded(svc, host, JsString(host, info.Arg(0)), EncodeOptionsOf(info.Arg(1)), Fastest, None)
  {
    EncodeSelecting(svc, host, info, Fastest)
  }

  /** encodeSmallest: the encoding is the service's smallest for the text. */
  function EncodeSmallest(svc: Service, host: Host, info: CallInfo): (r: Result<Value, Exception>)
    requires LossByteInRange(info.Arg(1))
    ensures r.Success? && r.value != Null ==>
      UnwrapIdentity(Prop(r.value, "encoding")) == Some(Native(EncodingMagic, svc.smallest(JsString(host, info.Arg(0)))))
    ensures r.Failure? ==> r.error.NotRepresentable? && r.error.text == Str(JsString(host, info.Arg(0)))
    ensures r == SelectedEncoded(svc, host, JsString(host, info.Arg(0)), EncodeOptionsOf(info.Arg(1)), Smallest, None)
  {
    EncodeSelecting(svc, host, info, Smallest)
  }

  /**
   * transcode(from, fromEncoding, toEncoding, options): options first, then
   * both encodings in order (a TypeError before the buffer is looked at),
   * then decode, then encode with the original buffer as the failing input.
   */
  function Transcode(svc: Service, host: Host, info: CallInfo): (r: Result<Value, Exception>)
    requires LossByteInRange(info.Arg(3))
    ensures UnwrapIdentity(info.Arg(1)).None? ==> r == Failure(NotAStringEncoding(info.Arg(1)))
    ensures UnwrapIdentity(info.Arg(1)).Some? && UnwrapIdentity(info.Arg(2)).None? ==>
      r == Failure(NotAStringEncoding(info.Arg(2)))
    ensures UnwrapIdentity(info.Arg(1)).Some? && UnwrapIdentity(info.Arg(2)).Some? && ViewedBytes(info.Arg(0)).None? ==>
      r == Failure(FormattedTypeError(ExpectedBuffer, info.Arg(0)))
    ensures r.Failure? && r.error.NotRepresentable? ==> r.error.text == info.Arg(0)
    ensures r.Success? ==> r.value.TypedArray? && r.value.kind == Uint8Array
  {
    var encodeOptions := EncodeOptionsOf(info.Arg(3));
    var fromEncoding :- UnwrapOrThrow(info.Arg(1));
    var toEncoding :- UnwrapOrThrow(info.Arg(2));
    var text :- Decoded(svc, fromEncoding, info.Arg(0));
    CfEncode(svc, toEncoding, text, encodeOptions.lossByte, Some(info.Arg(0)))
  }

  /**
   * transcode is the instance decode followed by the instance encode, except
   * that a failure to encode names the original buffer instead of the text.
   */
  lemma TranscodeComposes(svc: Service, host: Host, info: CallInfo)
    requires LossByteInRange(info.Arg(3))
    requires UnwrapIdentity(info.Arg(1)).Some? && UnwrapIdentity(info.Arg(2)).Some?
    ensures var from := UnwrapIdentity(info.Arg(1)).value;
      var to := UnwrapIdentity(info.Arg(2)).value;
      var decoded := Decode(svc, from, info.Arg(0));
      var r := Transcode(svc, host, info);
      (decoded.Failure? ==> r == Failure(decoded.error)) &&
      (decoded.Success? ==>
        (r.Success? <==> Encode(svc, host, to, decoded.value, info.Arg(3)).Success?) &&
        (r.Success? ==> r == Encode(svc, host, to, decoded.value, info.Arg(3))) &&
        (r.Failure? ==> r.error == NotRepresentable(info.Arg(0), WrapperOf(to))))
  {
  }

  /** Without a loss byte, what transcode produces decodes with the target encoding to what the source decoded to. */
  lemma TranscodeRoundTrip(svc: Service, host: Host, info: CallInfo)
    requires RoundTrips(svc)
    requires !IsObject(info.Arg(3))
    requires Transcode(svc, host, info).Success?
    ensures UnwrapIdentity(info.Arg(1)).Some? && UnwrapIdentity(info.Arg(2)).Some?
    ensures Decode(svc, UnwrapIdentity(info.Arg(2)).value, Transcode(svc, host, info).value)
      == Decode(svc, UnwrapIdentity(info.Arg(1)).value, info.Arg(0))
  {
  }

  /**
   * The inner selectAndTranscode: decode with the source encoding first,
   * so a decoding error wins even where the predicate would reject; then
   * selectAndEncode on the decoded text, with the buffer as the failing input.
   */
  function SelectAndTranscode(svc: Service, host: Host, from: Value, encodeOptions: EncodeOptions, fromEncoding: Native, selector: Selector): (r: Result<Value, Exception>)
    ensures Decoded(svc, fromEncoding, from).Failure? ==> r == Failure(Decoded(svc, fromEncoding, from).error)
    ensures Decoded(svc, fromEncoding, from).Success? ==>
      r == SelectedEncoded(svc, host, Decoded(svc, fromEncoding, from).value, encodeOptions, selector, Some(from))
    ensures r.Failure? && r.error.NotRepresentable? ==> r.error.text == from
  {
    var text :- Decoded(svc, fromEncoding, from);
    SelectedEncoded(svc, host, text, encodeOptions, selector, Some(from))
  }

  /**
   * transcodeFastest / transcodeSmallest (buffer, fromEncoding, options):
   * the one options argument serves as both decode and encode options.
   */
  function TranscodeSelecting(svc: Service, host: Host, info: CallInfo, selector: Selector): (r: Result<Value, Exception>)
    requires LossByteInRange(info.Arg(2))
    ensures UnwrapIdentity(info.Arg(1)).None? ==> r == Failure(NotAStringEncoding(info.Arg(1)))
    ensures UnwrapIdentity(info.Arg(1)).Some? ==>
      r == SelectAndTranscode(svc, host, info.Arg(0), EncodeOptionsOf(info.Arg(2)), UnwrapIdentity(info.Arg(1)).value, selector)
  {
    var encodeOptions := EncodeOptionsOf(info.Arg(2));
    var fromEncoding :- UnwrapOrThrow(info.Arg(1));
    SelectAndTranscode(svc, host, info.Arg(0), encodeOptions, fromEncoding, selector)
  }

  /** transcodeFastest: the target is the service's fastest encoding for the decoded text. */
  function TranscodeFastest(svc: Service, host: Host, info: CallInfo): (r: Result<Value, Exception>)
    requires LossByteInRange(info.Arg(2))
    ensures UnwrapIdentity(info.Arg(1)).None? ==> r == Failure(NotAStringEncoding(info.Arg(1)))
    ensures UnwrapIdentity(info.Arg(1)).Some? ==>
      r == SelectAndTranscode(svc, host, info.Arg(0), EncodeOptionsOf(info.Arg(2)), UnwrapIdentity(info.Arg(1)).value, Fastest)
    ensures r.Success? && r.value != Null ==>
      UnwrapIdentity(info.Arg(1)).Some? && Decoded(svc, UnwrapIdentity(info.Arg(1)).value, info.Arg(0)).Success? &&
      UnwrapIdentity(Prop(r.value, "encoding")) ==
        Some(Native(EncodingMagic, svc.fastest(Decoded(svc, UnwrapIdentity(info.Arg(1)).value, info.Arg(0)).value)))
  {
    TranscodeSelecting(svc, host, info, Fastest)
  }

  /** transcodeSmallest: the target is the service's smallest encoding for the decoded text. */
  function TranscodeSmallest(svc: Service, host: Host, info: CallInfo): (r: Result<Value, Exception>)
    requires LossByteInRange(info.Arg(2))
    ensures UnwrapIdentity(info.Arg(1)).None? ==> r == Failure(NotAStringEncoding(info.Arg(1)))
    ensures UnwrapIdentity(info.Arg(1)).Some? ==>
      r == SelectAndTranscode(svc, host, info.Arg(0), EncodeOptionsOf(info.Arg(2)), UnwrapIdentity(info.Arg(1)).value, Smallest)
    ensures r.Success? && r.value != Null ==>
      UnwrapIdentity(info.Arg(1)).Some? && Decoded(svc, UnwrapIdentity(info.Arg(1)).value, info.Arg(0)).Success? &&
      UnwrapIdentity(Prop(r.value, "encoding")) ==
        Some(Native(EncodingMagic, svc.smallest(Decoded(svc, UnwrapIdentity(info.Arg(1)).value, info.Arg(0)).value)))
  {
    TranscodeSelecting(svc, host, info, Smallest)
  }

  /** A buffer the source encoding cannot decode fails the same way whether or not the predicate would accept. */
  lemma DecodeErrorPrecedesPredicate(svc: Service, host: Host, from: Value, options: EncodeOptions, fromEncoding: Native, selector: Selector)
    requires Decoded(svc, fromEncoding, from).Failure?
    ensures SelectAndTranscode(svc, host, from, options, fromEncoding, selector)
      == SelectAndTranscode(svc, host, from, options.(isEncodingOk := None), fromEncoding, selector)
    ensures SelectAndTranscode(svc, host, from, options, fromEncoding, selector).Failure?
  {
  }
}
