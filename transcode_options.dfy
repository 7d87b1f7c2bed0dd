/**
 * EncodeOptions, the options record that StringEncoding.encode and every
 * transcoding entry point read from their options argument.
 */
module TranscodeOptions {
  import opened Wrappers
  import opened Napi

  /** The loss byte (0: substitute nothing) and the acceptance predicate, if one was given. */
  datatype EncodeOptions = EncodeOptions(lossByte: Byte, isEncodingOk: Option<Value>)

  /** What an options argument that sets nothing yields: loss byte 0, no predicate. */
  const Defaults := EncodeOptions(0, None)

  /** The cast of a lossByte number to UInt8 is defined only for 0..255. */
  predicate LossByteInRange(options: Value) {
    IsObject(options) && Prop(options, "lossByte").Number? ==> 0 <= Prop(options, "lossByte").n < 0x100
  }

  /**
   * The options an argument yields: a number under `lossByte` becomes the loss
   * byte and a function under `isEncodingOk` the predicate, provided the
   * argument is an object; every other value leaves the default.
   */
  function EncodeOptionsOf(options: Value): (o: EncodeOptions)
    requires LossByteInRange(options)
    ensures !IsObject(options) ==> o == Defaults
    ensures IsObject(options) && Prop(options, "lossByte").Number? ==>
      o.lossByte as int == Prop(options, "lossByte").n
    ensures !(IsObject(options) && Prop(options, "lossByte").Number?) ==> o.lossByte == 0
    ensures o.isEncodingOk.Some? <==> IsObject(options) && Prop(options, "isEncodingOk").Function?
    ensures o.isEncodingOk.Some? ==> o.isEncodingOk.value == Prop(options, "isEncodingOk")
  {
    if !IsObject(options) then Defaults
    else
      var lossByte := Prop(options, "lossByte");
      var isEncodingOk := Prop(options, "isEncodingOk");
      EncodeOptions(
        if lossByte.Number? then lossByte.n as Byte else 0,
        if isEncodingOk.Function? then Some(isEncodingOk) else None)
  }

  /** The EncodeOptions constructor: start from the defaults and overwrite each field the argument supplies. */
  method ParseEncodeOptions(options: Value) returns (o: EncodeOptions)
    requires LossByteInRange(options)
    ensures o == EncodeOptionsOf(options)
  {
    o := Defaults;
    if IsObject(options) {
      var lossByte := Prop(options, "lossByte");
      if lossByte.Number? {
        o := o.(lossByte := lossByte.n as Byte);
      }
      var isEncodingOk := Prop(options, "isEncodingOk");
      if isEncodingOk.Function? {
        o := o.(isEncodingOk := Some(isEncodingOk));
      }
    }
  }
}
