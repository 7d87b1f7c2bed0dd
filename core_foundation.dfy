/**
 * The platform text-encoding service (CoreFoundation's CFString API) at its
 * interface. The model never looks inside it: each entry point the add-on
 * calls is a field of a Service value, and every operation of the model is
 * proved for every Service.
 */
module CoreFoundation {
  import opened Wrappers
  import opened Napi

  /** kCFStringEncodingInvalidId, the answer of the name/codepage/NSStringEncoding mappings that fail. */
  const InvalidId: UInt32 := 0xFFFF_FFFF

  /** UINT32_MAX, the answer of CFStringConvertEncodingToWindowsCodepage when there is no codepage. */
  const NoCodepage: UInt32 := 0xFFFF_FFFF

  /**
   * One field per CoreFoundation function the add-on calls:
   *   isAvailable            CFStringIsEncodingAvailable
   *   ianaNameToId           CFStringConvertIANACharSetNameToEncoding
   *   codepageToId           CFStringConvertWindowsCodepageToEncoding
   *   nsToId                 CFStringConvertNSStringEncodingToEncoding
   *   idToIanaName           CFStringConvertEncodingToIANACharSetName (None for a null result)
   *   idToCodepage           CFStringConvertEncodingToWindowsCodepage
   *   idToNs                 CFStringConvertEncodingToNSStringEncoding
   *   nameOf                 CFStringGetNameOfEncoding
   *   systemId               CFStringGetSystemEncoding
   *   fastest, smallest      CFStringGetFastestEncoding, CFStringGetSmallestEncoding
   *   createWithBytes        CFStringCreateWithBytes with isExternalRepresentation (None for a null result)
   *   externalRepresentation CFStringCreateExternalRepresentation (None for a null result);
   *                          a loss byte of 0 asks for no substitution
   */
  datatype Service = Service(
    isAvailable: UInt32 -> bool,
    ianaNameToId: string -> UInt32,
    codepageToId: UInt32 -> UInt32,
    nsToId: UInt32 -> UInt32,
    idToIanaName: UInt32 -> Option<string>,
    idToCodepage: UInt32 -> UInt32,
    // CFStringConvertEncodingToNSStringEncoding returns an unsigned long; the
    // model assumes its answer always fits in 32 bits.
    idToNs: UInt32 -> UInt32,
    nameOf: UInt32 -> string,
    systemId: UInt32,
    fastest: string -> UInt32,
    smallest: string -> UInt32,
    createWithBytes: (seq<Byte>, UInt32) -> Option<string>,
    externalRepresentation: (string, UInt32, Byte) -> Option<seq<Byte>>)

  /**
   * The service's own promise that an exact encoding reads back: whatever it
   * encodes without a loss byte it decodes to the same text. Lemmas that
   * speak of round trips take this as a hypothesis.
   */
  ghost predicate RoundTrips(svc: Service) {
    forall text, id ::
      svc.externalRepresentation(text, id, 0).Some? ==>
        svc.createWithBytes(svc.externalRepresentation(text, id, 0).value, id) == Some(text)
  }
}
