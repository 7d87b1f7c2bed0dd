/**
 * The exceptions the add-on throws into the host, and the message rules of
 * the two error classes the package defines for it (NotRepresentableError and
 * UnrecognizedEncodingError).
 */
module Errors {
  import opened Wrappers
  import opened Napi

  /** Which kind of specifier a failed lookup was given. */
  datatype SpecifierKind = CFStringEncoding | IANACharSetName | WindowsCodepage | NSStringEncoding {
    /** The number the native enum and the TypeScript enum both give this kind. */
    function Code(): (n: int)
      ensures 1 <= n < |SpecifierLabels|
      ensures SpecifierLabels[n] != SpecifierLabels[0]
    {
      match this
      case CFStringEncoding => 1
      case IANACharSetName => 2
      case WindowsCodepage => 3
      case NSStringEncoding => 4
    }
  }

  /** The kind a number stands for, if any. */
  function KindOfCode(n: int): (k: Option<SpecifierKind>)
    ensures k.Some? <==> 1 <= n <= 4
    ensures k.Some? ==> k.value.Code() == n
  {
    if n == 1 then Some(SpecifierKind.CFStringEncoding)
    else if n == 2 then Some(SpecifierKind.IANACharSetName)
    else if n == 3 then Some(SpecifierKind.WindowsCodepage)
    else if n == 4 then Some(SpecifierKind.NSStringEncoding)
    else None
  }

  /** Code and KindOfCode are inverse: no two kinds share a number. */
  lemma CodeRoundTrip(k: SpecifierKind)
    ensures KindOfCode(k.Code()) == Some(k)
  {
  }

  /** The label table of SpecifierKind.toString, index 0 being the fallback. */
  const SpecifierLabels: seq<string> := [
    "(unknown encoding specifier)",
    "CFStringEncoding",
    "IANA charset name",
    "Windows codepage",
    "NSStringEncoding"
  ]

  /**
   * SpecifierKind.toString exactly as written: only the upper bound is
   * checked, so a negative number indexes before the table and reads
   * undefined (None).
   */
  function KindToStringAsWritten(k: int): (r: Option<string>)
    ensures r.None? <==> k < 0
    ensures r.Some? ==> r.value in SpecifierLabels
  {
    var i := if k >= |SpecifierLabels| then 0 else k;
    if 0 <= i then Some(SpecifierLabels[i]) else None
  }

  /** The input that shows the missing lower bound. */
  lemma NegativeKindReadsUndefined()
    ensures KindToStringAsWritten(-1) == None
  {
  }

  /** SpecifierKind.toString with the fallback label for every number outside the table. */
  function KindToString(k: int): (r: string)
    ensures 1 <= k <= 4 ==> r == SpecifierLabels[k]
    ensures !(1 <= k <= 4) ==> r == "(unknown encoding specifier)"
  {
    if 0 <= k < |SpecifierLabels| then SpecifierLabels[k] else SpecifierLabels[0]
  }

  /** The corrected KindToString changes nothing where the original is defined. */
  lemma KindToStringAgrees(k: int)
    requires 0 <= k
    ensures KindToStringAsWritten(k) == Some(KindToString(k))
  {
  }

  /** The label of each kind. */
  lemma KindLabels()
    ensures KindToString(SpecifierKind.CFStringEncoding.Code()) == "CFStringEncoding"
    ensures KindToString(SpecifierKind.IANACharSetName.Code()) == "IANA charset name"
    ensures KindToString(SpecifierKind.WindowsCodepage.Code()) == "Windows codepage"
    ensures KindToString(SpecifierKind.NSStringEncoding.Code()) == "NSStringEncoding"
  {
  }

  /** The second argument of UnrecognizedEncodingError: a label of its own or a kind number. */
  datatype KindArgument = KindName(name: string) | KindNumber(code: int)

  const UnrecognizedPrefix := "Unrecognized "
  const NotRepresentablePrefix := "Not fully representable in "

  /**
   * The label the message uses: a string kind verbatim; a number through
   * SpecifierKind.toString as written, whose undefined result the template
   * string renders as "undefined".
   */
  function KindLabel(kind: KindArgument): string {
    match kind
    case KindName(name) => name
    case KindNumber(code) => KindToStringAsWritten(code).GetOr("undefined")
  }

  /** The label a kind number gives is the corrected one except for negative numbers, which read "undefined". */
  lemma KindLabelOfNumber(code: int)
    ensures code >= 0 ==> KindLabel(KindNumber(code)) == KindToString(code)
    ensures code < 0 ==> KindLabel(KindNumber(code)) == "undefined"
  {
    if code >= 0 {
      KindToStringAgrees(code);
    }
  }

  /** The message of `new UnrecognizedEncodingError(specifier, kind)`. */
  function UnrecognizedEncodingMessage(host: Host, specifier: Value, kind: KindArgument): (m: string)
    ensures |m| == |UnrecognizedPrefix| + |KindLabel(kind)| + 2 + |host.inspect(specifier)|
    ensures m[..|UnrecognizedPrefix|] == UnrecognizedPrefix
    ensures m[|UnrecognizedPrefix|..|UnrecognizedPrefix| + |KindLabel(kind)|] == KindLabel(kind)
    ensures m[|UnrecognizedPrefix| + |KindLabel(kind)|..|UnrecognizedPrefix| + |KindLabel(kind)| + 2] == ": "
    ensures m[|m| - |host.inspect(specifier)|..] == host.inspect(specifier)
  {
    UnrecognizedPrefix + KindLabel(kind) + ": " + host.inspect(specifier)
  }

  /** With a negative kind number the message names the kind "undefined". */
  lemma NegativeKindMessage(host: Host, specifier: Value)
    ensures UnrecognizedEncodingMessage(host, specifier, KindNumber(-1))[..|UnrecognizedPrefix| + 9]
      == "Unrecognized undefined"
  {
    NegativeKindReadsUndefined();
  }

  /** What the message shows of the unrepresentable input: a string cut to 15 characters, then inspected. */
  function Shown(host: Host, text: Value): string {
    if text.Str? then host.inspect(Str(host.truncate(text.s, 15))) else host.inspect(text)
  }

  /**
   * The message of `new NotRepresentableError(text, encoding)`, given the
   * encoding as the template string renders it.
   */
  function NotRepresentableMessage(host: Host, text: Value, encodingText: string): (m: string)
    ensures |m| == |NotRepresentablePrefix| + |encodingText| + 2 + |Shown(host, text)|
    ensures m[..|NotRepresentablePrefix| + |encodingText|] == NotRepresentablePrefix + encodingText
    ensures m[|NotRepresentablePrefix| + |encodingText|..|NotRepresentablePrefix| + |encodingText| + 2] == ": "
    ensures text.Str? ==> m[|m| - |Shown(host, text)|..] == host.inspect(Str(host.truncate(text.s, 15)))
    ensures !text.Str? ==> m[|m| - |Shown(host, text)|..] == host.inspect(text)
  {
    NotRepresentablePrefix + encodingText + ": " + Shown(host, text)
  }

  /** What the add-on throws. */
  datatype Exception =
      /** A plain Napi::Error reporting a bug in the add-on itself. */
    | InternalError(message: string)
      /** A Napi::TypeError with a fixed message. */
    | TypeError(message: string)
      /** The host's newFormattedTypeError(expected, actual), a TypeError. */
    | FormattedTypeError(expected: string, actual: Value)
      /** The TypeError of UnwrapOrThrow for a value that is not a StringEncoding. */
    | NotAStringEncoding(actual: Value)
      /** new UnrecognizedEncodingError(specifier, kind.Code()). */
    | UnrecognizedEncoding(specifier: Value, kind: SpecifierKind)
      /** new NotRepresentableError(text, encoding). */
    | NotRepresentable(text: Value, encoding: Value)
  {
    /** Whether the host sees an instance of TypeError. */
    predicate IsTypeError() {
      TypeError? || FormattedTypeError? || NotAStringEncoding?
    }
  }
}
