# iconv-corefoundation, modelled in Dafny

iconv-corefoundation is a Node.js add-on. It exposes the text encodings of
macOS's CoreFoundation string API as `StringEncoding` objects, and it
converts text between strings and byte buffers through them. This project
models the layer the add-on adds on top of CoreFoundation:

- how an encoding identity is minted and recognised through tag checks
  (`StringEncoding`);
- how the four lookups and the `system` accessor turn a service answer into
  an identity or an `UnrecognizedEncodingError`;
- the accessors, `equals` and the conversion to a primitive;
- `cfDecode` and `cfEncode`, and the transcoding entry points built on them
  (`transcode`, `encodeFastest`/`encodeSmallest`,
  `transcodeFastest`/`transcodeSmallest`), with their options parsing and
  acceptance predicate;
- the message rules of the two error classes;
- the `decode`/`encode` convenience functions;
- the retain/release discipline of `CFHandle`.

CoreFoundation itself is a `Service` value whose fields are uninterpreted
functions, so every result is proved for every service. Round-trip lemmas
take the service's own promise, `RoundTrips`, as a hypothesis: text it
encodes without a loss byte decodes back to itself. The JavaScript runtime
appears in two forms. Its values are the `Value` datatype. Its coercions,
function calls, `util.inspect` and `cli-truncate` are fields of a `Host`
value. Native memory that a pointer leads to is `Native(magic, encoding)`,
where `magic` is the tag that the class data or StringEncoding writes into
it. The construction cookie has no tag of its own: it is stamped with
StringEncoding's, so the cookie check and the identity check test one tag.

Files, one module each:
- `wrappers.dfy`: Option and Result.
- `napi.dfy`: host values, callback info, coercions.
- `core_foundation.dfy`: the service.
- `errors.dfy`: `src.ts/errors.ts` and the exceptions.
- `transcode_options.dfy`: the `EncodeOptions` constructor.
- `string_encoding.dfy`: `src/StringEncoding.cc`.
- `transcode.dfy`: `src/transcode.cc`.
- `index.dfy`: `src.ts/index.ts`.
- `cf_handle.dfy`: `src/CFHandle.hh`.

Where the repository's tests or type declarations and the native code
differ, the model follows the native code:
- A buffer that cannot be decoded raises `NotRepresentableError` carrying the
  buffer (`src/StringEncoding.cc:166-167`). `test/StringEncoding.spec.ts:232`
  expects an `InvalidEncodedTextError` instead, which the native code never
  raises.
- `byNSStringEncoding` applies no range check of its own. Only the service's
  invalid-id answer makes it fail (`src/StringEncoding.cc:272-281`).
- The `nsStringEncoding` accessor always returns a number, even for the
  service's "no such encoding" answer (`src/StringEncoding.cc:197-199`).
  `src.ts/native.ts:56` declares it as `number | null`.

## Model

| member | source | states |
|---|---|---|
| StringEncoding.ForMethodCall | src/StringEncoding.cc:43-48 | callback data is trusted exactly when it carries the class tag; otherwise a plain (non-TypeError) error with the bug-report message |
| StringEncoding.ForCtorCall | src/StringEncoding.cc:62-79 | accepted exactly when argument 0 is an external whose memory carries StringEncoding's tag (the cookie has no tag of its own); otherwise TypeError "not a constructor" for construct calls, "not a function" for plain calls |
| StringEncoding.Constructed | src/StringEncoding.cc:81-90 | the class check runs first, then the cookie check, whose failure is exactly ForCtorCall's TypeError ("not a constructor" for construct calls, "not a function" otherwise); on success the object unwraps to an identity with the cookie's encoding and shows it as `cfStringEncoding` |
| StringEncoding.Construct | src/StringEncoding.cc:81-90 | the constructor's field-by-field initialisation yields exactly `Constructed` |
| StringEncoding.New | src/StringEncoding.cc:50-60 | minting through a tagged cookie always succeeds and unwraps to the identity with the requested encoding |
| StringEncoding.Unwrap | src/StringEncoding.cc:92-102 | rejected exactly for non-objects and for wrapped pointers with a foreign tag; a null pointer comes back as present; a non-null result carries the identity tag |
| StringEncoding.UnwrapIdentity | src/StringEncoding.cc:92-102 | an identity exactly when Unwrap gives a non-null pointer, and then that pointer's target |
| StringEncoding.UnwrapNew | src/StringEncoding.cc:50-55 | mint-then-unwrap gives back the minted identity |
| StringEncoding.ForgeryRejected | src/StringEncoding.cc:96-99 | an object wrapping memory with any tag but StringEncoding's (the class data's, or a foreign word) is never taken for an identity |
| StringEncoding.UnwrapOrThrow | src/transcode.cc:131 | succeeds exactly for genuine identities; otherwise a TypeError naming the value |
| StringEncoding.CfEncode | src/StringEncoding.cc:104-127 | fails exactly when the service produces no bytes, with NotRepresentable carrying the caller's original string (or the text) and this encoding; otherwise a Buffer of exactly the service's bytes |
| StringEncoding.Decoded | src/StringEncoding.cc:129-170 | only an ArrayBuffer, a DataView or a Uint8Array is accepted, and the type check comes before the service is asked; the service's text on success; otherwise NotRepresentable carrying the buffer |
| StringEncoding.CfDecode | src/StringEncoding.cc:129-170 | the if/else chain filling data and length, then one service call, yields exactly `Decoded` |
| StringEncoding.Decode | src/StringEncoding.cc:201-203 | the decoded text as a string, or cfDecode's error unchanged |
| StringEncoding.Encode | src/StringEncoding.cc:205-210 | fails exactly when the service cannot encode the coerced string with the options' loss byte, naming that string; otherwise cfEncode's buffer |
| StringEncoding.EncodeDecodeRoundTrip | src/StringEncoding.cc:104-170 | text that encodes without a loss byte decodes back to itself, for a service that round-trips |
| StringEncoding.IanaCharSetName | src/StringEncoding.cc:172-187 | null exactly when the service has no IANA name, otherwise that name |
| StringEncoding.WindowsCodepage | src/StringEncoding.cc:189-195 | null exactly when the service answers UINT32_MAX, otherwise that codepage |
| StringEncoding.NsStringEncoding | src/StringEncoding.cc:197-199 | always a number, the service's answer; that it lies in the uint32 range is an assumption about CoreFoundation (the service's `idToNs` is typed to 32 bits, while the real call returns an unsigned long) |
| StringEncoding.Name | src/StringEncoding.cc:218-224 | always the service's display name |
| StringEncoding.ToPrimitive | src/StringEncoding.cc:226-237 | the hint "number" gives the id; any other hint gives the IANA name if there is one, else the display name, always a string |
| StringEncoding.EqualsAsWritten | src/StringEncoding.cc:212-216 | the code as written faults (None) exactly when Unwrap hands back a null pointer |
| StringEncoding.EqualsAsWrittenDereferencesNull | src/StringEncoding.cc:212-216 | an object with nothing wrapped makes the code as written fault |
| StringEncoding.Equals | src/StringEncoding.cc:212-216 | true exactly when the argument is a genuine identity with the same id; false for every non-identity |
| StringEncoding.EqualsAgreesWhereDefined | src/StringEncoding.cc:212-216 | wherever the code as written returns, the corrected equals returns the same |
| StringEncoding.EqualsReflexive | src/StringEncoding.cc:212-216 | an identity equals its own wrapper |
| StringEncoding.EqualsSymmetric | src/StringEncoding.cc:212-216 | equality between genuine identities is symmetric |
| StringEncoding.ByCFStringEncoding | src/StringEncoding.cc:239-247 | the class check comes first; succeeds exactly when the service has the id (argument taken modulo 2^32), minting it; otherwise UnrecognizedEncoding with the original argument and kind CFStringEncoding; a success is exactly the minted wrapper, `cfStringEncoding` included |
| StringEncoding.ByIANACharSetName | src/StringEncoding.cc:249-259 | the class check comes first; fails exactly on the invalid-id answer for the coerced name, with kind IANACharSetName; otherwise the result is exactly the wrapper minted for the service's id, `cfStringEncoding` included |
| StringEncoding.ByWindowsCodepage | src/StringEncoding.cc:261-270 | the same for codepages, kind WindowsCodepage; a success is exactly the minted wrapper |
| StringEncoding.ByNSStringEncoding | src/StringEncoding.cc:272-281 | the same for NSStringEncoding values, kind NSStringEncoding; a success is exactly the minted wrapper |
| StringEncoding.System | src/StringEncoding.cc:283-286 | succeeds exactly when the class check passes, and the result is then exactly the wrapper minted for the system encoding |
| StringEncoding.NSLookupHasNoRangeCheck | src/StringEncoding.cc:272-281 | for every value from 2^31 to 2^32 - 1: the lookup succeeds exactly when the service does not answer the sentinel, fails with the NSStringEncoding "unrecognized" error otherwise, and on success yields the identity the service names; no range check intervenes |
| StringEncoding.UnrecognizedMessageNamesKind | src/StringEncoding.cc:246 | a lookup failure's message is "Unrecognized <kind label>: <inspected specifier>" |
| StringEncoding.NotRepresentableNamesEncoding | src/StringEncoding.cc:113 | a cfEncode failure's message names the encoding by its IANA name, else its display name |
| Errors.SpecifierKind.Code | src.ts/errors.ts:25-30 | kind numbers are 1..4 and each indexes a proper label, never the fallback |
| Errors.KindOfCode | src.ts/errors.ts:25-30 | a number names a kind exactly when it is 1..4, and that kind's number is that number |
| Errors.CodeRoundTrip | src.ts/errors.ts:25-30 | no two kinds share a number |
| Errors.KindToStringAsWritten | src.ts/errors.ts:41-43 | the code as written reads undefined exactly for negative numbers; otherwise it gives a label from the table |
| Errors.NegativeKindReadsUndefined | src.ts/errors.ts:41-43 | the number -1 reads undefined |
| Errors.KindToString | src.ts/errors.ts:33-43 | 1..4 give their labels; every other number gives "(unknown encoding specifier)" |
| Errors.KindToStringAgrees | src.ts/errors.ts:41-43 | the corrected version agrees with the code as written on every non-negative number |
| Errors.KindLabels | src.ts/errors.ts:33-39 | each kind's label text |
| Errors.KindLabelOfNumber | src.ts/errors.ts:17-18 | a kind number is labelled through toString as written: the corrected label for non-negative numbers, "undefined" for negative ones |
| Errors.UnrecognizedEncodingMessage | src.ts/errors.ts:16-21 | the message is "Unrecognized ", then the kind label (a string kind verbatim, a number through toString as written), then ": ", then the inspected specifier |
| Errors.NegativeKindMessage | src.ts/errors.ts:17-20 | with kind number -1 the message begins "Unrecognized undefined" |
| Errors.NotRepresentableMessage | src.ts/errors.ts:9-11 | the message is "Not fully representable in ", the encoding as rendered, ": ", then the inspected input; a string input is truncated to 15 characters before it is inspected |
| TranscodeOptions.EncodeOptionsOf | src/transcode.cc:191-207 | a non-object gives the defaults; lossByte is set exactly when the property is a number; the predicate is set exactly when `isEncodingOk` is a function |
| TranscodeOptions.ParseEncodeOptions | src/transcode.cc:191-207 | the constructor's conditional field assignments yield exactly `EncodeOptionsOf` |
| Transcode.IsEncodingOk | src/transcode.cc:10-15 | accepts everything without a predicate, else follows the truthiness of the predicate's answer for the identity |
| Transcode.NoPredicateAcceptsAll | src/transcode.cc:10-15 | options that set no function accept every encoding |
| Transcode.IsEncodingOkFor | src/transcode.cc:17-24 | mints the identity for the id, hands it back through the out-parameter, and gives the predicate's verdict on it |
| Transcode.SelectedEncoded | src/transcode.cc:30-54 | a rejected selection gives null, with no encoding attempted; an accepted selection the service can encode gives exactly `{encoding, text}` with the selected identity and the service's bytes for the options' loss byte; otherwise NotRepresentable naming the original input |
| Transcode.SelectAndEncode | src/transcode.cc:30-54 | the selection is written to the out-parameter whatever the verdict, and the result is exactly `SelectedEncoded` |
| Transcode.SelectedEncodedRoundTrip | src/transcode.cc:30-54 | the returned text decodes with the returned encoding back to the input, for a service that round-trips and no loss byte |
| Transcode.EncodeSelecting | src/transcode.cc:100-117 | equals selectAndEncode on argument 0 coerced to a string, with argument 1 parsed as options (so its loss byte is used) and the coerced string as the original input; null on rejection; a failure names the coerced string |
| Transcode.EncodeFastest | src/transcode.cc:119-121 | selectAndEncode with the fastest selector: the encoding returned is the service's fastest for the text |
| Transcode.EncodeSmallest | src/transcode.cc:123-125 | selectAndEncode with the smallest selector: the encoding returned is the service's smallest for the text |
| Transcode.Transcode | src/transcode.cc:127-140 | a non-identity source, then a non-identity target, each fail with TypeError before the buffer is examined; then the buffer type; a NotRepresentable failure carries the original buffer; success is a Buffer |
| Transcode.TranscodeComposes | src/transcode.cc:127-140 | transcode is decode followed by encode, except that an encode failure names the buffer rather than the decoded text |
| Transcode.TranscodeRoundTrip | src/transcode.cc:127-140 | without a loss byte, the output decodes with the target encoding to what the input decodes to with the source encoding |
| Transcode.SelectAndTranscode | src/transcode.cc:142-161 | a decoding error wins before any selection; otherwise selectAndEncode on the decoded text with the buffer as the original input |
| Transcode.DecodeErrorPrecedesPredicate | src/transcode.cc:142-161 | an undecodable buffer fails whether or not a predicate would reject |
| Transcode.TranscodeSelecting | src/transcode.cc:163-181 | a non-identity source encoding is a TypeError; otherwise the inner selectAndTranscode, with argument 2 as the encode options |
| Transcode.TranscodeFastest | src/transcode.cc:187-189 | a source argument that is not an identity fails with the not-a-StringEncoding TypeError; otherwise the result is the selecting transcode with the parsed options and the fastest selector, and a non-null result names the service's fastest encoding for the decoded text |
| Transcode.TranscodeSmallest | src/transcode.cc:183-185 | a source argument that is not an identity fails with the not-a-StringEncoding TypeError; otherwise the result is the selecting transcode with the parsed options and the smallest selector, and a non-null result names the service's smallest encoding for the decoded text |
| Index.Resolve | src.ts/index.ts:14-35 | a name resolves through byIANACharSetName, failing with UnrecognizedEncoding of kind IANACharSetName; an identity stands for itself |
| Index.DecodeWith | src.ts/index.ts:14-18 | with a name, equals the looked-up identity's decode, or the lookup error; with an identity, that identity's decode |
| Index.EncodeWith | src.ts/index.ts:31-35 | with a name, equals the looked-up identity's encode, or the lookup error; with an identity, that identity's encode |
| Index.UnknownNameFailsBeforeBuffer | src.ts/index.ts:14-35 | an unknown name fails with UnrecognizedEncoding whatever the buffer or content is |
| Index.IdentityNeedsNoLookup | src.ts/index.ts:14-35 | with an identity argument, the result does not depend on the service's name mapping |
| Index.NameAndIdentityAgree | src.ts/index.ts:14-35 | passing a name and passing the identity it resolves to give the same result |
| CFHandle.RetainCounts.Retain | src/CFHandle.hh:13 | raises exactly the object's count by one |
| CFHandle.RetainCounts.Release | src/CFHandle.hh:19 | lowers exactly the object's count by one |
| CFHandle.CountChange | src/CFHandle.hh:11-20 | only a plain adoption leaves the count alone; only destruction lowers it; no event moves it by more than one |
| CFHandle.Handle.constructor | src/CFHandle.hh:11-14 | holds the given reference; retains exactly once when asked, otherwise leaves every count unchanged |
| CFHandle.Handle.Copy | src/CFHandle.hh:16 | holds the same object as the original and raises its count by one |
| CFHandle.Handle.Destroy | src/CFHandle.hh:18-20 | releases exactly once |
| CFHandle.Handle.Ref | src/CFHandle.hh:9-24 | the conversion returns the wrapped reference, which is const |
| CFHandle.Step | src/CFHandle.hh:11-20 | one event changes the count by its CountChange; copying or destroying needs a live handle |
| CFHandle.ReplayBalance | src/CFHandle.hh:11-20 | over any valid history, net change minus live handles drops by one per plain adoption and is otherwise fixed |
| CFHandle.AllDestroyedReleasesAdopted | src/CFHandle.hh:11-20 | once every handle is destroyed, the count has dropped by exactly the number of plainly adopted references |
| CFHandle.AdoptedReferenceReleasedOnce | src/CFHandle.hh:11-20 | adopt one reference, copy and destroy in any order until no handle is left: the count ends one below where it started |
| CFHandle.RunHistory | src/CFHandle.hh:11-20 | playing a history on real handles (constructor, copy constructor, destructor) moves the object's retain count by exactly the history's net change, leaves every other object's count unchanged, and leaves as many live handles as the history does |
| CFHandle.ReleaseAdoptedOnce | src/CFHandle.hh:11-20 | on real handles: adopting one reference, then copying and destroying until none is left, lowers that object's retain count by exactly one and leaves every other object's count unchanged |

## Left out

- CoreFoundation itself: its codec tables, its name, codepage and NSStringEncoding mappings, and its fastest/smallest heuristics. These are uninterpreted fields of `Service`.
- The N-API and CFString marshalling (`src/string-utils.cc`, `src/napi.hh`) and the module wiring (`src/iccf.cc`). Strings cross the boundary unchanged.
- Host coercions of non-numbers and non-strings, `util.inspect` and `cli-truncate` are opaque `Host` fields. Host numbers are integers, so NaN, infinities and fractions are not modelled.
- Host exceptions: the `Host` fields are total functions, so the model never throws where the host would. It leaves out `ToNumber()`/`ToString()` throwing on a Symbol (`src/StringEncoding.cc:206`, `:241`, `:251`), an `isEncodingOk` predicate that throws (`src/transcode.cc:14`), and property getters that throw while `EncodeOptions` reads `lossByte` or `isEncodingOk` (`src/transcode.cc:196`, `:202`).
- TranscodeOptions.EncodeOptionsOf: requires a numeric `lossByte` to be an integer in 0..255. The conversion of other numbers to UInt8 is undefined behaviour in the code.
- When `lossByte` is absent, `EncodeOptions` leaves the field uninitialised. The model reads it as 0, the default of `cfEncode`.
- The native memory of a Buffer that `cfEncode` hands over, and the finalizer that frees it, are not modelled. The model keeps a Buffer's bytes as a value.
- Transcode.SelectAndEncode: the two forwarding overloads (`src/transcode.cc:56-98`) are modelled as its `origString` argument rather than as members of their own.
- `DecodeOptions` carries nothing and decode ignores it, so the model has no decode-options parameter.
- StringEncoding.UnwrapOrThrow: its definition does not appear in the repository's source (only a declaration, `src/StringEncoding.hh:27`), and its `acceptStrings` flag is not modelled. It is modelled as the corrected unwrap plus a TypeError, the behaviour the transcode tests expect.
- Index.DecodeWith and Index.EncodeWith: require the declared parameter type `string | StringEncoding`. No other value is modelled.
- The method-call dispatch that unwraps `this` for instance methods is not modelled. Instance operations take the identity directly.
- CFHandle: the retain count is a ghost map of changes per object. The absolute count and deallocation at zero are not modelled.
- In `selectAndTranscode` (`src/transcode.cc:170-180`), the order of argument evaluation is unspecified. The model parses options first. Parsing cannot fail in the model, so either order gives the same result.

## Findings

| source | as written | input that shows it | evidently intended | confidence | as-written member | corrected member |
|---|---|---|---|---|---|---|
| src/StringEncoding.cc:92-101, 212-216 | `Unwrap` rejects only a non-null pointer with the wrong tag, so a null pointer is returned as present, and `equals` dereferences it | `se.equals(o)` where `o` is an object the host reports with nothing wrapped (`Object(NullPtr, map[])` in the model) | `equals` returns false for anything that is not a genuine identity | not executed; depends on the host's unwrap answering null rather than throwing | StringEncoding.EqualsAsWritten | StringEncoding.Equals |
| src.ts/errors.ts:41-43 | only `specifierKind >= strings.length` falls back to index 0 | `SpecifierKind.toString(-1)` reads `strings[-1]`, which is `undefined`, so `new UnrecognizedEncodingError(x, -1)` says "Unrecognized undefined" | every number outside 1..4 gives "(unknown encoding specifier)" | not executed | Errors.KindToStringAsWritten | Errors.KindToString |
