# pluto-swift-sdk, modelled in Dafny

The Pluto Swift SDK lets an iOS app prove facts about a user's web session.
A **manifest** describes an HTTPS request and the response it expects. The
SDK has four parts:

- a JSON codec for the manifest, built around `AnyCodable`, a JSON-shaped
  value used as a request body;
- the `Methods` and `Mode` enums;
- `ManifestParser`, which turns text into a manifest or `nil`;
- the `Prover`, which flattens a manifest into a configuration for the native
  prover, reads the prover's reply and reports `loading`/`success`/`failure`
  to the caller.

Above these sits `RequestBuilder`. It presents a browser, receives its
`(cookies, DOM)` captures, drives an injector with them, and cleans up once
the injector reports the constructed manifest.

The model has one module per source file:

| module | file | form |
|---|---|---|
| `Wrappers` | `wrappers.dfy` | `Option` and `Result` |
| `Foundation` | `foundation.dfy` | the JSON tree, JSON text, base64 and Codable errors, kept symbolic |
| `Enums` | `enums.dfy` | the two enums, raw values and their coding |
| `AnyCodableModel` | `anycodable.dfy` | `AnyCodable` decode, encode and `toBase64`, as functions |
| `ManifestModels` | `manifest_models.dfy` | the manifest records and their Codable behaviour, plus cookie encoding |
| `ManifestParser` | `manifest_parser.dfy` | both `parseManifest` overloads |
| `Prover` | `prover.dfy` | `buildConfig` and the reply verdict as functions; `generateProof` as a method checked against `GenerateProofRun` |
| `RequestBuilderModel` | `request_builder.dfy` | `RequestBuilder` as a class; the injector, browser and callback as small classes |

The JSON layer works on a tree. `Data` is either the text of a JSON tree or
bytes that are not JSON. Writing a tree and reading it back gives the same
tree, and base64 decoding gives back its input. Swift `Codable` behaves here
as follows:

- a required key must be present with the right type;
- `decodeIfPresent` gives `nil` for a missing key or `null`;
- unknown keys are ignored;
- `encodeIfPresent` omits `nil`.

A Swift `Int` is 64 bits (`Int64`). A `Double` is kept opaque as the JSON
number it is written as; NaN and the infinities are a separate case. A JSON
number whose magnitude rounds past the largest finite `Double` (a whole number
of at least 2^1024 - 2^970, or a literal such as `1e400`) is no `Double`, so
JSONDecoder rejects it.

## Model

| member | source | states |
|---|---|---|
| Foundation.ReadJson | Sources/PlutoSwiftSDK/ManifestParser.swift:15 | reading bytes as JSON succeeds exactly for JSON text |
| Foundation.WriteJson | Sources/PlutoSwiftSDK/ManifestModels.swift:64 | text written from a tree reads back as that tree |
| Enums.MethodRawValue | Sources/PlutoSwiftSDK/Enums.swift:4-14 | every verb's raw value is one of the nine declared names |
| Enums.ModeRawValue | Sources/PlutoSwiftSDK/Enums.swift:23-30 | every mode's raw value is one of the four declared strings, and it is "TEE" exactly for `TEE` |
| Enums.MethodFromRawValue | Sources/PlutoSwiftSDK/Enums.swift:4-14 | a recognised raw value is the raw value of the case returned |
| Enums.MethodRawValueRoundTrip | Sources/PlutoSwiftSDK/Enums.swift:4-14 | every verb's raw value is one of the nine names and parses back to that verb |
| Enums.MethodFromRawValueTotal | Sources/PlutoSwiftSDK/Enums.swift:4 | a string maps to a verb exactly when it is one of the nine raw values |
| Enums.ModeFromRawValue | Sources/PlutoSwiftSDK/Enums.swift:17-30 | a recognised raw value is the raw value of the mode returned |
| Enums.ModeRawValueRoundTrip | Sources/PlutoSwiftSDK/Enums.swift:23-30 | "Origo", "TEE", "Proxy" and "TLSN" are distinct, and each parses back to its mode |
| Enums.ModeFromRawValueTotal | Sources/PlutoSwiftSDK/Enums.swift:17 | a string maps to a mode exactly when it is one of the four raw values |
| Enums.DecodeMethod | Sources/PlutoSwiftSDK/Enums.swift:4 | decoding succeeds exactly on a JSON string holding a raw value, and that string is the case's encoding |
| Enums.DecodeMode | Sources/PlutoSwiftSDK/Enums.swift:17 | decoding succeeds exactly on a JSON string holding a raw value, and that string is the case's encoding |
| Enums.MethodCodingRoundTrip | Sources/PlutoSwiftSDK/Enums.swift:4-14 | decoding an encoded verb gives the verb |
| Enums.ModeCodingRoundTrip | Sources/PlutoSwiftSDK/Enums.swift:17-30 | decoding an encoded mode gives the mode |
| Enums.EncodeMethod | Sources/PlutoSwiftSDK/Enums.swift:4-14 | a verb encodes as a JSON string holding one of the nine raw values, which names that verb |
| Enums.EncodeMode | Sources/PlutoSwiftSDK/Enums.swift:17-30 | a mode encodes as a JSON string holding one of the four raw values, which names that mode |
| AnyCodableModel.DecodeInt | Sources/PlutoSwiftSDK/ManifestModels.swift:14 | an Int decodes exactly from a whole JSON number in 64-bit range |
| AnyCodableModel.DecodeDouble | Sources/PlutoSwiftSDK/ManifestModels.swift:16 | a Double decodes exactly from a JSON number within Double range, and is that number |
| AnyCodableModel.DecodeBool | Sources/PlutoSwiftSDK/ManifestModels.swift:18 | a Bool decodes exactly from a JSON boolean, and is its value |
| AnyCodableModel.DecodeString | Sources/PlutoSwiftSDK/ManifestModels.swift:20 | a String decodes exactly from a JSON string |
| AnyCodableModel.DecodeAnyCodable | Sources/PlutoSwiftSDK/ManifestModels.swift:11-34 | `null` never decodes; the result is never another Swift type or a non-finite Double, and a Double is within Double range; each variant is the JSON value it came from, and arrays and objects hold the decodings of their elements, same length or keys |
| AnyCodableModel.EncodeAnyCodable | Sources/PlutoSwiftSDK/ManifestModels.swift:36-61 | another Swift type and a NaN or infinity throw; the encoding never contains `null` or an out-of-range number, so it always decodes |
| AnyCodableModel.DecodeSucceedsIffDecodable | Sources/PlutoSwiftSDK/ManifestModels.swift:11-33 | decoding succeeds exactly when no `null` and no number beyond Double range occurs anywhere, nested or not |
| AnyCodableModel.EncodeSucceedsIffEncodable | Sources/PlutoSwiftSDK/ManifestModels.swift:36-61 | encoding fails exactly when the value holds another Swift type, or a NaN or infinity, at any depth |
| AnyCodableModel.IntegralNumberDecodesAsInt | Sources/PlutoSwiftSDK/ManifestModels.swift:14-21 | a whole number in Int range becomes Int, never Double or String |
| AnyCodableModel.WideIntegralDecodesAsDouble | Sources/PlutoSwiftSDK/ManifestModels.swift:14-17 | a whole number outside Int range but within Double range falls through to Double |
| AnyCodableModel.OverflowingNumberFails | Sources/PlutoSwiftSDK/ManifestModels.swift:14-33 | a number beyond Double range matches no case, so decoding throws |
| AnyCodableModel.DoubleRangeBoundary | Sources/PlutoSwiftSDK/ManifestModels.swift:14-33 | 2^1024 - 2^970 - 1 decodes as a Double; -(2^1024 - 2^970) does not decode |
| AnyCodableModel.EncodePreservesShape | Sources/PlutoSwiftSDK/ManifestModels.swift:39-59 | the encoding keeps the variant, and arrays and objects encode element by element with the same length or keys |
| AnyCodableModel.EncodeDecodeRoundTrip | Sources/PlutoSwiftSDK/ManifestModels.swift:11-61 | for values without Double, decoding the encoding gives the value back |
| AnyCodableModel.DoubleDoesNotRoundTrip | Sources/PlutoSwiftSDK/ManifestModels.swift:14-17 | the double 5.0 reads back as the Int 5 |
| AnyCodableModel.ToBase64 | Sources/PlutoSwiftSDK/ManifestModels.swift:63-66 | succeeds exactly when the value is encodable, and its base64 text decodes to the JSON encoding of the value |
| AnyCodableModel.ToBase64RoundTrip | Sources/PlutoSwiftSDK/ManifestModels.swift:63-66 | decoding the base64 text of a value without Double gives the value back |
| ManifestModels.Required | Sources/PlutoSwiftSDK/ManifestModels.swift:149-157 | a required key yields a value only when the key is present and its value decodes |
| ManifestModels.IfPresent | Sources/PlutoSwiftSDK/ManifestModels.swift:154-155 | an optional key gives nil when missing or null, and otherwise requires a value that decodes |
| ManifestModels.IfPresentRecovers | Sources/PlutoSwiftSDK/ManifestModels.swift:86-88 | reading back an optional field that was written only when present gives the original optional |
| ManifestModels.DecodeStringMap | Sources/PlutoSwiftSDK/ManifestModels.swift:85 | a header map decodes exactly from an object whose every value is a string, with the same keys and those strings as values |
| ManifestModels.EncodeStringMap | Sources/PlutoSwiftSDK/ManifestModels.swift:85 | a header map encodes as an object with the same keys, each holding its string |
| ManifestModels.StringMapRoundTrip | Sources/PlutoSwiftSDK/ManifestModels.swift:85 | header maps round-trip |
| ManifestModels.DecodeStringArray | Sources/PlutoSwiftSDK/ManifestModels.swift:131 | decodes exactly from an array of strings, keeping length, order and values |
| ManifestModels.EncodeStringArray | Sources/PlutoSwiftSDK/ManifestModels.swift:131 | a string array encodes as a JSON array of the same length, element by element |
| ManifestModels.DecodeManifestVars | Sources/PlutoSwiftSDK/ManifestModels.swift:70-80 | decodes exactly from an object whose `type`, `regex` and `length` are each absent, `null` or decodable, reading each if present; an object without those keys gives all three nil |
| ManifestModels.EncodeManifestVars | Sources/PlutoSwiftSDK/ManifestModels.swift:70-80 | each of `type`, `regex` and `length` is written exactly when set, holding its value, and no other key is written |
| ManifestModels.StringArrayRoundTrip | Sources/PlutoSwiftSDK/ManifestModels.swift:131 | `ResponseBody.json` round-trips |
| ManifestModels.ManifestVarsRoundTrip | Sources/PlutoSwiftSDK/ManifestModels.swift:70-80 | `ManifestVars` round-trips, including its optional `type`, `regex` and `length` |
| ManifestModels.DecodeVarsMap | Sources/PlutoSwiftSDK/ManifestModels.swift:87 | a vars map decodes exactly from an object whose every value decodes as `ManifestVars`, with the same keys and those decoded values |
| ManifestModels.EncodeVarsMap | Sources/PlutoSwiftSDK/ManifestModels.swift:87 | a vars map encodes under the same keys, each entry decoding back to its own vars |
| ManifestModels.VarsMapRoundTrip | Sources/PlutoSwiftSDK/ManifestModels.swift:87 | vars maps round-trip |
| ManifestModels.DecodeExtra | Sources/PlutoSwiftSDK/ManifestModels.swift:107-127 | decodes exactly from an object whose five optional fields are each absent, `null` or decodable, reading each if present; an object without those keys gives all five nil |
| ManifestModels.DecodeRequest | Sources/PlutoSwiftSDK/ManifestModels.swift:82-105 | decodes exactly when method, url and headers are present and decode, and body, vars and extra are each absent, `null` or decodable; the result holds those values |
| ManifestModels.DecodeResponseBody | Sources/PlutoSwiftSDK/ManifestModels.swift:130-136 | decodes exactly when `json` is present as an array of strings |
| ManifestModels.DecodeResponse | Sources/PlutoSwiftSDK/ManifestModels.swift:129-147 | decodes exactly when status, headers and body are all present and decode; the result holds those values |
| ManifestModels.DecodeManifest | Sources/PlutoSwiftSDK/ManifestModels.swift:149-178 | decodes exactly when the four strings, request and response are present and decode, and prepareUrl and mode are each absent, `null` or decodable; the result holds those values |
| ManifestModels.EncodeOptionalBody | Sources/PlutoSwiftSDK/ManifestModels.swift:86 | an optional body fails to encode exactly when present and not encodable |
| ManifestModels.EncodeExtra | Sources/PlutoSwiftSDK/ManifestModels.swift:107-127 | the extra's encoding uses only the five extra keys |
| ManifestModels.EncodeRequest | Sources/PlutoSwiftSDK/ManifestModels.swift:82-105 | the request's encoding uses only the six request keys |
| ManifestModels.EncodeResponse | Sources/PlutoSwiftSDK/ManifestModels.swift:129-147 | the response's encoding has exactly the keys status, headers and body |
| ManifestModels.EncodeManifest | Sources/PlutoSwiftSDK/ManifestModels.swift:149-178 | a manifest encodes to an object with only the manifest's keys |
| ManifestModels.EncodeManifestSucceedsIff | Sources/PlutoSwiftSDK/ManifestModels.swift:149-178 | encoding a manifest fails exactly when its request body or extra body cannot be encoded |
| ManifestModels.BodyRecovers | Sources/PlutoSwiftSDK/ManifestModels.swift:86 | an optional body without Double is read back from its encoding |
| ManifestModels.ExtraRoundTrip | Sources/PlutoSwiftSDK/ManifestModels.swift:107-127 | `ManifestFileRequestExtra` round-trips |
| ManifestModels.RequestRoundTrip | Sources/PlutoSwiftSDK/ManifestModels.swift:82-105 | `ManifestFileRequest` round-trips, nested extra included |
| ManifestModels.ResponseRoundTrip | Sources/PlutoSwiftSDK/ManifestModels.swift:129-147 | `ManifestFileResponse` round-trips |
| ManifestModels.ManifestRoundTrip | Sources/PlutoSwiftSDK/ManifestModels.swift:149-178 | a manifest whose bodies hold no Double round-trips field for field |
| ManifestModels.EncodedExtraIsFlat | Sources/PlutoSwiftSDK/ManifestModels.swift:88 | an encoded request's `extra` never has an `extra` of its own |
| ManifestModels.DecodedExtraIgnoresNestedExtra | Sources/PlutoSwiftSDK/ManifestModels.swift:107-112 | an `extra` key inside `extra` is ignored, so nesting stops at one level |
| ManifestModels.UnknownKeyIgnored | Sources/PlutoSwiftSDK/ManifestModels.swift:149-157 | a key outside the manifest's keys does not change the decoded result |
| ManifestModels.RequiredKeysNeeded | Sources/PlutoSwiftSDK/ManifestModels.swift:150-157 | a decoded manifest had request, response and the four string keys |
| ManifestModels.AbsentOptionalsAreNil | Sources/PlutoSwiftSDK/ManifestModels.swift:154-155 | absent or `null` prepareUrl, mode, body, vars and extra decode to nil |
| ManifestModels.EncodeCookie | Sources/PlutoSwiftSDK/ManifestModels.swift:186-197 | name, value, domain, path, isSecure and isHTTPOnly are always written with their values; expiresDate is written exactly when present |
| ManifestModels.EncodeDate | Sources/PlutoSwiftSDK/ManifestModels.swift:193 | under the default strategy a date is its reference-date seconds as a number; under `.iso8601` it is its ISO 8601 string |
| ManifestModels.CookieToJSONString | Sources/PlutoSwiftSDK/ManifestModels.swift:202-215 | a cookie's JSON text is its encoding with ISO 8601 dates |
| ManifestModels.CookieSummary | Sources/PlutoSwiftSDK/ManifestModels.swift:220-227 | each cookie becomes an object with exactly name, value, domain and path, holding the cookie's values |
| ManifestModels.CookiesToJSONString | Sources/PlutoSwiftSDK/ManifestModels.swift:218-237 | one object per cookie in input order, each with exactly name, value, domain and path, holding the cookie's values |
| ManifestParser.ParseManifestData | Sources/PlutoSwiftSDK/ManifestParser.swift:14-16 | the result is non-nil exactly when the bytes are JSON and decode to a manifest; no error escapes |
| ManifestParser.ParseManifestString | Sources/PlutoSwiftSDK/ManifestParser.swift:6-12 | nil when UTF-8 conversion fails, otherwise the same as the Data overload on the converted bytes |
| ManifestParser.MalformedIsNil | Sources/PlutoSwiftSDK/ManifestParser.swift:15 | malformed bytes parse to nil |
| ManifestParser.ParseEncodedManifest | Sources/PlutoSwiftSDK/ManifestParser.swift:14-16 | parsing the encoder's output reproduces the manifest |
| ManifestParser.ParseEncodedManifestString | Sources/PlutoSwiftSDK/ManifestParser.swift:6-12 | the same holds through the String overload |
| ManifestParser.ParseIgnoresUnknownKey | Sources/PlutoSwiftSDK/ManifestParser.swift:15 | an extra top-level key such as `debugLogs` leaves the result unchanged |
| ManifestParser.MissingRequestOrResponseIsNil | Sources/PlutoSwiftSDK/ManifestParser.swift:15 | a document without request or response parses to nil |
| ManifestParser.SampleExtraDecodes | Tests/PlutoSwiftSDKTests/PlutoSwiftSDKTest.swift:25-29 | the test's `extra` decodes to GET, its URL and its Accept header |
| ManifestParser.SampleVarsDecode | Tests/PlutoSwiftSDKTests/PlutoSwiftSDKTest.swift:23 | the test's `vars` decodes with type "string" and length 2 |
| ManifestParser.SampleRequestDecodes | Tests/PlutoSwiftSDKTests/PlutoSwiftSDKTest.swift:19-30 | the test's request decodes field for field |
| ManifestParser.SampleResponseDecodes | Tests/PlutoSwiftSDKTests/PlutoSwiftSDKTest.swift:31-37 | the test's response decodes field for field |
| ManifestParser.SampleDocumentParses | Tests/PlutoSwiftSDKTests/PlutoSwiftSDKTest.swift:10-41 | the test's document, `debugLogs` included, parses to the expected manifest |
| Prover.MergeHeaders | Sources/PlutoSwiftSDK/Prover.swift:72 | the merged headers have the union of the keys, the extra value winning on a collision |
| Prover.ExtraHeaders | Sources/PlutoSwiftSDK/Prover.swift:72 | the headers of `extra` when both are present, and the empty map otherwise |
| Prover.TargetBody | Sources/PlutoSwiftSDK/Prover.swift:40 | the body is the request body, or `""` when there is none |
| Prover.BuildConfig | Sources/PlutoSwiftSDK/Prover.swift:59-78 | succeeds exactly when body and manifest encode, and throws the encoding error otherwise; the config holds the mode's raw value or "TEE", the notary host and port, the two 10000 limits, the method's raw value, the URL, the base64 of the body and the manifest's encoding |
| Prover.BuildConfigFailsIff | Sources/PlutoSwiftSDK/Prover.swift:40-43 | building the config fails exactly when a body of the manifest cannot be encoded, never with `invalidResponse` |
| Prover.ConfigHeaders | Sources/PlutoSwiftSDK/Prover.swift:72 | `target_headers` is the request headers merged with extra's headers, extra winning |
| Prover.MergeHeadersExample | Sources/PlutoSwiftSDK/Prover.swift:72 | {A: 1} merged with {A: 2, B: 3} is {A: 2, B: 3} |
| Prover.ConfigPayloadsRoundTrip | Sources/PlutoSwiftSDK/Prover.swift:60-76 | `target_body` decodes to the body, or to "" without one, and `proving.manifest` decodes to the manifest |
| Prover.ResponseVerdict | Sources/PlutoSwiftSDK/Prover.swift:97-116 | at most one status is sent, and it is `success` exactly when a proof is returned |
| Prover.DecodeRawProverResponse | Sources/PlutoSwiftSDK/Prover.swift:16-19 | decodes exactly from an object whose `proof` and `error` are each absent, `null` or a string; each field is set exactly when its key is present and not `null`, holding that string; an object with neither key gives two nils |
| Prover.ErrorFieldWins | Sources/PlutoSwiftSDK/Prover.swift:104-107 | an `error` field throws `.custom(error)` and sends `failure`, even beside a proof |
| Prover.ProofFieldAlone | Sources/PlutoSwiftSDK/Prover.swift:109-112 | a proof alone is returned with `success` |
| Prover.NeitherField | Sources/PlutoSwiftSDK/Prover.swift:114-115 | neither field throws `invalidResponse` after sending `failure` |
| Prover.GenerateProofRun | Sources/PlutoSwiftSDK/Prover.swift:34-56 | as written: nothing is sent exactly when the config cannot be built; otherwise two or three statuses are sent, starting with `loading`; success sends exactly [loading, success] |
| Prover.NoStatusWithoutConfig | Sources/PlutoSwiftSDK/Prover.swift:42-55 | when the config cannot be built, nothing is sent and the encoding error is thrown |
| Prover.LoadingFirstAndOnce | Sources/PlutoSwiftSDK/Prover.swift:43-52 | otherwise `loading` comes first and only once, and the last status matches the outcome |
| Prover.SuccessSequence | Sources/PlutoSwiftSDK/Prover.swift:44-48 | a successful call sends exactly [loading, success] |
| Prover.ThrowingProverSequence | Sources/PlutoSwiftSDK/Prover.swift:46-51 | a throwing prover call sends exactly [loading, failure] and rethrows its error |
| Prover.ErrorReplySendsFailureTwice | Sources/PlutoSwiftSDK/Prover.swift:48-51 | as written, an `error` reply sends [loading, failure, failure] |
| Prover.NeitherFieldSendsFailureTwice | Sources/PlutoSwiftSDK/Prover.swift:48-51 | as written, a reply whose `proof` and `error` are both null sends [loading, failure, failure] and throws `invalidResponse` |
| Prover.MockSuccessReply | Tests/PlutoSwiftSDKTests/ProverTests.swift:16-61 | the test's mock reply gives "mock-proof-data" and [loading, success] |
| Prover.GenerateProofRunCorrected | Sources/PlutoSwiftSDK/Prover.swift:42-55 | corrected: nothing is sent exactly when the config cannot be built, and otherwise exactly `loading` and then one `success` or `failure` |
| Prover.CorrectedSendsOneTerminalStatus | Sources/PlutoSwiftSDK/Prover.swift:42-55 | with the catch corrected, exactly one `success` or `failure` follows one `loading`, with the same result |
| Prover.Emit | Sources/PlutoSwiftSDK/Prover.swift:44 | a status reaches the closure when there is one, and otherwise nothing happens |
| Prover.HandleProverResponse | Sources/PlutoSwiftSDK/Prover.swift:97-116 | returns the verdict's result and sends the verdict's statuses |
| Prover.GenerateProof | Sources/PlutoSwiftSDK/Prover.swift:34-56 | sets up tracing, returns `GenerateProofRun`'s result and sends exactly its statuses in order |
| Prover.TracingFlag.constructor | Sources/PlutoSwiftSDK/Prover.swift:21 | tracing starts out not set up |
| Prover.StatusLog.Notify | Sources/PlutoSwiftSDK/Prover.swift:34 | a status is appended to what the closure has received |
| RequestBuilderModel.CookieDict | Sources/PlutoSwiftSDK/RequestBuilder.swift:109-115 | every entry is one of the input cookies, stored under its own name |
| RequestBuilderModel.CookieDictKeys | Sources/PlutoSwiftSDK/RequestBuilder.swift:109-115 | the dictionary's keys are exactly the cookie names, and it is no larger than the input |
| RequestBuilderModel.CookieDictLastWins | Sources/PlutoSwiftSDK/RequestBuilder.swift:111-113 | each name maps to the last cookie with that name |
| RequestBuilderModel.RequestBuilder.CookiesDictionary | Sources/PlutoSwiftSDK/RequestBuilder.swift:109-115 | the loop builds `CookieDict`: keys are the cookie names, the last cookie wins, size at most the input length |
| RequestBuilderModel.RequestBuilder.OnlyCurrentInjectorOpen | Sources/PlutoSwiftSDK/RequestBuilder.swift:69-76 | under `Valid()`, which every builder operation keeps, the current injector is the only one created that is still open |
| RequestBuilderModel.RequestBuilder.ReleaseParent | Sources/PlutoSwiftSDK/RequestBuilder.swift:8 | the weakly held parent going away sets only the parent to nil |
| RequestBuilderModel.RequestBuilder.constructor | Sources/PlutoSwiftSDK/RequestBuilder.swift:15-17 | a new builder has a parent and nothing else set |
| RequestBuilderModel.RequestBuilder.WithManifest | Sources/PlutoSwiftSDK/RequestBuilder.swift:21-24 | sets only the manifest and returns the same builder |
| RequestBuilderModel.RequestBuilder.WithPrepareJS | Sources/PlutoSwiftSDK/RequestBuilder.swift:27-30 | sets only the prepare script and returns the same builder |
| RequestBuilderModel.RequestBuilder.ShowBrowserView | Sources/PlutoSwiftSDK/RequestBuilder.swift:33-60 | `manifestRequired` is checked before `noParentViewController`, and either error changes nothing; otherwise the builder retains itself, stores the callback and presents a fresh browser with the manifest |
| RequestBuilderModel.RequestBuilder.BrowserClosed | Sources/PlutoSwiftSDK/RequestBuilder.swift:55-57 | closing the browser clears only `retainSelf` |
| RequestBuilderModel.RequestBuilder.CreateInjector | Sources/PlutoSwiftSDK/RequestBuilder.swift:79-97 | without a parent nothing happens; otherwise a fresh injector with the given data becomes current, and at most one injector stays open |
| RequestBuilderModel.RequestBuilder.DidCaptureData | Sources/PlutoSwiftSDK/RequestBuilder.swift:63-77 | the first capture creates the injector and later ones update it with the capture's cookie dictionary and DOM |
| RequestBuilderModel.RequestBuilder.OnCapture | Sources/PlutoSwiftSDK/RequestBuilder.swift:48-53 | a capture uses the browser's manifest from show time and the builder's current prepare script |
| RequestBuilderModel.RequestBuilder.Cleanup | Sources/PlutoSwiftSDK/RequestBuilder.swift:117-123 | removes the browser from the screen and closes the injector exactly once; browser, injector and retainSelf become nil |
| RequestBuilderModel.RequestBuilder.OnInjectorComplete | Sources/PlutoSwiftSDK/RequestBuilder.swift:93-97 | the callback receives the updated manifest, and then cleanup runs |
| RequestBuilderModel.Injector.UpdateData | Sources/PlutoSwiftSDK/RequestBuilder.swift:75 | replaces the injector's cookies and DOM and counts the update |
| RequestBuilderModel.Injector.Close | Sources/PlutoSwiftSDK/RequestBuilder.swift:120 | counts the close and changes nothing else |
| RequestBuilderModel.Injector.constructor | Sources/PlutoSwiftSDK/RequestBuilder.swift:85-88 | a new injector holds the given manifest, cookies, initial DOM and prepare script, with no update and no close yet |
| RequestBuilderModel.BrowserView.constructor | Sources/PlutoSwiftSDK/RequestBuilder.swift:45-59 | a created and presented browser holds the show-time manifest and is on screen |
| RequestBuilderModel.BrowserView.RemoveFromSuperview | Sources/PlutoSwiftSDK/RequestBuilder.swift:118 | the browser leaves the screen |
| RequestBuilderModel.ManifestSink.Receive | Sources/PlutoSwiftSDK/RequestBuilder.swift:95 | the `onManifestConstructed` callback receives the updated manifest, appended after those it already had |
| RequestBuilderModel.CaptureSession | Sources/PlutoSwiftSDK/RequestBuilder.swift:42-123 | across show, reconfigure, two captures and completion, the injector is created once from the show-time manifest and the current prepare script, updated once, closed once, and the callback gets exactly the constructed manifest |
| RequestBuilderModel.ManifestCheckedFirst | Sources/PlutoSwiftSDK/RequestBuilder.swift:34-40 | with neither manifest nor parent, the error is `manifestRequired` and nothing is retained |

`RequestBuilder.Valid()` holds after every builder operation. It says that at
most one injector is open, that the open one is the current injector, and
that every earlier injector has been closed exactly once.

## Left out

- User interface: UIKit and WebKit layout, animation, `isHidden` and the
  auto-layout constraints in `createInjector`. The browser appears only as its
  capture and close events, and the injector as its constructor, `updateData`,
  `close` and completion event.
- The injector's internals and the JavaScript it runs: `Injector.swift` does
  not define the interface `RequestBuilder` uses. The injector's verdict is an
  abstract `OnInjectorComplete(updatedManifest)` event.
- The internals of JSONEncoder, JSONDecoder and JSONSerialization (lexing, key
  order, escaping) and of base64 are symbolic. The model keeps only that text
  reads back as the tree it was written from, and that base64 decodes to its
  input. String-to-UTF-8 conversion is a function parameter.
- `AnyCodableModel.DecodeInt` and `AnyCodableModel.DecodeAnyCodable`: a JSON
  literal with a fraction or an exponent goes through `Double` in Swift, so
  which branch it takes depends on its value after rounding (`1e-400`
  underflows to 0 and decodes as the `Int` 0). The model takes that rounding
  as given: the reader's `Integral`/`NonIntegral` classification is of the
  rounded value. The rounding itself is not modelled.
- `AnyCodableModel.EncodeDecodeRoundTrip`: excludes `Double`, because a
  double with a whole value is written as a whole number, which reads back as
  `Int` (see `DoubleDoesNotRoundTrip`). Floating-point rounding is not
  modelled.
- `ManifestModels.ManifestRoundTrip`: needs the bodies to hold no `Double`,
  for the same reason.
- `c_prover`, `c_setup_tracing` and `callObjectiveCProver` are foreign calls.
  The prover is a function parameter from configuration to reply, so
  serialising the configuration is not modelled: it either succeeds or
  becomes a thrown error. The global `setupTracing` flag is a `TracingFlag`
  object.
- `async`/`await`, `DispatchQueue.main.async` and thread interleavings: every
  event runs to completion, in the order the caller chooses.
- Weak references and deallocation. The parent view controller is a
  `parentAlive` flag that `ReleaseParent` clears. The builder is assumed to
  exist when its handlers run, so the `guard let self` early returns are not
  modelled. `retainSelf` is recorded but does not control lifetime.
- `Prover.ProverConfig`: `proving` is the flat field `provingManifest`, not a
  nested `["manifest": …]` dictionary.
- `ProverError.notImplemented` is declared but never thrown.
- `CookieDict`, `CookiesDictionary`, `MergeHeaders`, `DecodeStringMap` and `DecodeVarsMap`
  compare dictionary keys code point by code point. Swift compares `String` keys by
  canonical equivalence, so two names such as "\u{00C5}" and "\u{212B}" are one key in
  Swift and two keys here. Header and cookie names are ASCII tokens in practice.
- `CookieToJSONString` and `CookiesToJSONString` return the encoded `Data`. The
  `String(data:encoding: .utf8)` step and its error path, which throws an
  `EncodingError`, are not modelled.
- `LogInterceptor`, `PlutoSwiftSDK.swift` (delegation and the URLSession
  fetch), the demo app and `Package.swift` are not part of this model.
- Test assertions that do not fit the shown types (`Prover.generateProof(config:)`,
  `manifest.debugLogs`) are not modelled; `debugLogs` is treated as an unknown
  key.

Where the code and the SDK's documented intent differ, the model follows
the code:

- `showBrowserView` has no guard against a second call. A second call presents
  another browser and replaces `browserView` without removing the first.
- `cleanup` does not clear `onManifestConstructed`.
- A capture that arrives after `cleanup` creates a new injector. The earlier
  one stays closed.
- Nothing enforces that `manifestVersion` or `id` is non-empty.

## Findings

| source | as written | input that shows it | evidently intended | confidence | as-written member | corrected member |
|---|---|---|---|---|---|---|
| Sources/PlutoSwiftSDK/Prover.swift:48-51 | `handleProverResponse` sends `.failure` before throwing, and the enclosing `catch` sends `.failure` again | a prover reply `{"error": "e"}`, or a reply whose fields are both null, gives [loading, failure, failure] | each call sends `loading` and then exactly one `success` or `failure` | not executed | Prover.ErrorReplySendsFailureTwice | Prover.CorrectedSendsOneTerminalStatus |

`ErrorReplySendsFailureTwice` shows the doubled `failure` for an `error` reply, and `NeitherFieldSendsFailureTwice` shows it for a reply whose fields are both null.
`Prover.GenerateProof` follows the code as written. `GenerateProofRunCorrected`
sends `failure` from the `catch` only for errors that `handleProverResponse`
has not already reported.

