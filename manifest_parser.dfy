/** `ManifestParser`: total, optional-returning wrappers around manifest decoding. */
module ManifestParser {
  import opened Wrappers
  import opened Foundation
  import opened Enums
  import opened AnyCodableModel
  import opened ManifestModels

  /** `parseManifest(from: Data)`: any reading or decoding error becomes `nil`; nothing is thrown. */
  function ParseManifestData(d: Data): (r: Option<ManifestFile>)
    ensures r.Some? <==> d.JsonText? && DecodeManifest(d.document).Some?
    ensures r.Some? ==> r == DecodeManifest(d.document)
  {
    match ReadJson(d)
    case None => None
    case Some(document) => DecodeManifest(document)
  }

  /**
   * `parseManifest(from: String)`: `nil` when the UTF-8 conversion (a
   * Foundation call, passed in as `utf8`) fails, and otherwise the Data
   * overload applied to the converted bytes.
   */
  function ParseManifestString(s: string, utf8: string -> Option<Data>): (r: Option<ManifestFile>)
    ensures utf8(s).None? ==> r.None?
    ensures utf8(s).Some? ==> r == ParseManifestData(utf8(s).value)
  {
    var d :- utf8(s);
    ParseManifestData(d)
  }

  /** Bytes that are not JSON text parse to `nil`. */
  lemma MalformedIsNil(bytes: seq<byte>)
    ensures ParseManifestData(NotJson(bytes)) == None
  {
  }

  /** Parsing the encoder's output reproduces the manifest. */
  lemma ParseEncodedManifest(m: ManifestFile)
    requires BodiesSatisfy(m, DoubleFree)
    requires EncodeManifest(m).Some?
    ensures ParseManifestData(WriteJson(EncodeManifest(m).value)) == Some(m)
  {
    ManifestRoundTrip(m);
  }

  /** The same through the String overload, whenever the UTF-8 conversion yields the encoded text. */
  lemma ParseEncodedManifestString(m: ManifestFile, s: string, utf8: string -> Option<Data>)
    requires BodiesSatisfy(m, DoubleFree)
    requires EncodeManifest(m).Some?
    requires utf8(s) == Some(WriteJson(EncodeManifest(m).value))
    ensures ParseManifestString(s, utf8) == Some(m)
  {
    ManifestRoundTrip(m);
  }

  /** An extra top-level key such as `debugLogs` leaves the result unchanged. */
  lemma ParseIgnoresUnknownKey(members: map<string, Json>, key: string, value: Json)
    requires key !in MANIFEST_KEYS
    ensures ParseManifestData(JsonText(JObject(members[key := value])))
         == ParseManifestData(JsonText(JObject(members)))
  {
    UnknownKeyIgnored(members, key, value);
  }

  /** A well-formed document lacking `request` or `response` parses to `nil`. */
  lemma MissingRequestOrResponseIsNil(members: map<string, Json>)
    requires "request" !in members || "response" !in members
    ensures ParseManifestData(JsonText(JObject(members))) == None
  {
  }

  // The manifest text with a `debugLogs` key used by the SDK's parser test, as a document tree.

  function SampleExtra(): Json {
    JObject(map[
      "method" := JString("GET"),
      "url" := JString("https://example.com/extra"),
      "headers" := JObject(map["Accept" := JString("application/json")])])
  }

  function SampleVars(): Json {
    JObject(map["var1" := JObject(map["type" := JString("string"), "length" := JNumber(Integral(2))])])
  }

  function SampleRequest(): Json {
    JObject(map[
      "method" := JString("POST"),
      "url" := JString("https://example.com/api"),
      "headers" := JObject(map["Content-Type" := JString("application/json")]),
      "vars" := SampleVars(),
      "body" := JString("{\"key\":\"value\"}"),
      "extra" := SampleExtra()])
  }

  function SampleResponse(): Json {
    JObject(map[
      "status" := JString("200"),
      "headers" := JObject(map["Server" := JString("nginx")]),
      "body" := JObject(map["json" := JArray([JString("key"), JString("value")])])])
  }

  function SampleDocument(): Json {
    JObject(map[
      "manifestVersion" := JString("1.0"),
      "id" := JString("1234"),
      "title" := JString("Test Manifest"),
      "description" := JString("This is a test."),
      "prepareUrl" := JString("https://example.com/prepare"),
      "mode" := JString("TLSN"),
      "request" := SampleRequest(),
      "response" := SampleResponse(),
      "debugLogs" := JArray([JString("Log1"), JString("Log2")])])
  }

  lemma SampleExtraDecodes()
    ensures DecodeExtra(SampleExtra()) == Some(ManifestFileRequestExtra(
      Some(GET), Some("https://example.com/extra"), Some(map["Accept" := "application/json"]), None, None))
  {
    var h := DecodeStringMap(JObject(map["Accept" := JString("application/json")])).value;
    assert h.Keys == {"Accept"};
    assert h == map["Accept" := "application/json"];
  }

  lemma SampleVarsDecode()
    ensures DecodeVarsMap(SampleVars()) == Some(map["var1" := ManifestVars(Some("string"), None, Some(2))])
  {
    var v := JObject(map["type" := JString("string"), "length" := JNumber(Integral(2))]);
    assert DecodeManifestVars(v) == Some(ManifestVars(Some("string"), None, Some(2)));
    var r := DecodeVarsMap(SampleVars()).value;
    assert r.Keys == {"var1"};
    assert r["var1"] == ManifestVars(Some("string"), None, Some(2));
    assert r == map["var1" := ManifestVars(Some("string"), None, Some(2))];
  }

  lemma SampleRequestDecodes()
    ensures DecodeRequest(SampleRequest()) == Some(ManifestFileRequest(
      POST, "https://example.com/api", map["Content-Type" := "application/json"],
      Some(AString("{\"key\":\"value\"}")),
      Some(map["var1" := ManifestVars(Some("string"), None, Some(2))]),
      Some(ManifestFileRequestExtra(
        Some(GET), Some("https://example.com/extra"), Some(map["Accept" := "application/json"]), None, None))))
  {
    var obj := SampleRequest().members;
    assert Required(obj, "method", DecodeMethod) == Some(POST);
    assert Required(obj, "url", DecodeString) == Some("https://example.com/api");
    var h := DecodeStringMap(JObject(map["Content-Type" := JString("application/json")])).value;
    assert h.Keys == {"Content-Type"};
    assert h == map["Content-Type" := "application/json"];
    assert Required(obj, "headers", DecodeStringMap) == Some(map["Content-Type" := "application/json"]);
    assert IfPresent(obj, "body", DecodeAnyCodable) == Some(Some(AString("{\"key\":\"value\"}")));
    SampleVarsDecode();
    assert IfPresent(obj, "vars", DecodeVarsMap) == Some(Some(map["var1" := ManifestVars(Some("string"), None, Some(2))]));
    SampleExtraDecodes();
    assert IfPresent(obj, "extra", DecodeExtra) == Some(DecodeExtra(SampleExtra()));
  }

  lemma SampleResponseDecodes()
    ensures DecodeResponse(SampleResponse()) ==
      Some(ManifestFileResponse("200", map["Server" := "nginx"], ResponseBody(["key", "value"])))
  {
    var h := DecodeStringMap(JObject(map["Server" := JString("nginx")])).value;
    assert h.Keys == {"Server"};
    assert h == map["Server" := "nginx"];
    var a := DecodeStringArray(JArray([JString("key"), JString("value")])).value;
    assert a == ["key", "value"];
  }

  /** The SDK's parser-test document parses, with every field the test checks, `debugLogs` ignored. */
  lemma SampleDocumentParses()
    ensures ParseManifestData(JsonText(SampleDocument())) == Some(ManifestFile(
      "1.0", "1234", "Test Manifest", "This is a test.",
      Some("https://example.com/prepare"), Some(TLSN),
      ManifestFileRequest(
        POST, "https://example.com/api", map["Content-Type" := "application/json"],
        Some(AString("{\"key\":\"value\"}")),
        Some(map["var1" := ManifestVars(Some("string"), None, Some(2))]),
        Some(ManifestFileRequestExtra(
          Some(GET), Some("https://example.com/extra"), Some(map["Accept" := "application/json"]), None, None))),
      ManifestFileResponse("200", map["Server" := "nginx"], ResponseBody(["key", "value"]))))
  {
    var obj := SampleDocument().members;
    assert Required(obj, "manifestVersion", DecodeString) == Some("1.0");
    assert Required(obj, "id", DecodeString) == Some("1234");
    assert Required(obj, "title", DecodeString) == Some("Test Manifest");
    assert Required(obj, "description", DecodeString) == Some("This is a test.");
    assert IfPresent(obj, "prepareUrl", DecodeString) == Some(Some("https://example.com/prepare"));
    assert IfPresent(obj, "mode", DecodeMode) == Some(Some(TLSN));
    SampleRequestDecodes();
    assert Required(obj, "request", DecodeRequest) == DecodeRequest(SampleRequest());
    SampleResponseDecodes();
    assert Required(obj, "response", DecodeResponse) == DecodeResponse(SampleResponse());
  }
}
