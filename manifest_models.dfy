/**
 * The manifest records and their `Codable` conformance as the Swift
 * compiler synthesises it: required properties need their key and a value
 * of the right type; optional properties are `nil` when the key is missing
 * or holds `null`, and are left out when encoding `nil`; keys the record
 * does not declare are ignored when decoding.
 */
module ManifestModels {
  import opened Wrappers
  import opened Foundation
  import opened Enums
  import opened AnyCodableModel

  datatype ManifestVars = ManifestVars(varType: Option<string>, regex: Option<string>, length: Option<Int64>)

  /** The secondary request: every property optional, and no `extra` of its own. */
  datatype ManifestFileRequestExtra = ManifestFileRequestExtra(
    httpMethod: Option<Method>,
    url: Option<string>,
    headers: Option<map<string, string>>,
    body: Option<AnyCodable>,
    vars: Option<map<string, ManifestVars>>)

  datatype ManifestFileRequest = ManifestFileRequest(
    httpMethod: Method,
    url: string,
    headers: map<string, string>,
    body: Option<AnyCodable>,
    vars: Option<map<string, ManifestVars>>,
    extra: Option<ManifestFileRequestExtra>)

  datatype ResponseBody = ResponseBody(json: seq<string>)

  datatype ManifestFileResponse = ManifestFileResponse(status: string, headers: map<string, string>, body: ResponseBody)

  datatype ManifestFile = ManifestFile(
    manifestVersion: string,
    id: string,
    title: string,
    description: string,
    prepareUrl: Option<string>,
    mode: Option<Mode>,
    request: ManifestFileRequest,
    response: ManifestFileResponse)

  // ---------------------------------------------------------------------
  // Keyed-container primitives

  /** `decode(_:forKey:)`: the key must be present and its value must decode. */
  function Required<T>(members: map<string, Json>, key: string, decode: Json -> Option<T>): (r: Option<T>)
    ensures r.Some? <==> key in members && decode(members[key]).Some?
    ensures r.Some? ==> r == decode(members[key])
  {
    if key in members then decode(members[key]) else None
  }

  /** `decodeIfPresent(_:forKey:)`: `nil` for a missing key or `null`, otherwise the value must decode. */
  function IfPresent<T>(members: map<string, Json>, key: string, decode: Json -> Option<T>): (r: Option<Option<T>>)
    ensures (key !in members || members[key] == JNull) ==> r == Some(None)
    ensures key in members && members[key] != JNull ==>
      (r.Some? <==> decode(members[key]).Some?) && (r.Some? ==> r.value == decode(members[key]))
  {
    if key !in members || members[key].JNull? then Some(None)
    else match decode(members[key])
      case None => None
      case Some(v) => Some(Some(v))
  }

  /** `encodeIfPresent(_:forKey:)`: a member only for a present value. */
  function PutIfPresent(obj: map<string, Json>, key: string, v: Option<Json>): (r: map<string, Json>)
    ensures v.None? ==> r == obj
    ensures v.Some? ==> r == obj[key := v.value]
  {
    if v.Some? then obj[key := v.value] else obj
  }

  function MapOption<T, U>(o: Option<T>, f: T -> U): Option<U> {
    if o.Some? then Some(f(o.value)) else None
  }

  function EncodeString(s: string): Json {
    JString(s)
  }

  function EncodeInt(i: Int64): Json {
    JNumber(Integral(i))
  }

  /** A present optional whose encoding reads back through `dec` is recovered by `decodeIfPresent`. */
  lemma IfPresentRecovers<T>(obj: map<string, Json>, key: string, o: Option<T>, enc: T -> Json, dec: Json -> Option<T>)
    requires key in obj <==> o.Some?
    requires o.Some? ==> obj[key] == enc(o.value) && !enc(o.value).JNull? && dec(enc(o.value)) == Some(o.value)
    ensures IfPresent(obj, key, dec) == Some(o)
  {
  }

  // ---------------------------------------------------------------------
  // Dictionaries and arrays of plain values

  function DecodeStringMap(j: Json): (r: Option<map<string, string>>)
    ensures r.Some? <==> j.JObject? && forall k | k in j.members :: j.members[k].JString?
    ensures r.Some? ==> r.value.Keys == j.members.Keys
    ensures r.Some? ==> forall k | k in r.value :: j.members[k] == JString(r.value[k])
  {
    if j.JObject? && forall k | k in j.members :: j.members[k].JString? then
      Some(map k | k in j.members :: j.members[k].s)
    else None
  }

  /** A string dictionary encodes as an object with the same keys, each holding its string. */
  function EncodeStringMap(m: map<string, string>): (r: Json)
    ensures r.JObject? && r.members.Keys == m.Keys
    ensures forall k | k in m :: r.members[k] == JString(m[k])
  {
    JObject(map k | k in m :: JString(m[k]))
  }

  lemma StringMapRoundTrip(m: map<string, string>)
    ensures DecodeStringMap(EncodeStringMap(m)) == Some(m)
  {
    var jm := EncodeStringMap(m).members;
    assert forall k | k in jm :: jm[k].JString?;
    var r := DecodeStringMap(EncodeStringMap(m)).value;
    assert r.Keys == m.Keys;
    assert forall k | k in m :: r[k] == m[k];
    assert r == m;
  }

  function DecodeStringArray(j: Json): (r: Option<seq<string>>)
    ensures r.Some? <==> j.JArray? && forall i | 0 <= i < |j.items| :: j.items[i].JString?
    ensures r.Some? ==> |r.value| == |j.items| && forall i | 0 <= i < |j.items| :: j.items[i] == JString(r.value[i])
  {
    if j.JArray? && forall i | 0 <= i < |j.items| :: j.items[i].JString? then
      Some(seq(|j.items|, i requires 0 <= i < |j.items| => j.items[i].s))
    else None
  }

  /** A string array encodes as a JSON array of the same length, element by element. */
  function EncodeStringArray(s: seq<string>): (r: Json)
    ensures r.JArray? && |r.items| == |s|
    ensures forall i | 0 <= i < |s| :: r.items[i] == JString(s[i])
  {
    JArray(seq(|s|, i requires 0 <= i < |s| => JString(s[i])))
  }

  lemma StringArrayRoundTrip(s: seq<string>)
    ensures DecodeStringArray(EncodeStringArray(s)) == Some(s)
  {
    var js := EncodeStringArray(s).items;
    assert forall i | 0 <= i < |js| :: js[i].JString?;
    var r := DecodeStringArray(EncodeStringArray(s)).value;
    assert |r| == |s|;
    assert forall i | 0 <= i < |s| :: r[i] == s[i];
    assert r == s;
  }

  // ---------------------------------------------------------------------
  // ManifestVars

  function DecodeManifestVars(j: Json): (r: Option<ManifestVars>)
    ensures r.Some? ==>
      && j.JObject?
      && IfPresent(j.members, "type", DecodeString) == Some(r.value.varType)
      && IfPresent(j.members, "regex", DecodeString) == Some(r.value.regex)
      && IfPresent(j.members, "length", DecodeInt) == Some(r.value.length)
    ensures r.Some? <==>
      && j.JObject?
      && IfPresent(j.members, "type", DecodeString).Some?
      && IfPresent(j.members, "regex", DecodeString).Some?
      && IfPresent(j.members, "length", DecodeInt).Some?
    ensures j.JObject? && j.members.Keys !! {"type", "regex", "length"} ==> r == Some(ManifestVars(None, None, None))
  {
    if !j.JObject? then None
    else
      var varType :- IfPresent(j.members, "type", DecodeString);
      var regex :- IfPresent(j.members, "regex", DecodeString);
      var length :- IfPresent(j.members, "length", DecodeInt);
      Some(ManifestVars(varType, regex, length))
  }

  /** `encodeIfPresent` for each field: a key is written exactly when its field is set, holding its value. */
  function EncodeManifestVars(v: ManifestVars): (r: Json)
    ensures r.JObject? && r.members.Keys <= {"type", "regex", "length"}
    ensures ("type" in r.members <==> v.varType.Some?) && (v.varType.Some? ==> r.members["type"] == JString(v.varType.value))
    ensures ("regex" in r.members <==> v.regex.Some?) && (v.regex.Some? ==> r.members["regex"] == JString(v.regex.value))
    ensures ("length" in r.members <==> v.length.Some?) && (v.length.Some? ==> r.members["length"] == JNumber(Integral(v.length.value)))
  {
    var obj := PutIfPresent(map[], "type", MapOption(v.varType, EncodeString));
    var obj := PutIfPresent(obj, "regex", MapOption(v.regex, EncodeString));
    var obj := PutIfPresent(obj, "length", MapOption(v.length, EncodeInt));
    JObject(obj)
  }

  lemma ManifestVarsRoundTrip(v: ManifestVars)
    ensures DecodeManifestVars(EncodeManifestVars(v)) == Some(v)
  {
    var obj := EncodeManifestVars(v).members;
    IfPresentRecovers(obj, "type", v.varType, EncodeString, DecodeString);
    IfPresentRecovers(obj, "regex", v.regex, EncodeString, DecodeString);
    IfPresentRecovers(obj, "length", v.length, EncodeInt, DecodeInt);
  }

  function DecodeVarsMap(j: Json): (r: Option<map<string, ManifestVars>>)
    ensures r.Some? <==> j.JObject? && forall k | k in j.members :: DecodeManifestVars(j.members[k]).Some?
    ensures r.Some? ==> r.value.Keys == j.members.Keys
    ensures r.Some? ==> forall k | k in r.value :: DecodeManifestVars(j.members[k]) == Some(r.value[k])
  {
    if j.JObject? && forall k | k in j.members :: DecodeManifestVars(j.members[k]).Some? then
      Some(map k | k in j.members :: DecodeManifestVars(j.members[k]).value)
    else None
  }

  /** A vars dictionary encodes under the same keys, each entry decoding back to its own vars. */
  function EncodeVarsMap(m: map<string, ManifestVars>): (r: Json)
    ensures r.JObject? && r.members.Keys == m.Keys
    ensures forall k | k in m :: DecodeManifestVars(r.members[k]) == Some(m[k])
  {
    EveryManifestVarsRoundTrips(m);
    JObject(map k | k in m :: EncodeManifestVars(m[k]))
  }

  lemma EveryManifestVarsRoundTrips(m: map<string, ManifestVars>)
    ensures forall k | k in m :: DecodeManifestVars(EncodeManifestVars(m[k])) == Some(m[k])
  {
    forall k | k in m ensures DecodeManifestVars(EncodeManifestVars(m[k])) == Some(m[k]) {
      ManifestVarsRoundTrip(m[k]);
    }
  }

  lemma VarsMapRoundTrip(m: map<string, ManifestVars>)
    ensures DecodeVarsMap(EncodeVarsMap(m)) == Some(m)
  {
    var jm := EncodeVarsMap(m).members;
    assert forall k | k in jm :: DecodeManifestVars(jm[k]).Some?;
    var r := DecodeVarsMap(EncodeVarsMap(m)).value;
    assert r.Keys == m.Keys;
    assert forall k | k in m :: r[k] == m[k];
    assert r == m;
  }

  // ---------------------------------------------------------------------
  // Request, extra, response, manifest

  const EXTRA_KEYS: set<string> := {"method", "url", "headers", "body", "vars"}
  const REQUEST_KEYS: set<string> := {"method", "url", "headers", "body", "vars", "extra"}
  const RESPONSE_KEYS: set<string> := {"status", "headers", "body"}
  const MANIFEST_KEYS: set<string> :=
    {"manifestVersion", "id", "title", "description", "prepareUrl", "mode", "request", "response"}

  function DecodeExtra(j: Json): (r: Option<ManifestFileRequestExtra>)
    ensures r.Some? ==>
      && j.JObject?
      && IfPresent(j.members, "method", DecodeMethod) == Some(r.value.httpMethod)
      && IfPresent(j.members, "url", DecodeString) == Some(r.value.url)
      && IfPresent(j.members, "headers", DecodeStringMap) == Some(r.value.headers)
      && IfPresent(j.members, "body", DecodeAnyCodable) == Some(r.value.body)
      && IfPresent(j.members, "vars", DecodeVarsMap) == Some(r.value.vars)
    ensures r.Some? <==>
      && j.JObject?
      && IfPresent(j.members, "method", DecodeMethod).Some?
      && IfPresent(j.members, "url", DecodeString).Some?
      && IfPresent(j.members, "headers", DecodeStringMap).Some?
      && IfPresent(j.members, "body", DecodeAnyCodable).Some?
      && IfPresent(j.members, "vars", DecodeVarsMap).Some?
    ensures j.JObject? && j.members.Keys !! EXTRA_KEYS ==> r == Some(ManifestFileRequestExtra(None, None, None, None, None))
  {
    if !j.JObject? then None
    else
      var httpMethod :- IfPresent(j.members, "method", DecodeMethod);
      var url :- IfPresent(j.members, "url", DecodeString);
      var headers :- IfPresent(j.members, "headers", DecodeStringMap);
      var body :- IfPresent(j.members, "body", DecodeAnyCodable);
      var vars :- IfPresent(j.members, "vars", DecodeVarsMap);
      Some(ManifestFileRequestExtra(httpMethod, url, headers, body, vars))
  }

  /** Encoding an optional body: an absent body stays absent; a present one may throw. */
  function EncodeOptionalBody(body: Option<AnyCodable>): (r: Option<Option<Json>>)
    ensures body.None? ==> r == Some(None)
    ensures body.Some? ==> (r.Some? <==> EncodeAnyCodable(body.value).Some?)
    ensures body.Some? && r.Some? ==> r.value == EncodeAnyCodable(body.value)
  {
    if body.None? then Some(None)
    else
      var j :- EncodeAnyCodable(body.value);
      Some(Some(j))
  }

  function EncodeExtra(e: ManifestFileRequestExtra): (r: Option<Json>)
    ensures r.Some? ==> r.value.JObject? && r.value.members.Keys <= EXTRA_KEYS
  {
    var body :- EncodeOptionalBody(e.body);
    var obj := PutIfPresent(map[], "method", MapOption(e.httpMethod, EncodeMethod));
    var obj := PutIfPresent(obj, "url", MapOption(e.url, EncodeString));
    var obj := PutIfPresent(obj, "headers", MapOption(e.headers, EncodeStringMap));
    var obj := PutIfPresent(obj, "body", body);
    var obj := PutIfPresent(obj, "vars", MapOption(e.vars, EncodeVarsMap));
    Some(JObject(obj))
  }

  function DecodeRequest(j: Json): (r: Option<ManifestFileRequest>)
    ensures r.Some? ==>
      && j.JObject? && "method" in j.members && "url" in j.members && "headers" in j.members
      && j.members["method"] == EncodeMethod(r.value.httpMethod)
      && j.members["url"] == JString(r.value.url)
      && DecodeStringMap(j.members["headers"]) == Some(r.value.headers)
      && IfPresent(j.members, "body", DecodeAnyCodable) == Some(r.value.body)
      && IfPresent(j.members, "vars", DecodeVarsMap) == Some(r.value.vars)
      && IfPresent(j.members, "extra", DecodeExtra) == Some(r.value.extra)
    ensures r.Some? <==>
      && j.JObject?
      && Required(j.members, "method", DecodeMethod).Some?
      && Required(j.members, "url", DecodeString).Some?
      && Required(j.members, "headers", DecodeStringMap).Some?
      && IfPresent(j.members, "body", DecodeAnyCodable).Some?
      && IfPresent(j.members, "vars", DecodeVarsMap).Some?
      && IfPresent(j.members, "extra", DecodeExtra).Some?
  {
    if !j.JObject? then None
    else
      var httpMethod :- Required(j.members, "method", DecodeMethod);
      var url :- Required(j.members, "url", DecodeString);
      var headers :- Required(j.members, "headers", DecodeStringMap);
      var body :- IfPresent(j.members, "body", DecodeAnyCodable);
      var vars :- IfPresent(j.members, "vars", DecodeVarsMap);
      var extra :- IfPresent(j.members, "extra", DecodeExtra);
      Some(ManifestFileRequest(httpMethod, url, headers, body, vars, extra))
  }

  function EncodeRequest(q: ManifestFileRequest): (r: Option<Json>)
    ensures r.Some? ==> r.value.JObject? && r.value.members.Keys <= REQUEST_KEYS
  {
    var body :- EncodeOptionalBody(q.body);
    var extra :- if q.extra.None? then Some(None)
                 else var e :- EncodeExtra(q.extra.value); Some(Some(e));
    var obj := map["method" := EncodeMethod(q.httpMethod), "url" := JString(q.url), "headers" := EncodeStringMap(q.headers)];
    var obj := PutIfPresent(obj, "body", body);
    var obj := PutIfPresent(obj, "vars", MapOption(q.vars, EncodeVarsMap));
    var obj := PutIfPresent(obj, "extra", extra);
    Some(JObject(obj))
  }

  function DecodeResponseBody(j: Json): (r: Option<ResponseBody>)
    ensures r.Some? <==> j.JObject? && "json" in j.members && DecodeStringArray(j.members["json"]).Some?
    ensures r.Some? ==> Some(r.value.json) == DecodeStringArray(j.members["json"])
  {
    if !j.JObject? then None
    else
      var json :- Required(j.members, "json", DecodeStringArray);
      Some(ResponseBody(json))
  }

  function DecodeResponse(j: Json): (r: Option<ManifestFileResponse>)
    ensures r.Some? ==>
      && j.JObject? && "status" in j.members && "headers" in j.members && "body" in j.members
      && j.members["status"] == JString(r.value.status)
      && DecodeStringMap(j.members["headers"]) == Some(r.value.headers)
      && DecodeResponseBody(j.members["body"]) == Some(r.value.body)
    ensures r.Some? <==>
      && j.JObject?
      && Required(j.members, "status", DecodeString).Some?
      && Required(j.members, "headers", DecodeStringMap).Some?
      && Required(j.members, "body", DecodeResponseBody).Some?
  {
    if !j.JObject? then None
    else
      var status :- Required(j.members, "status", DecodeString);
      var headers :- Required(j.members, "headers", DecodeStringMap);
      var body :- Required(j.members, "body", DecodeResponseBody);
      Some(ManifestFileResponse(status, headers, body))
  }

  function EncodeResponse(p: ManifestFileResponse): (r: Json)
    ensures r.JObject? && r.members.Keys == RESPONSE_KEYS
  {
    JObject(map[
      "status" := JString(p.status),
      "headers" := EncodeStringMap(p.headers),
      "body" := JObject(map["json" := EncodeStringArray(p.body.json)])])
  }

  /** `JSONDecoder().decode(ManifestFile.self, ...)` on the document tree. */
  function DecodeManifest(j: Json): (r: Option<ManifestFile>)
    ensures r.Some? ==>
      && j.JObject?
      && (forall k | k in ["manifestVersion", "id", "title", "description", "request", "response"] :: k in j.members)
      && j.members["manifestVersion"] == JString(r.value.manifestVersion)
      && j.members["id"] == JString(r.value.id)
      && j.members["title"] == JString(r.value.title)
      && j.members["description"] == JString(r.value.description)
      && IfPresent(j.members, "prepareUrl", DecodeString) == Some(r.value.prepareUrl)
      && IfPresent(j.members, "mode", DecodeMode) == Some(r.value.mode)
      && DecodeRequest(j.members["request"]) == Some(r.value.request)
      && DecodeResponse(j.members["response"]) == Some(r.value.response)
    ensures r.Some? <==>
      && j.JObject?
      && Required(j.members, "manifestVersion", DecodeString).Some?
      && Required(j.members, "id", DecodeString).Some?
      && Required(j.members, "title", DecodeString).Some?
      && Required(j.members, "description", DecodeString).Some?
      && IfPresent(j.members, "prepareUrl", DecodeString).Some?
      && IfPresent(j.members, "mode", DecodeMode).Some?
      && Required(j.members, "request", DecodeRequest).Some?
      && Required(j.members, "response", DecodeResponse).Some?
  {
    if !j.JObject? then None
    else
      var manifestVersion :- Required(j.members, "manifestVersion", DecodeString);
      var id :- Required(j.members, "id", DecodeString);
      var title :- Required(j.members, "title", DecodeString);
      var description :- Required(j.members, "description", DecodeString);
      var prepareUrl :- IfPresent(j.members, "prepareUrl", DecodeString);
      var mode :- IfPresent(j.members, "mode", DecodeMode);
      var request :- Required(j.members, "request", DecodeRequest);
      var response :- Required(j.members, "response", DecodeResponse);
      Some(ManifestFile(manifestVersion, id, title, description, prepareUrl, mode, request, response))
  }

  /** `JSONEncoder().encode(manifest)`: throws only if a request or extra body cannot be encoded. */
  function EncodeManifest(m: ManifestFile): (r: Option<Json>)
    ensures r.Some? ==> r.value.JObject? && r.value.members.Keys <= MANIFEST_KEYS
  {
    var request :- EncodeRequest(m.request);
    var obj := map[
      "manifestVersion" := JString(m.manifestVersion),
      "id" := JString(m.id),
      "title" := JString(m.title),
      "description" := JString(m.description)];
    var obj := PutIfPresent(obj, "prepareUrl", MapOption(m.prepareUrl, EncodeString));
    var obj := PutIfPresent(obj, "mode", MapOption(m.mode, EncodeMode));
    Some(JObject(obj["request" := request]["response" := EncodeResponse(m.response)]))
  }

  // ---------------------------------------------------------------------
  // Properties of the coding

  /** Every request and extra body of the manifest satisfies `p`. */
  predicate BodiesSatisfy(m: ManifestFile, p: AnyCodable -> bool) {
    && (m.request.body.Some? ==> p(m.request.body.value))
    && (m.request.extra.Some? && m.request.extra.value.body.Some? ==> p(m.request.extra.value.body.value))
  }

  /** Encoding a manifest throws exactly when its request body or its extra body cannot be encoded. */
  lemma EncodeManifestSucceedsIff(m: ManifestFile)
    ensures EncodeManifest(m).Some? <==> BodiesSatisfy(m, Encodable)
  {
    if m.request.body.Some? {
      EncodeSucceedsIffEncodable(m.request.body.value);
    }
    if m.request.extra.Some? && m.request.extra.value.body.Some? {
      EncodeSucceedsIffEncodable(m.request.extra.value.body.value);
    }
  }

  /** `decodeIfPresent` recovers an optional body from its encoding when the body holds no `Double`. */
  lemma BodyRecovers(obj: map<string, Json>, body: Option<AnyCodable>)
    requires body.Some? ==> DoubleFree(body.value)
    requires EncodeOptionalBody(body).Some?
    requires "body" in obj <==> body.Some?
    requires body.Some? ==> Some(obj["body"]) == EncodeAnyCodable(body.value)
    ensures IfPresent(obj, "body", DecodeAnyCodable) == Some(body)
  {
    if body.Some? {
      EncodeDecodeRoundTrip(body.value);
      EncodePreservesShape(body.value);
    }
  }

  lemma ExtraRoundTrip(e: ManifestFileRequestExtra)
    requires e.body.Some? ==> DoubleFree(e.body.value)
    requires EncodeExtra(e).Some?
    ensures DecodeExtra(EncodeExtra(e).value) == Some(e)
  {
    var obj := EncodeExtra(e).value.members;
    if e.httpMethod.Some? {
      MethodCodingRoundTrip(e.httpMethod.value);
    }
    IfPresentRecovers(obj, "method", e.httpMethod, EncodeMethod, DecodeMethod);
    IfPresentRecovers(obj, "url", e.url, EncodeString, DecodeString);
    if e.headers.Some? {
      StringMapRoundTrip(e.headers.value);
    }
    IfPresentRecovers(obj, "headers", e.headers, EncodeStringMap, DecodeStringMap);
    BodyRecovers(obj, e.body);
    if e.vars.Some? {
      VarsMapRoundTrip(e.vars.value);
    }
    IfPresentRecovers(obj, "vars", e.vars, EncodeVarsMap, DecodeVarsMap);
  }

  lemma RequestRoundTrip(q: ManifestFileRequest)
    requires q.body.Some? ==> DoubleFree(q.body.value)
    requires q.extra.Some? && q.extra.value.body.Some? ==> DoubleFree(q.extra.value.body.value)
    requires EncodeRequest(q).Some?
    ensures DecodeRequest(EncodeRequest(q).value) == Some(q)
  {
    var obj := EncodeRequest(q).value.members;
    MethodCodingRoundTrip(q.httpMethod);
    StringMapRoundTrip(q.headers);
    assert Required(obj, "method", DecodeMethod) == Some(q.httpMethod);
    assert Required(obj, "url", DecodeString) == Some(q.url);
    assert Required(obj, "headers", DecodeStringMap) == Some(q.headers);
    BodyRecovers(obj, q.body);
    if q.vars.Some? {
      VarsMapRoundTrip(q.vars.value);
    }
    IfPresentRecovers(obj, "vars", q.vars, EncodeVarsMap, DecodeVarsMap);
    if q.extra.Some? {
      ExtraRoundTrip(q.extra.value);
      assert obj["extra"] == EncodeExtra(q.extra.value).value;
    }
    assert IfPresent(obj, "extra", DecodeExtra) == Some(q.extra);
  }

  lemma ResponseRoundTrip(p: ManifestFileResponse)
    ensures DecodeResponse(EncodeResponse(p)) == Some(p)
  {
    StringMapRoundTrip(p.headers);
    StringArrayRoundTrip(p.body.json);
  }

  /**
   * Decoding the encoder's output reproduces every field of a manifest whose
   * bodies hold no `Double`, including `vars` and the nested `extra`.
   */
  lemma ManifestRoundTrip(m: ManifestFile)
    requires BodiesSatisfy(m, DoubleFree)
    requires EncodeManifest(m).Some?
    ensures DecodeManifest(EncodeManifest(m).value) == Some(m)
  {
    var obj := EncodeManifest(m).value.members;
    assert Required(obj, "manifestVersion", DecodeString) == Some(m.manifestVersion);
    assert Required(obj, "id", DecodeString) == Some(m.id);
    assert Required(obj, "title", DecodeString) == Some(m.title);
    assert Required(obj, "description", DecodeString) == Some(m.description);
    IfPresentRecovers(obj, "prepareUrl", m.prepareUrl, EncodeString, DecodeString);
    if m.mode.Some? {
      ModeCodingRoundTrip(m.mode.value);
    }
    IfPresentRecovers(obj, "mode", m.mode, EncodeMode, DecodeMode);
    RequestRoundTrip(m.request);
    assert Required(obj, "request", DecodeRequest) == Some(m.request);
    ResponseRoundTrip(m.response);
    assert Required(obj, "response", DecodeResponse) == Some(m.response);
  }

  /** The encoding of a request never gives its `extra` an `extra` of its own. */
  lemma EncodedExtraIsFlat(q: ManifestFileRequest)
    requires EncodeRequest(q).Some? && q.extra.Some?
    ensures "extra" in EncodeRequest(q).value.members
    ensures var e := EncodeRequest(q).value.members["extra"];
      e.JObject? && "extra" !in e.members
  {
  }

  /** An `extra` key inside `extra` is an unknown key there: decoding drops it, so nesting stops at one level. */
  lemma DecodedExtraIgnoresNestedExtra(members: map<string, Json>, nested: Json)
    ensures DecodeExtra(JObject(members["extra" := nested])) == DecodeExtra(JObject(members - {"extra"}))
  {
    var a := members["extra" := nested];
    var b := members - {"extra"};
    assert forall k | k in EXTRA_KEYS :: (k in a <==> k in b) && (k in a ==> a[k] == b[k]);
  }

  /** Keys the manifest does not declare, such as `debugLogs`, do not affect decoding. */
  lemma UnknownKeyIgnored(members: map<string, Json>, key: string, value: Json)
    requires key !in MANIFEST_KEYS
    ensures DecodeManifest(JObject(members[key := value])) == DecodeManifest(JObject(members))
  {
    var a := members[key := value];
    assert forall k | k in MANIFEST_KEYS :: (k in a <==> k in members) && (k in a ==> a[k] == members[k]);
  }

  /** Without `request` or `response` (or another required key) decoding fails. */
  lemma RequiredKeysNeeded(members: map<string, Json>)
    requires DecodeManifest(JObject(members)).Some?
    ensures "request" in members && "response" in members
    ensures "manifestVersion" in members && "id" in members && "title" in members && "description" in members
  {
  }

  /** An absent or `null` optional key decodes to `nil`, at the top level and in the request. */
  lemma AbsentOptionalsAreNil(members: map<string, Json>)
    requires DecodeManifest(JObject(members)).Some?
    ensures var m := DecodeManifest(JObject(members)).value;
      && ("prepareUrl" !in members || members["prepareUrl"].JNull? ==> m.prepareUrl.None?)
      && ("mode" !in members || members["mode"].JNull? ==> m.mode.None?)
      && (var q := members["request"].members;
          && ("body" !in q || q["body"].JNull? ==> m.request.body.None?)
          && ("vars" !in q || q["vars"].JNull? ==> m.request.vars.None?)
          && ("extra" !in q || q["extra"].JNull? ==> m.request.extra.None?))
  {
  }

  // ---------------------------------------------------------------------
  // Cookies

  /** A `Date`, kept opaque: its ISO 8601 text and its seconds since the reference date. */
  datatype Date = Date(iso8601: string, secondsSinceReferenceDate: Number)

  /** JSONEncoder's date strategies used here: the default and `.iso8601`. */
  datatype DateEncodingStrategy = DeferredToDate | ISO8601

  /** The `HTTPCookie` properties the SDK reads. */
  datatype HTTPCookie = HTTPCookie(
    name: string,
    value: string,
    domain: string,
    path: string,
    expiresDate: Option<Date>,
    isSecure: bool,
    isHTTPOnly: bool)

  /** The default strategy writes the date's reference-date seconds as a number; `.iso8601` writes the ISO 8601 string. */
  function EncodeDate(d: Date, strategy: DateEncodingStrategy): (r: Json)
    ensures strategy == DeferredToDate ==> r == JNumber(d.secondsSinceReferenceDate)
    ensures strategy == ISO8601 ==> r == JString(d.iso8601)
  {
    match strategy
    case DeferredToDate => JNumber(d.secondsSinceReferenceDate)
    case ISO8601 => JString(d.iso8601)
  }

  const COOKIE_KEYS: set<string> := {"name", "value", "domain", "path", "isSecure", "isHTTPOnly"}

  /**
   * `HTTPCookie.encode(to:)`: name, value, domain, path, isSecure and
   * isHTTPOnly always, and expiresDate only when the cookie has one.
   */
  function EncodeCookie(c: HTTPCookie, strategy: DateEncodingStrategy): (r: map<string, Json>)
    ensures r.Keys == COOKIE_KEYS + (if c.expiresDate.Some? then {"expiresDate"} else {})
    ensures r["name"] == JString(c.name) && r["value"] == JString(c.value)
    ensures r["domain"] == JString(c.domain) && r["path"] == JString(c.path)
    ensures r["isSecure"] == JBool(c.isSecure) && r["isHTTPOnly"] == JBool(c.isHTTPOnly)
    ensures c.expiresDate.Some? ==> r["expiresDate"] == EncodeDate(c.expiresDate.value, strategy)
  {
    var obj := map[
      "name" := JString(c.name),
      "value" := JString(c.value),
      "domain" := JString(c.domain),
      "path" := JString(c.path)];
    var obj := PutIfPresent(obj, "expiresDate", MapOption(c.expiresDate, d => EncodeDate(d, strategy)));
    obj["isSecure" := JBool(c.isSecure)]["isHTTPOnly" := JBool(c.isHTTPOnly)]
  }

  /** `Encodable.toJSONString()` on a cookie: JSONEncoder with ISO 8601 dates, read as UTF-8 text. */
  function CookieToJSONString(c: HTTPCookie): (r: Data)
    ensures ReadJson(r) == Some(JObject(EncodeCookie(c, ISO8601)))
  {
    WriteJson(JObject(EncodeCookie(c, ISO8601)))
  }

  const COOKIE_SUMMARY_KEYS: set<string> := {"name", "value", "domain", "path"}

  /** The per-cookie object `[HTTPCookie].toJSONString()` builds: exactly name, value, domain and path. */
  function CookieSummary(c: HTTPCookie): (r: Json)
    ensures r.JObject? && r.members.Keys == COOKIE_SUMMARY_KEYS
    ensures r.members["name"] == JString(c.name) && r.members["value"] == JString(c.value)
    ensures r.members["domain"] == JString(c.domain) && r.members["path"] == JString(c.path)
  {
    JObject(map["name" := JString(c.name), "value" := JString(c.value),
                "domain" := JString(c.domain), "path" := JString(c.path)])
  }

  /**
   * `[HTTPCookie].toJSONString()`: a JSON array with one object per cookie,
   * in input order, each with exactly the keys name, value, domain and path.
   */
  function CookiesToJSONString(cookies: seq<HTTPCookie>): (r: Data)
    ensures ReadJson(r).Some? && ReadJson(r).value.JArray?
    ensures var items := ReadJson(r).value.items;
      && |items| == |cookies|
      && forall i | 0 <= i < |cookies| ::
           && items[i].JObject?
           && items[i].members.Keys == COOKIE_SUMMARY_KEYS
           && items[i].members["name"] == JString(cookies[i].name)
           && items[i].members["value"] == JString(cookies[i].value)
           && items[i].members["domain"] == JString(cookies[i].domain)
           && items[i].members["path"] == JString(cookies[i].path)
  {
    WriteJson(JArray(seq(|cookies|, i requires 0 <= i < |cookies| => CookieSummary(cookies[i]))))
  }
}
