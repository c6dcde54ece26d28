/**
 * The proving bridge: the configuration handed to the native prover, the
 * interpretation of its reply, and the order of the status notifications
 * `generateProof` sends to its caller.
 */
module Prover {
  import opened Wrappers
  import opened Foundation
  import opened Enums
  import opened AnyCodableModel
  import opened ManifestModels

  /** `ProofStatus`, with Swift's case names. */
  datatype ProofStatus = loading | success | failure

  /** `ProverError`, with Swift's case names. */
  datatype ProverError = notImplemented | invalidResponse | custom(message: string)

  /** What `generateProof` can throw: a `ProverError` or a coding error passed through. */
  datatype Error = ProverFailure(error: ProverError) | CodingFailure(coding: CodingError)

  const NOTARY_HOST: string := "32703e3.notary.pluto.dev"
  const NOTARY_PORT: int := 443
  const MAX_SENT_DATA: int := 10000
  const MAX_RECV_DATA: int := 10000

  /** The `[String: Any]` dictionary `buildConfig` returns, one field per key. */
  datatype ProverConfig = ProverConfig(
    mode: string,
    notaryHost: string,
    notaryPort: int,
    targetMethod: string,
    targetUrl: string,
    targetHeaders: map<string, string>,
    targetBody: Base64Text,
    maxSentData: int,
    maxRecvData: int,
    provingManifest: map<string, Json>)

  /** `headers.merging(extraHeaders) { (_, new) in new }`: the union of the keys, the extra value winning. */
  function MergeHeaders(headers: map<string, string>, extraHeaders: map<string, string>): (r: map<string, string>)
    ensures r.Keys == headers.Keys + extraHeaders.Keys
    ensures forall k | k in extraHeaders :: r[k] == extraHeaders[k]
    ensures forall k | k in headers && k !in extraHeaders :: r[k] == headers[k]
  {
    headers + extraHeaders
  }

  /** The headers of the request's `extra`, or none. */
  function ExtraHeaders(q: ManifestFileRequest): (r: map<string, string>)
    ensures q.extra.Some? && q.extra.value.headers.Some? ==> r == q.extra.value.headers.value
    ensures (q.extra.None? || q.extra.value.headers.None?) ==> r == map[]
  {
    if q.extra.Some? && q.extra.value.headers.Some? then q.extra.value.headers.value else map[]
  }

  /** `manifest.request.body ?? AnyCodable("")`. */
  function TargetBody(m: ManifestFile): (r: AnyCodable)
    ensures m.request.body.Some? ==> r == m.request.body.value
    ensures m.request.body.None? ==> r == AString("")
  {
    m.request.body.GetOr(AString(""))
  }

  /**
   * `buildConfig`: base64 of the body, the manifest re-read as a JSON
   * dictionary, and the flat configuration.  It throws the encoding error
   * when the body or the manifest cannot be encoded.
   */
  function BuildConfig(m: ManifestFile, targetBody: AnyCodable): (r: Result<ProverConfig, Error>)
    ensures r.Success? <==> Encodable(targetBody) && EncodeManifest(m).Some?
    ensures r.Failure? ==> r.error == CodingFailure(EncodingError)
    ensures r.Success? ==>
      && r.value.mode == (if m.mode.Some? then ModeRawValue(m.mode.value) else "TEE")
      && r.value.notaryHost == NOTARY_HOST && r.value.notaryPort == NOTARY_PORT
      && r.value.maxSentData == MAX_SENT_DATA && r.value.maxRecvData == MAX_RECV_DATA
      && r.value.targetMethod == MethodRawValue(m.request.httpMethod)
      && r.value.targetUrl == m.request.url
      && r.value.targetBody == ToBase64(targetBody).value
      && JObject(r.value.provingManifest) == EncodeManifest(m).value
  {
    match ToBase64(targetBody)
    case Failure(e) => Failure(CodingFailure(e))
    case Success(base64Body) =>
      match EncodeManifest(m)
      case None => Failure(CodingFailure(EncodingError))
      case Some(manifestData) =>
        match ReadJson(WriteJson(manifestData))
        case Some(JObject(manifestDict)) =>
          Success(ProverConfig(
            ModeRawValue(m.mode.GetOr(TEE)),
            NOTARY_HOST,
            NOTARY_PORT,
            MethodRawValue(m.request.httpMethod),
            m.request.url,
            MergeHeaders(m.request.headers, ExtraHeaders(m.request)),
            base64Body,
            MAX_SENT_DATA,
            MAX_RECV_DATA,
            manifestDict))
        case _ => Failure(ProverFailure(invalidResponse))
  }

  /**
   * The configuration `generateProof` builds fails exactly when the request
   * body or the extra body cannot be encoded; the `as? [String: Any]` guard
   * never fires, because a manifest always encodes to a JSON object.
   */
  lemma BuildConfigFailsIff(m: ManifestFile)
    ensures BuildConfig(m, TargetBody(m)).Failure? <==> !BodiesSatisfy(m, Encodable)
    ensures BuildConfig(m, TargetBody(m)).Failure? ==>
      BuildConfig(m, TargetBody(m)).error != ProverFailure(invalidResponse)
  {
    EncodeManifestSucceedsIff(m);
    EncodeSucceedsIffEncodable(TargetBody(m));
  }

  /** The merged headers hold every key of either map, and `extra`'s value on a collision. */
  lemma ConfigHeaders(m: ManifestFile)
    requires BuildConfig(m, TargetBody(m)).Success?
    ensures var h := BuildConfig(m, TargetBody(m)).value.targetHeaders;
      && h.Keys == m.request.headers.Keys + ExtraHeaders(m.request).Keys
      && (forall k | k in ExtraHeaders(m.request) :: h[k] == ExtraHeaders(m.request)[k])
      && (forall k | k in m.request.headers && k !in ExtraHeaders(m.request) :: h[k] == m.request.headers[k])
  {
  }

  /** The collision example: {A: 1} merged with {A: 2, B: 3} is {A: 2, B: 3}. */
  lemma MergeHeadersExample()
    ensures MergeHeaders(map["A" := "1"], map["A" := "2", "B" := "3"]) == map["A" := "2", "B" := "3"]
  {
  }

  /**
   * The configuration's payloads read back: `target_body` decodes to the
   * body (or to "" without one), and `proving.manifest` decodes to the
   * manifest, whenever the bodies hold no `Double`.
   */
  lemma ConfigPayloadsRoundTrip(m: ManifestFile)
    requires BodiesSatisfy(m, DoubleFree)
    requires BuildConfig(m, TargetBody(m)).Success?
    ensures var c := BuildConfig(m, TargetBody(m)).value;
      && DecodeAnyCodable(ReadJson(Base64Decode(c.targetBody)).value) == Some(TargetBody(m))
      && DecodeManifest(JObject(c.provingManifest)) == Some(m)
  {
    EncodeSucceedsIffEncodable(TargetBody(m));
    ToBase64RoundTrip(TargetBody(m));
    ManifestRoundTrip(m);
  }

  // ---------------------------------------------------------------------
  // The prover's reply

  /** `RawProverResponse`: both fields optional. */
  datatype RawProverResponse = RawProverResponse(proof: Option<string>, error: Option<string>)

  function DecodeRawProverResponse(j: Json): (r: Option<RawProverResponse>)
    ensures r.Some? ==> j.JObject?
    ensures r.Some? ==>
      && (r.value.proof.Some? <==> "proof" in j.members && !j.members["proof"].JNull?)
      && (r.value.proof.Some? ==> j.members["proof"] == JString(r.value.proof.value))
      && (r.value.error.Some? <==> "error" in j.members && !j.members["error"].JNull?)
      && (r.value.error.Some? ==> j.members["error"] == JString(r.value.error.value))
    ensures r.Some? <==>
      && j.JObject?
      && ("proof" in j.members ==> j.members["proof"].JString? || j.members["proof"].JNull?)
      && ("error" in j.members ==> j.members["error"].JString? || j.members["error"].JNull?)
    ensures j.JObject? && j.members.Keys !! {"proof", "error"} ==> r == Some(RawProverResponse(None, None))
  {
    if !j.JObject? then None
    else
      var proof :- IfPresent(j.members, "proof", DecodeString);
      var error :- IfPresent(j.members, "error", DecodeString);
      Some(RawProverResponse(proof, error))
  }

  /** The outcome of `handleProverResponse`: its result and the statuses it sends itself. */
  datatype Handled = Handled(result: Result<string, Error>, emitted: seq<ProofStatus>)

  /**
   * `handleProverResponse`: no text, unreadable text or an undecodable
   * reply throws without a status; otherwise `error` takes precedence over
   * `proof`, and a reply with neither is an invalid response.
   */
  function ResponseVerdict(response: Option<Data>): (h: Handled)
    ensures h.emitted == [] || h.emitted == [success] || h.emitted == [failure]
    ensures h.emitted == [success] <==> h.result.Success?
  {
    if response.None? then Handled(Failure(ProverFailure(invalidResponse)), [])
    else match ReadJson(response.value)
      case None => Handled(Failure(CodingFailure(DecodingError)), [])
      case Some(j) =>
        match DecodeRawProverResponse(j)
        case None => Handled(Failure(CodingFailure(DecodingError)), [])
        case Some(raw) =>
          if raw.error.Some? then Handled(Failure(ProverFailure(custom(raw.error.value))), [failure])
          else if raw.proof.Some? then Handled(Success(raw.proof.value), [success])
          else Handled(Failure(ProverFailure(invalidResponse)), [failure])
  }

  /** A string-valued `error` wins even when a `proof` is present too. */
  lemma ErrorFieldWins(members: map<string, Json>, message: string)
    requires "error" in members && members["error"] == JString(message)
    requires "proof" in members ==> members["proof"].JString? || members["proof"].JNull?
    ensures ResponseVerdict(Some(JsonText(JObject(members)))) ==
      Handled(Failure(ProverFailure(custom(message))), [failure])
  {
  }

  /** With only a `proof` (and `error` absent or null) the proof is returned and `success` sent. */
  lemma ProofFieldAlone(members: map<string, Json>, proof: string)
    requires "proof" in members && members["proof"] == JString(proof)
    requires "error" !in members || members["error"].JNull?
    ensures ResponseVerdict(Some(JsonText(JObject(members)))) == Handled(Success(proof), [success])
  {
  }

  /** With neither field the reply is an invalid response, reported as `failure`. */
  lemma NeitherField(members: map<string, Json>)
    requires "proof" !in members && "error" !in members
    ensures ResponseVerdict(Some(JsonText(JObject(members)))) ==
      Handled(Failure(ProverFailure(invalidResponse)), [failure])
  {
  }

  // ---------------------------------------------------------------------
  // generateProof

  /** What the native prover does with a configuration: reply with text (possibly none), or throw. */
  datatype ProverReply = Returned(response: Option<Data>) | Threw(error: Error)

  /** A whole `generateProof` call: its result and every status sent, in order. */
  datatype ProofRun = ProofRun(result: Result<string, Error>, statuses: seq<ProofStatus>)

  /**
   * The specification of `generateProof` as written: `loading` once the
   * configuration is built, the statuses `handleProverResponse` sends, and
   * one more `failure` from the enclosing `catch` for every error thrown
   * after `loading`.
   */
  function GenerateProofRun(m: ManifestFile, prover: ProverConfig -> ProverReply): (r: ProofRun)
    ensures r.statuses == [] <==> BuildConfig(m, TargetBody(m)).Failure?
    ensures r.statuses != [] ==> r.statuses[0] == loading && 2 <= |r.statuses| <= 3
    ensures r.result.Success? ==> r.statuses == [loading, success]
  {
    match BuildConfig(m, TargetBody(m))
    case Failure(e) => ProofRun(Failure(e), [])
    case Success(config) =>
      match prover(config)
      case Threw(e) => ProofRun(Failure(e), [loading, failure])
      case Returned(response) =>
        var h := ResponseVerdict(response);
        ProofRun(h.result, [loading] + h.emitted + (if h.result.Failure? then [failure] else []))
  }

  /** If the configuration cannot be built, nothing is sent and the encoding error is thrown. */
  lemma NoStatusWithoutConfig(m: ManifestFile, prover: ProverConfig -> ProverReply)
    requires !BodiesSatisfy(m, Encodable)
    ensures GenerateProofRun(m, prover) == ProofRun(Failure(CodingFailure(EncodingError)), [])
  {
    BuildConfigFailsIff(m);
  }

  /** Otherwise `loading` is sent first, exactly once, and the last status says how the call ended. */
  lemma LoadingFirstAndOnce(m: ManifestFile, prover: ProverConfig -> ProverReply)
    requires BodiesSatisfy(m, Encodable)
    ensures var run := GenerateProofRun(m, prover);
      && |run.statuses| >= 2
      && run.statuses[0] == loading
      && loading !in run.statuses[1..]
      && run.statuses[|run.statuses| - 1] == (if run.result.Success? then success else failure)
  {
    BuildConfigFailsIff(m);
    var run := GenerateProofRun(m, prover);
    var config := BuildConfig(m, TargetBody(m)).value;
    if prover(config).Returned? {
      var h := ResponseVerdict(prover(config).response);
      assert run.statuses == [loading] + h.emitted + (if h.result.Failure? then [failure] else []);
    }
  }

  /** A successful call sends exactly [loading, success]. */
  lemma SuccessSequence(m: ManifestFile, prover: ProverConfig -> ProverReply)
    requires GenerateProofRun(m, prover).result.Success?
    ensures GenerateProofRun(m, prover).statuses == [loading, success]
  {
  }

  /** A prover call that throws sends exactly [loading, failure] and rethrows its error. */
  lemma ThrowingProverSequence(m: ManifestFile, prover: ProverConfig -> ProverReply, e: Error)
    requires BuildConfig(m, TargetBody(m)).Success?
    requires prover(BuildConfig(m, TargetBody(m)).value) == Threw(e)
    ensures GenerateProofRun(m, prover) == ProofRun(Failure(e), [loading, failure])
  {
  }

  /**
   * As written, an `error` reply sends `failure` twice: once in
   * `handleProverResponse` and once more in the enclosing `catch`.
   */
  lemma ErrorReplySendsFailureTwice(m: ManifestFile, prover: ProverConfig -> ProverReply, message: string)
    requires BuildConfig(m, TargetBody(m)).Success?
    requires prover(BuildConfig(m, TargetBody(m)).value) ==
      Returned(Some(JsonText(JObject(map["error" := JString(message)]))))
    ensures GenerateProofRun(m, prover) ==
      ProofRun(Failure(ProverFailure(custom(message))), [loading, failure, failure])
  {
    ErrorFieldWins(map["error" := JString(message)], message);
  }

  /** As written, a reply with neither field (both `null`) sends `failure` twice as well. */
  lemma NeitherFieldSendsFailureTwice(m: ManifestFile, prover: ProverConfig -> ProverReply)
    requires BuildConfig(m, TargetBody(m)).Success?
    requires prover(BuildConfig(m, TargetBody(m)).value) ==
      Returned(Some(JsonText(JObject(map["proof" := JNull, "error" := JNull]))))
    ensures GenerateProofRun(m, prover) ==
      ProofRun(Failure(ProverFailure(invalidResponse)), [loading, failure, failure])
  {
  }

  /** The mock reply of the SDK's success test gives the proof and [loading, success]. */
  lemma MockSuccessReply(m: ManifestFile, prover: ProverConfig -> ProverReply)
    requires BuildConfig(m, TargetBody(m)).Success?
    requires prover(BuildConfig(m, TargetBody(m)).value) ==
      Returned(Some(JsonText(JObject(map["proof" := JString("mock-proof-data"), "error" := JNull]))))
    ensures GenerateProofRun(m, prover) == ProofRun(Success("mock-proof-data"), [loading, success])
  {
  }

  /**
   * The evidently intended sequencing: the enclosing `catch` sends
   * `failure` only for errors `handleProverResponse` has not reported.
   */
  function GenerateProofRunCorrected(m: ManifestFile, prover: ProverConfig -> ProverReply): (r: ProofRun)
    ensures r.statuses == [] <==> BuildConfig(m, TargetBody(m)).Failure?
    ensures r.statuses == [] || r.statuses == [loading, if r.result.Success? then success else failure]
  {
    match BuildConfig(m, TargetBody(m))
    case Failure(e) => ProofRun(Failure(e), [])
    case Success(config) =>
      match prover(config)
      case Threw(e) => ProofRun(Failure(e), [loading, failure])
      case Returned(response) =>
        var h := ResponseVerdict(response);
        ProofRun(h.result, [loading] + (if h.emitted == [] then [failure] else h.emitted))
  }

  /** Corrected: exactly one of `success` and `failure` follows exactly one `loading`. */
  lemma CorrectedSendsOneTerminalStatus(m: ManifestFile, prover: ProverConfig -> ProverReply)
    requires BodiesSatisfy(m, Encodable)
    ensures var run := GenerateProofRunCorrected(m, prover);
      run.statuses == [loading, if run.result.Success? then success else failure]
    ensures GenerateProofRunCorrected(m, prover).result == GenerateProofRun(m, prover).result
  {
    BuildConfigFailsIff(m);
  }

  /** The caller's `onStatusChange` closure, as the list of statuses it has received. */
  class StatusLog {
    var statuses: seq<ProofStatus>

    constructor ()
      ensures statuses == []
    {
      statuses := [];
    }

    method Notify(status: ProofStatus)
      modifies this
      ensures statuses == old(statuses) + [status]
    {
      statuses := statuses + [status];
    }
  }

  /** The process-global `setupTracing` flag. */
  class TracingFlag {
    var isSetUp: bool

    constructor ()
      ensures !isSetUp
    {
      isSetUp := false;
    }
  }

  /** `onStatusChange?(status)`: nothing happens without a closure. */
  method Emit(onStatusChange: StatusLog?, status: ProofStatus)
    modifies onStatusChange
    ensures onStatusChange != null ==> onStatusChange.statuses == old(onStatusChange.statuses) + [status]
  {
    if onStatusChange != null {
      onStatusChange.Notify(status);
    }
  }

  method HandleProverResponse(response: Option<Data>, onStatusChange: StatusLog?) returns (r: Result<string, Error>)
    modifies onStatusChange
    ensures r == ResponseVerdict(response).result
    ensures onStatusChange != null ==>
      onStatusChange.statuses == old(onStatusChange.statuses) + ResponseVerdict(response).emitted
  {
    if response.None? {
      return Failure(ProverFailure(invalidResponse));
    }
    var document := ReadJson(response.value);
    if document.None? {
      return Failure(CodingFailure(DecodingError));
    }
    var raw := DecodeRawProverResponse(document.value);
    if raw.None? {
      return Failure(CodingFailure(DecodingError));
    }
    if raw.value.error.Some? {
      Emit(onStatusChange, failure);
      return Failure(ProverFailure(custom(raw.value.error.value)));
    }
    if raw.value.proof.Some? {
      Emit(onStatusChange, success);
      return Success(raw.value.proof.value);
    }
    Emit(onStatusChange, failure);
    r := Failure(ProverFailure(invalidResponse));
  }

  /**
   * `generateProof`: sets up tracing once per process, builds the
   * configuration, sends `loading`, calls the prover and interprets its
   * reply, sending `failure` again from the `catch` on any error after
   * `loading`.
   */
  method GenerateProof(
    manifest: ManifestFile, prover: ProverConfig -> ProverReply, tracing: TracingFlag, onStatusChange: StatusLog?)
    returns (r: Result<string, Error>)
    modifies tracing, onStatusChange
    ensures tracing.isSetUp
    ensures r == GenerateProofRun(manifest, prover).result
    ensures onStatusChange != null ==>
      onStatusChange.statuses == old(onStatusChange.statuses) + GenerateProofRun(manifest, prover).statuses
  {
    if !tracing.isSetUp {
      tracing.isSetUp := true;
    }
    var targetBody := manifest.request.body.GetOr(AString(""));
    assert targetBody == TargetBody(manifest);
    var config := BuildConfig(manifest, targetBody);
    if config.Failure? {
      return Failure(config.error);
    }
    Emit(onStatusChange, loading);
    var reply := prover(config.value);
    if reply.Threw? {
      Emit(onStatusChange, failure);
      return Failure(reply.error);
    }
    ghost var h := ResponseVerdict(reply.response);
    assert GenerateProofRun(manifest, prover) ==
      ProofRun(h.result, [loading] + h.emitted + (if h.result.Failure? then [failure] else []));
    r := HandleProverResponse(reply.response, onStatusChange);
    if r.Failure? {
      Emit(onStatusChange, failure);
    }
  }
}
