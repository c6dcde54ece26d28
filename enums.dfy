/** The HTTP verbs a manifest request may use and the proving modes. */
module Enums {
  import opened Wrappers
  import opened Foundation

  /** `Methods`: a string-backed enum whose raw value is the case name. */
  datatype Method = GET | POST | PUT | DELETE | PATCH | HEAD | OPTIONS | TRACE | CONNECT

  function MethodRawValue(m: Method): (r: string)
    ensures r in METHOD_RAW_VALUES
  {
    match m
    case GET => "GET"
    case POST => "POST"
    case PUT => "PUT"
    case DELETE => "DELETE"
    case PATCH => "PATCH"
    case HEAD => "HEAD"
    case OPTIONS => "OPTIONS"
    case TRACE => "TRACE"
    case CONNECT => "CONNECT"
  }

  /** `Methods(rawValue:)`: the case whose raw value is `s`, if there is one. */
  function MethodFromRawValue(s: string): (r: Option<Method>)
    ensures r.Some? ==> MethodRawValue(r.value) == s
  {
    if s == "GET" then Some(GET)
    else if s == "POST" then Some(POST)
    else if s == "PUT" then Some(PUT)
    else if s == "DELETE" then Some(DELETE)
    else if s == "PATCH" then Some(PATCH)
    else if s == "HEAD" then Some(HEAD)
    else if s == "OPTIONS" then Some(OPTIONS)
    else if s == "TRACE" then Some(TRACE)
    else if s == "CONNECT" then Some(CONNECT)
    else None
  }

  /** The nine raw values, listed as the enum declares them. */
  const METHOD_RAW_VALUES: seq<string> :=
    ["GET", "POST", "PUT", "DELETE", "PATCH", "HEAD", "OPTIONS", "TRACE", "CONNECT"]

  /** Raw-value decoding inverts `MethodRawValue`, so the raw values are pairwise distinct. */
  lemma MethodRawValueRoundTrip(m: Method)
    ensures MethodFromRawValue(MethodRawValue(m)) == Some(m)
    ensures MethodRawValue(m) in METHOD_RAW_VALUES
  {
  }

  /** A string outside the nine raw values names no case; one inside names exactly one. */
  lemma MethodFromRawValueTotal(s: string)
    ensures MethodFromRawValue(s).Some? <==> s in METHOD_RAW_VALUES
  {
  }

  /** `Mode`: the proving strategy, with its hand-written `rawValue` switch. */
  datatype Mode = Origo | TEE | Proxy | TLSN

  function ModeRawValue(m: Mode): (r: string)
    ensures r in MODE_RAW_VALUES
    ensures r == "TEE" <==> m == TEE
  {
    match m
    case Origo => "Origo"
    case TEE => "TEE"
    case Proxy => "Proxy"
    case TLSN => "TLSN"
  }

  /** `Mode(rawValue:)`, from the raw values the case list declares. */
  function ModeFromRawValue(s: string): (r: Option<Mode>)
    ensures r.Some? ==> ModeRawValue(r.value) == s
  {
    if s == "Origo" then Some(Origo)
    else if s == "TEE" then Some(TEE)
    else if s == "Proxy" then Some(Proxy)
    else if s == "TLSN" then Some(TLSN)
    else None
  }

  const MODE_RAW_VALUES: seq<string> := ["Origo", "TEE", "Proxy", "TLSN"]

  lemma ModeRawValueRoundTrip(m: Mode)
    ensures ModeFromRawValue(ModeRawValue(m)) == Some(m)
    ensures ModeRawValue(m) in MODE_RAW_VALUES
  {
  }

  lemma ModeFromRawValueTotal(s: string)
    ensures ModeFromRawValue(s).Some? <==> s in MODE_RAW_VALUES
  {
  }

  /** Raw-value enums decode from a JSON string holding one of the raw values, and fail otherwise. */
  function DecodeMethod(j: Json): (r: Option<Method>)
    ensures r.Some? <==> j.JString? && j.s in METHOD_RAW_VALUES
    ensures r.Some? ==> j == EncodeMethod(r.value)
  {
    if j.JString? then MethodFromRawValue(j.s) else None
  }

  /** A method encodes as its raw value, which decodes back to the same case. */
  function EncodeMethod(m: Method): (r: Json)
    ensures r.JString? && r.s in METHOD_RAW_VALUES
    ensures MethodFromRawValue(r.s) == Some(m)
  {
    JString(MethodRawValue(m))
  }

  function DecodeMode(j: Json): (r: Option<Mode>)
    ensures r.Some? <==> j.JString? && j.s in MODE_RAW_VALUES
    ensures r.Some? ==> j == EncodeMode(r.value)
  {
    if j.JString? then ModeFromRawValue(j.s) else None
  }

  /** A mode encodes as its raw value, which decodes back to the same case. */
  function EncodeMode(m: Mode): (r: Json)
    ensures r.JString? && r.s in MODE_RAW_VALUES
    ensures ModeFromRawValue(r.s) == Some(m)
  {
    JString(ModeRawValue(m))
  }

  lemma MethodCodingRoundTrip(m: Method)
    ensures DecodeMethod(EncodeMethod(m)) == Some(m)
  {
    MethodRawValueRoundTrip(m);
  }

  lemma ModeCodingRoundTrip(m: Mode)
    ensures DecodeMode(EncodeMode(m)) == Some(m)
  {
    ModeRawValueRoundTrip(m);
  }
}
