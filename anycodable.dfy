/**
 * `AnyCodable`: the JSON-shaped value a manifest carries as a request body.
 * Its `value: Any` is modelled by the kinds of Swift value it can hold; a
 * value of any other Swift type is `AOther`.
 */
module AnyCodableModel {
  import opened Wrappers
  import opened Foundation

  /** Swift `Int` is 64 bits wide on every platform the SDK targets. */
  const INT_MIN: int := -0x8000_0000_0000_0000
  const INT_MAX: int := 0x7FFF_FFFF_FFFF_FFFF

  type Int64 = i: int | INT_MIN <= i <= INT_MAX

  /**
   * 2^1024 - 2^970, halfway between the largest finite `Double` and the next
   * power of two: the smallest magnitude that rounds to infinity (a tie
   * rounds to the even neighbour, which is the overflow).
   */
  const DOUBLE_OVERFLOW: int := 0xFFFF_FFFF_FFFF_FC00000000000000000000000000000000000000000000000000000000000000000000000000000000000000000000000000000000000000000000000000000000000000000000000000000000000000000000000000000000000000000000000000000000000000000000000000000000000000000000000000

  /** A JSON number JSONDecoder reads as a `Double`: one that rounds to a finite value. */
  predicate DoubleRepresentable(n: Number) {
    match n
    case Integral(v) => -DOUBLE_OVERFLOW < v < DOUBLE_OVERFLOW
    case NonIntegral(_, withinDoubleRange) => withinDoubleRange
  }

  /**
   * A Swift `Double`, kept opaque: a finite double is represented by the JSON
   * number it is written as; NaN and the infinities are not numbers in JSON.
   * A `FiniteDouble` whose number is beyond `DoubleRepresentable` stands for
   * the infinity that number would round to.
   */
  datatype DoubleValue = FiniteDouble(number: Number) | NonFiniteDouble

  datatype AnyCodable =
    | AInt(i: Int64)
    | ADouble(d: DoubleValue)
    | ABool(b: bool)
    | AString(s: string)
    | AArray(items: seq<AnyCodable>)
    | AObject(members: map<string, AnyCodable>)
    | AOther(typeName: string)

  // Single-value decoding attempts, one per variant.

  function DecodeInt(j: Json): (r: Option<Int64>)
    ensures r.Some? <==> j.JNumber? && j.n.Integral? && INT_MIN <= j.n.value <= INT_MAX
    ensures r.Some? ==> j == JNumber(Integral(r.value))
  {
    if j.JNumber? && j.n.Integral? && INT_MIN <= j.n.value <= INT_MAX then Some(j.n.value) else None
  }

  function DecodeDouble(j: Json): (r: Option<DoubleValue>)
    ensures r.Some? <==> j.JNumber? && DoubleRepresentable(j.n)
    ensures r.Some? ==> r.value == FiniteDouble(j.n)
  {
    if j.JNumber? && DoubleRepresentable(j.n) then Some(FiniteDouble(j.n)) else None
  }

  function DecodeBool(j: Json): (r: Option<bool>)
    ensures r.Some? <==> j.JBool?
    ensures r.Some? ==> j == JBool(r.value)
  {
    if j.JBool? then Some(j.b) else None
  }

  function DecodeString(j: Json): (r: Option<string>)
    ensures r.Some? <==> j.JString?
    ensures r.Some? ==> j == JString(r.value)
  {
    if j.JString? then Some(j.s) else None
  }

  /**
   * `init(from:)`: try Int, then Double, then Bool, then String, then an
   * array of AnyCodable, then a string-keyed dictionary of AnyCodable, and
   * throw if none of them decodes.
   */
  function DecodeAnyCodable(j: Json): (r: Option<AnyCodable>)
    ensures j.JNull? ==> r.None?
    ensures r.Some? ==> !r.value.AOther? && (r.value.ADouble? ==> r.value.d.FiniteDouble?)
    ensures r.Some? && r.value.AInt? ==> j == JNumber(Integral(r.value.i))
    ensures r.Some? && r.value.ADouble? ==> j == JNumber(r.value.d.number) && DoubleRepresentable(j.n)
    ensures r.Some? && r.value.ABool? ==> j == JBool(r.value.b)
    ensures r.Some? && r.value.AString? ==> j == JString(r.value.s)
    ensures r.Some? && r.value.AArray? ==>
      && j.JArray? && |r.value.items| == |j.items|
      && forall i | 0 <= i < |j.items| :: DecodeAnyCodable(j.items[i]) == Some(r.value.items[i])
    ensures r.Some? && r.value.AObject? ==>
      && j.JObject? && r.value.members.Keys == j.members.Keys
      && forall k | k in j.members :: DecodeAnyCodable(j.members[k]) == Some(r.value.members[k])
    decreases j
  {
    if DecodeInt(j).Some? then
      Some(AInt(DecodeInt(j).value))
    else if DecodeDouble(j).Some? then
      Some(ADouble(DecodeDouble(j).value))
    else if DecodeBool(j).Some? then
      Some(ABool(DecodeBool(j).value))
    else if DecodeString(j).Some? then
      Some(AString(DecodeString(j).value))
    else if j.JArray? && forall i | 0 <= i < |j.items| :: DecodeAnyCodable(j.items[i]).Some? then
      Some(AArray(seq(|j.items|, i requires 0 <= i < |j.items| => DecodeAnyCodable(j.items[i]).value)))
    else if j.JObject? && forall k | k in j.members :: DecodeAnyCodable(j.members[k]).Some? then
      Some(AObject(map k | k in j.members :: DecodeAnyCodable(j.members[k]).value))
    else
      None
  }

  /**
   * `encode(to:)`: dispatch on the held value's kind, arrays and dictionaries
   * element by element; any other kind throws.  JSONEncoder's default
   * strategy for non-conforming floats is to throw as well.
   */
  function EncodeAnyCodable(v: AnyCodable): (r: Option<Json>)
    ensures v.AOther? ==> r.None?
    ensures v.ADouble? && !(v.d.FiniteDouble? && DoubleRepresentable(v.d.number)) ==> r.None?
    ensures r.Some? ==> Decodable(r.value)
    decreases v
  {
    match v
    case AInt(i) => Some(JNumber(Integral(i)))
    case ADouble(d) => if d.FiniteDouble? && DoubleRepresentable(d.number) then Some(JNumber(d.number)) else None
    case ABool(b) => Some(JBool(b))
    case AString(s) => Some(JString(s))
    case AArray(items) =>
      if forall i | 0 <= i < |items| :: EncodeAnyCodable(items[i]).Some? then
        Some(JArray(seq(|items|, i requires 0 <= i < |items| => EncodeAnyCodable(items[i]).value)))
      else None
    case AObject(members) =>
      if forall k | k in members :: EncodeAnyCodable(members[k]).Some? then
        Some(JObject(map k | k in members :: EncodeAnyCodable(members[k]).value))
      else None
    case AOther(_) => None
  }

  /** No value of an unsupported type and no NaN or infinity anywhere inside. */
  predicate Encodable(v: AnyCodable)
    decreases v
  {
    match v
    case ADouble(d) => d.FiniteDouble? && DoubleRepresentable(d.number)
    case AArray(items) => forall i | 0 <= i < |items| :: Encodable(items[i])
    case AObject(members) => forall k | k in members :: Encodable(members[k])
    case AOther(_) => false
    case _ => true
  }

  /** No `Double` anywhere inside. */
  predicate DoubleFree(v: AnyCodable)
    decreases v
  {
    match v
    case ADouble(_) => false
    case AArray(items) => forall i | 0 <= i < |items| :: DoubleFree(items[i])
    case AObject(members) => forall k | k in members :: DoubleFree(members[k])
    case _ => true
  }

  /**
   * What `init(from:)` accepts: no `null` anywhere in the tree, and every
   * number within the range of a finite `Double`.
   */
  predicate Decodable(j: Json)
    decreases j
  {
    match j
    case JNull => false
    case JNumber(n) => DoubleRepresentable(n)
    case JArray(items) => forall i | 0 <= i < |items| :: Decodable(items[i])
    case JObject(members) => forall k | k in members :: Decodable(members[k])
    case _ => true
  }

  /** Decoding fails exactly when a `null` or an overflowing number occurs somewhere in the tree, nested or not. */
  lemma {:induction false} DecodeSucceedsIffDecodable(j: Json)
    ensures DecodeAnyCodable(j).Some? <==> Decodable(j)
    decreases j
  {
    match j
    case JArray(items) =>
      forall i | 0 <= i < |items|
        ensures DecodeAnyCodable(items[i]).Some? <==> Decodable(items[i])
      {
        DecodeSucceedsIffDecodable(items[i]);
      }
    case JObject(members) =>
      forall k | k in members
        ensures DecodeAnyCodable(members[k]).Some? <==> Decodable(members[k])
      {
        DecodeSucceedsIffDecodable(members[k]);
      }
    case _ =>
  }

  /** Encoding fails exactly when an unsupported value or a non-finite double occurs somewhere. */
  lemma {:induction false} EncodeSucceedsIffEncodable(v: AnyCodable)
    ensures EncodeAnyCodable(v).Some? <==> Encodable(v)
    decreases v
  {
    match v
    case AArray(items) =>
      forall i | 0 <= i < |items|
        ensures EncodeAnyCodable(items[i]).Some? <==> Encodable(items[i])
      {
        EncodeSucceedsIffEncodable(items[i]);
      }
    case AObject(members) =>
      forall k | k in members
        ensures EncodeAnyCodable(members[k]).Some? <==> Encodable(members[k])
      {
        EncodeSucceedsIffEncodable(members[k]);
      }
    case _ =>
  }

  /** A JSON number with a whole value in Int range always becomes `Int`, never `Double` or `String`. */
  lemma IntegralNumberDecodesAsInt(i: Int64)
    ensures DecodeAnyCodable(JNumber(Integral(i))) == Some(AInt(i))
  {
  }

  /** A whole number outside Int range but within Double range falls through to `Double`. */
  lemma WideIntegralDecodesAsDouble(i: int)
    requires !(INT_MIN <= i <= INT_MAX) && DoubleRepresentable(Integral(i))
    ensures DecodeAnyCodable(JNumber(Integral(i))) == Some(ADouble(FiniteDouble(Integral(i))))
  {
  }

  /** A number that overflows a `Double` (such as `1e400`) is no `AnyCodable` at all. */
  lemma OverflowingNumberFails(n: Number)
    requires !DoubleRepresentable(n)
    ensures DecodeAnyCodable(JNumber(n)) == None
  {
  }

  /** The boundary: the largest whole number below the overflow point decodes, the overflow point does not. */
  lemma DoubleRangeBoundary()
    ensures DecodeAnyCodable(JNumber(Integral(DOUBLE_OVERFLOW - 1))) == Some(ADouble(FiniteDouble(Integral(DOUBLE_OVERFLOW - 1))))
    ensures DecodeAnyCodable(JNumber(Integral(-DOUBLE_OVERFLOW))) == None
  {
  }

  /** The encoding keeps the variant and the shape: same kind, same length, same keys. */
  lemma EncodePreservesShape(v: AnyCodable)
    requires EncodeAnyCodable(v).Some?
    ensures var j := EncodeAnyCodable(v).value;
      && (v.AInt? ==> j == JNumber(Integral(v.i)))
      && (v.ADouble? ==> j.JNumber?)
      && (v.ABool? ==> j == JBool(v.b))
      && (v.AString? ==> j == JString(v.s))
      && (v.AArray? ==>
            && j.JArray? && |j.items| == |v.items|
            && forall i | 0 <= i < |v.items| :: EncodeAnyCodable(v.items[i]) == Some(j.items[i]))
      && (v.AObject? ==>
            && j.JObject? && j.members.Keys == v.members.Keys
            && forall k | k in v.members :: EncodeAnyCodable(v.members[k]) == Some(j.members[k]))
      && !v.AOther?
  {
  }

  /** For every value without a `Double`, decoding its encoding gives the value back. */
  lemma {:induction false} EncodeDecodeRoundTrip(v: AnyCodable)
    requires DoubleFree(v)
    requires EncodeAnyCodable(v).Some?
    ensures DecodeAnyCodable(EncodeAnyCodable(v).value) == Some(v)
    decreases v
  {
    match v
    case AArray(items) =>
      var ys := EncodeAnyCodable(v).value.items;
      forall i | 0 <= i < |items|
        ensures DecodeAnyCodable(ys[i]) == Some(items[i])
      {
        EncodeDecodeRoundTrip(items[i]);
      }
      assert seq(|ys|, i requires 0 <= i < |ys| => DecodeAnyCodable(ys[i]).value) == items;
    case AObject(members) =>
      var jm := EncodeAnyCodable(v).value.members;
      forall k | k in members
        ensures DecodeAnyCodable(jm[k]) == Some(members[k])
      {
        EncodeDecodeRoundTrip(members[k]);
      }
      assert EncodeAnyCodable(v) == Some(JObject(jm));
      assert forall k | k in jm :: DecodeAnyCodable(jm[k]).Some?;
      var r := DecodeAnyCodable(JObject(jm)).value;
      assert r.AObject?;
      assert r.members.Keys == members.Keys;
      assert forall k | k in members :: r.members[k] == members[k];
      assert r == v;
    case _ =>
  }

  /** Why `Double` is excluded: the double 5.0 is written as the number 5, which reads back as `Int`. */
  lemma DoubleDoesNotRoundTrip()
    ensures var v := ADouble(FiniteDouble(Integral(5)));
      EncodeAnyCodable(v).Some? && DecodeAnyCodable(EncodeAnyCodable(v).value) == Some(AInt(5))
  {
  }

  /**
   * `toBase64()`: the base64 text of the value's JSON encoding; throws exactly
   * when encoding throws.
   */
  function ToBase64(v: AnyCodable): (r: Result<Base64Text, CodingError>)
    ensures r.Success? <==> Encodable(v)
    ensures r.Success? ==> ReadJson(Base64Decode(r.value)) == EncodeAnyCodable(v)
  {
    EncodeSucceedsIffEncodable(v);
    match EncodeAnyCodable(v)
    case None => Failure(EncodingError)
    case Some(j) => Success(Base64Of(WriteJson(j)))
  }

  /** Decoding the base64 text of a value without a `Double` gives the value back. */
  lemma ToBase64RoundTrip(v: AnyCodable)
    requires DoubleFree(v) && Encodable(v)
    ensures ToBase64(v).Success?
    ensures DecodeAnyCodable(ReadJson(Base64Decode(ToBase64(v).value)).value) == Some(v)
  {
    EncodeSucceedsIffEncodable(v);
    EncodeDecodeRoundTrip(v);
  }
}
