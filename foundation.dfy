/**
 * The parts of Apple's Foundation library that the SDK calls but does not
 * define, reduced to what the SDK relies on: the tree a JSON text stands for,
 * the reader and writer that move between bytes and that tree, and base64
 * text.  Lexing, printing and base64 arithmetic are not modelled; a byte
 * buffer is described by what the JSON reader makes of it.
 */
module Foundation {
  import opened Wrappers

  type byte = x: int | 0 <= x < 256

  /**
   * A JSON number as the decoder sees it: one whose value is a whole number
   * (`7`, `-3`, `1e3`), or one that is not (`0.5`), kept as an opaque literal
   * together with the reader's verdict on whether its magnitude rounds to a
   * finite `Double` (`1.5e400` does not). The reader classifies a literal
   * with a fraction or an exponent by its value after rounding to `Double`,
   * so `1e-400`, which underflows to zero, is `Integral(0)`, and `1.0` is
   * `Integral(1)`; a literal of digits alone is classified by its exact value.
   */
  datatype Number = Integral(value: int) | NonIntegral(literal: string, withinDoubleRange: bool)

  /** The document tree of a JSON text. Member order inside an object is not significant. */
  datatype Json =
    | JNull
    | JBool(b: bool)
    | JNumber(n: Number)
    | JString(s: string)
    | JArray(items: seq<Json>)
    | JObject(members: map<string, Json>)

  /**
   * A `Data` buffer: either a well-formed JSON text, described by its tree,
   * or bytes that the JSON reader rejects.
   */
  datatype Data = JsonText(document: Json) | NotJson(bytes: seq<byte>)

  /** The errors Swift's `Codable` machinery throws. */
  datatype CodingError = EncodingError | DecodingError

  /** JSONSerialization / JSONDecoder reading a buffer: the tree, or nothing for malformed text. */
  function ReadJson(d: Data): (r: Option<Json>)
    ensures r.Some? <==> d.JsonText?
  {
    match d
    case JsonText(document) => Some(document)
    case NotJson(_) => None
  }

  /** JSONEncoder / JSONSerialization writing a tree: the text always reads back as the same tree. */
  function WriteJson(j: Json): (d: Data)
    ensures ReadJson(d) == Some(j)
  {
    JsonText(j)
  }

  /** `Data.base64EncodedString()`: the base64 text of a buffer, which decodes back to it. */
  datatype Base64Text = Base64Of(data: Data)

  /** Decoding base64 text gives back exactly the buffer it was made from. */
  function Base64Decode(t: Base64Text): Data {
    t.data
  }
}
