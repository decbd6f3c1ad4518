/**
 * The boundary to the code this model does not see: Ed25519 key derivation
 * (PasetoDefaults.GenerateKeys over Ed25519.KeyPairFromSeed), the Paseto
 * library's v2.public builder and decoder, the HTTP authorization-header
 * parser and the JSON parser. Each is an arbitrary function carried by an
 * `Externals` value, so every property proved below holds for every possible
 * behaviour of those libraries.
 */
module Library {
  import opened Wrappers

  type Byte = bv8

  /** The pair GenerateKeys returns, in its order: the private half first. */
  datatype KeyPair = KeyPair(privateKey: seq<Byte>, publicKey: seq<Byte>)

  /** A DateTime; no arithmetic or comparison is performed on it. */
  datatype Timestamp = Timestamp(ticks: int)

  /** A value handed to the builder's AddClaim: a string or a DateTime. */
  datatype ClaimValue = Text(text: string) | Time(time: Timestamp)

  /** One (name, value) pair of the builder's payload. */
  datatype PayloadClaim = PayloadClaim(name: string, value: ClaimValue)

  /** A JSON value as the JSON library parses it. */
  datatype Json =
    | JNull
    | JBool(b: bool)
    | JNumber(n: int)
    | JString(s: string)
    | JArray(items: seq<Json>)
    | JObject(properties: seq<JProperty>)

  /** One property of a parsed JSON object, in document order. */
  datatype JProperty = JProperty(name: string, value: Json)

  /** A parsed Authorization header: its scheme and its (possibly missing) parameter. */
  datatype AuthHeader = AuthHeader(scheme: string, parameter: Option<string>)

  /**
   * The library operations. A `Failure` carries the message of the exception
   * the library throws.
   */
  datatype Externals = Externals(
    generateKeys: string -> KeyPair,
    build: (seq<Byte>, seq<PayloadClaim>) -> string,
    decode: (seq<Byte>, Option<string>) -> Result<string, string>,
    tryParseHeader: string -> Option<AuthHeader>,
    parseObject: string -> Result<seq<JProperty>, string>,
    jsonToString: Json -> string)

  /** PasetoDefaults.Bearer, the default authentication scheme name. */
  const Bearer: string := "Bearer"
}
