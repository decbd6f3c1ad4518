/**
 * PasetoAuthHandler.HandleAuthenticateAsync: three gates on the Authorization
 * header that each give NoResult, then a decode of the header parameter with
 * the public half of GenerateKeys(Options.SecretKey), a parse of the decoded
 * payload as a JSON object, and a projection of its properties into claims.
 * An exception from decode or parse gives Fail and sets the "Error-Message"
 * response header.
 */
module AuthHandler {
  import W = Wrappers
  import opened Library
  import opened TokenDescriptor
  import opened ValidationParameters
  import Names = RegisteredClaimNames

  const AuthorizationHeaderName: string := "Authorization"
  const ErrorMessageHeaderName: string := "Error-Message"

  datatype ClaimsIdentity = ClaimsIdentity(claims: seq<Claim>, authenticationType: string)
  datatype ClaimsPrincipal = ClaimsPrincipal(identity: ClaimsIdentity)
  datatype AuthenticationTicket = AuthenticationTicket(principal: ClaimsPrincipal, authenticationScheme: string)

  /** AuthenticateResult; a failure carries the exception's message. */
  datatype AuthenticateResult = NoResult | Success(ticket: AuthenticationTicket) | Fail(message: string)

  /** Ordinal upper-casing of one character, for the ASCII letters. */
  function UpperOrdinal(c: char): (u: char)
    ensures 'a' <= c <= 'z' ==> u as int == c as int - 32
    ensures !('a' <= c <= 'z') ==> u == c
  {
    if 'a' <= c <= 'z' then (c as int - 32) as char else c
  }

  /** String.Equals(a, b, StringComparison.OrdinalIgnoreCase). */
  predicate EqualsIgnoreCase(a: string, b: string) {
    |a| == |b| && forall i :: 0 <= i < |a| ==> UpperOrdinal(a[i]) == UpperOrdinal(b[i])
  }

  /** The Authorization header passes the three gates: present, parseable, and of this handler's scheme. */
  function AcceptedHeader(ext: Externals, schemeName: string, authorization: W.Option<string>): (h: W.Option<AuthHeader>)
    ensures h.Some? <==>
      authorization.Some? && ext.tryParseHeader(authorization.value).Some?
      && EqualsIgnoreCase(schemeName, ext.tryParseHeader(authorization.value).value.scheme)
    ensures h.Some? ==> h == ext.tryParseHeader(authorization.value)
  {
    if authorization.None? then W.None
    else
      match ext.tryParseHeader(authorization.value)
      case None => W.None
      case Some(header) => if EqualsIgnoreCase(schemeName, header.scheme) then W.Some(header) else W.None
  }

  /** Decode the header parameter with the public key, then parse the payload as a JSON object. */
  function DecodePayload(ext: Externals, options: Options, header: AuthHeader): W.Result<seq<JProperty>, string>
    requires Configured(options)
  {
    match ext.decode(ext.generateKeys(options.secretKey.value).publicKey, header.parameter)
    case Failure(message) => W.Failure(message)
    case Success(decoded) => ext.parseObject(decoded)
  }

  /** The default arm of the switch: the property's name with its value's string form. */
  function ClaimOf(ext: Externals, p: JProperty): Claim {
    Claim(p.name, ext.jsonToString(p.value))
  }

  /** One claim per property, in property order. */
  function Projected(ext: Externals, props: seq<JProperty>): (claims: seq<Claim>)
    ensures |claims| == |props| && forall i :: 0 <= i < |props| ==> claims[i] == ClaimOf(ext, props[i])
  {
    seq(|props|, i requires 0 <= i < |props| => ClaimOf(ext, props[i]))
  }

  /** The identity and ticket built from the claims, both under the scheme name. */
  function TicketFor(schemeName: string, claims: seq<Claim>): AuthenticationTicket {
    AuthenticationTicket(ClaimsPrincipal(ClaimsIdentity(claims, schemeName)), schemeName)
  }

  /** The outcome of HandleAuthenticateAsync for the request's Authorization header. */
  function Authenticate(ext: Externals, schemeName: string, options: Options, authorization: W.Option<string>): (r: AuthenticateResult)
    requires Configured(options)
    ensures r.NoResult? <==> AcceptedHeader(ext, schemeName, authorization).None?
    ensures r.Success? ==>
      (r.ticket.authenticationScheme == schemeName && r.ticket.principal.identity.authenticationType == schemeName)
  {
    match AcceptedHeader(ext, schemeName, authorization)
    case None => NoResult
    case Some(header) =>
      match DecodePayload(ext, options, header)
      case Failure(message) => Fail(message)
      case Success(props) => Success(TicketFor(schemeName, Projected(ext, props)))
  }

  /**
   * The foreach over the payload's properties with its switch on the name;
   * a case is selected by looking the name up among the registered constants
   * (Subject has no case of its own). Every registered-name arm builds the
   * claim the default arm would.
   */
  method ProjectClaims(ext: Externals, props: seq<JProperty>) returns (claims: seq<Claim>)
    ensures |claims| == |props|
    ensures forall i :: 0 <= i < |props| ==> claims[i] == Claim(props[i].name, ext.jsonToString(props[i].value))
  {
    claims := [];
    var i := 0;
    while i < |props|
      invariant 0 <= i <= |props|
      invariant |claims| == i
      invariant forall k :: 0 <= k < i ==> claims[k] == Claim(props[k].name, ext.jsonToString(props[k].value))
    {
      var obj := props[i];
      match Names.FromName(obj.name) {
      case Some(ExpirationTimeClaim) =>
        claims := claims + [Claim(Names.ExpirationTime, ext.jsonToString(obj.value))];
      case Some(AudienceClaim) =>
        claims := claims + [Claim(Names.Audience, ext.jsonToString(obj.value))];
      case Some(IssuerClaim) =>
        claims := claims + [Claim(Names.Issuer, ext.jsonToString(obj.value))];
      case Some(IssuedAtClaim) =>
        claims := claims + [Claim(Names.IssuedAt, ext.jsonToString(obj.value))];
      case Some(NotBeforeClaim) =>
        claims := claims + [Claim(Names.NotBefore, ext.jsonToString(obj.value))];
      case Some(TokenIdentifierClaim) =>
        claims := claims + [Claim(Names.TokenIdentifier, ext.jsonToString(obj.value))];
      case _ =>
        claims := claims + [Claim(obj.name, ext.jsonToString(obj.value))];
      }
      i := i + 1;
    }
  }

  /** The handler for one request; the response headers are what it changes. */
  class PasetoAuthHandler {
    const ext: Externals
    const schemeName: string
    const options: Options
    var responseHeaders: map<string, string>

    constructor (ext: Externals, schemeName: string, options: Options, responseHeaders: map<string, string>)
      requires Configured(options)
      ensures this.ext == ext && this.schemeName == schemeName && this.options == options
      ensures this.responseHeaders == responseHeaders
    {
      this.ext := ext;
      this.schemeName := schemeName;
      this.options := options;
      this.responseHeaders := responseHeaders;
    }

    /**
     * HandleAuthenticateAsync. The result is Authenticate's; only a failure
     * writes the exception's message to the "Error-Message" response header.
     */
    method HandleAuthenticate(authorization: W.Option<string>) returns (r: AuthenticateResult)
      requires Configured(options)
      modifies this
      ensures r == Authenticate(ext, schemeName, options, authorization)
      ensures responseHeaders ==
        if r.Fail? then old(responseHeaders)[ErrorMessageHeaderName := r.message] else old(responseHeaders)
    {
      if authorization.None? {
        return NoResult;
      }
      var parsed := ext.tryParseHeader(authorization.value);
      if parsed.None? {
        return NoResult;
      }
      var header := parsed.value;
      if !EqualsIgnoreCase(schemeName, header.scheme) {
        return NoResult;
      }
      var decoded := ext.decode(ext.generateKeys(options.secretKey.value).publicKey, header.parameter);
      if decoded.Failure? {
        responseHeaders := responseHeaders[ErrorMessageHeaderName := decoded.error];
        return Fail(decoded.error);
      }
      var json := ext.parseObject(decoded.value);
      if json.Failure? {
        responseHeaders := responseHeaders[ErrorMessageHeaderName := json.error];
        return Fail(json.error);
      }
      var claims := ProjectClaims(ext, json.value);
      assert claims == Projected(ext, json.value);
      var identity := ClaimsIdentity(claims, schemeName);
      return Success(AuthenticationTicket(ClaimsPrincipal(identity), schemeName));
    }
  }

  /** A missing Authorization header gives NoResult whatever the decoder would do. */
  lemma MissingHeaderNoResult(ext: Externals, schemeName: string, options: Options)
    requires Configured(options)
    ensures Authenticate(ext, schemeName, options, W.None) == NoResult
  {
  }

  /** The scheme comparison ignores the case of ASCII letters: "bearer" matches "Bearer". */
  lemma SchemeCaseInsensitive()
    ensures EqualsIgnoreCase(Bearer, "bearer") && EqualsIgnoreCase(Bearer, "BEARER")
    ensures !EqualsIgnoreCase(Bearer, "Basic")
  {
  }

  /** OrdinalIgnoreCase equality is an equivalence relation. */
  lemma EqualsIgnoreCaseEquivalence(a: string, b: string, c: string)
    ensures EqualsIgnoreCase(a, a)
    ensures EqualsIgnoreCase(a, b) ==> EqualsIgnoreCase(b, a)
    ensures EqualsIgnoreCase(a, b) && EqualsIgnoreCase(b, c) ==> EqualsIgnoreCase(a, c)
  {
  }

  /**
   * A decode or parse failure of an accepted header gives Fail with that
   * message; success gives a ticket holding exactly one claim per payload
   * property, in order, named as the property with its value's string form.
   */
  lemma OutcomeOfAcceptedHeader(ext: Externals, schemeName: string, options: Options, authorization: W.Option<string>)
    requires Configured(options)
    requires AcceptedHeader(ext, schemeName, authorization).Some?
    ensures var header := AcceptedHeader(ext, schemeName, authorization).value;
      var r := Authenticate(ext, schemeName, options, authorization);
      && (ext.decode(ext.generateKeys(options.secretKey.value).publicKey, header.parameter).Failure? ==>
           r == Fail(ext.decode(ext.generateKeys(options.secretKey.value).publicKey, header.parameter).error))
      && (var dec := ext.decode(ext.generateKeys(options.secretKey.value).publicKey, header.parameter);
          dec.Success? && ext.parseObject(dec.value).Failure? ==> r == Fail(ext.parseObject(dec.value).error))
      && (r.Fail? <==> DecodePayload(ext, options, header).Failure?)
      && (r.Success? ==>
           var props := DecodePayload(ext, options, header).value;
           |r.ticket.principal.identity.claims| == |props|
           && forall i :: 0 <= i < |props| ==>
                r.ticket.principal.identity.claims[i].claimType == props[i].name
                && r.ticket.principal.identity.claims[i].value == ext.jsonToString(props[i].value))
  {
  }

  /** Decoding sees only the public half of the key pair: changing the private half changes nothing. */
  lemma DecodeUsesOnlyPublicKey(ext: Externals, g: string -> KeyPair, schemeName: string, options: Options, authorization: W.Option<string>)
    requires Configured(options)
    requires g(options.secretKey.value).publicKey == ext.generateKeys(options.secretKey.value).publicKey
    ensures Authenticate(ext.(generateKeys := g), schemeName, options, authorization)
         == Authenticate(ext, schemeName, options, authorization)
  {
  }
}
