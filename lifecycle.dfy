/**
 * Issuing and then authenticating: a token WriteToken builds for a valid
 * descriptor, presented to a handler configured with the same secret key,
 * yields the issued claims. The signature scheme and the JSON encoding are
 * the libraries', so their round trip is an explicit hypothesis here, not a
 * proved fact.
 */
module Lifecycle {
  import opened Wrappers
  import opened Library
  import opened TokenDescriptor
  import opened TokenDescriptorValidator
  import opened TokenHandler
  import opened ValidationParameters
  import opened AuthHandler
  import Names = RegisteredClaimNames

  /** The token WriteToken returns for a valid descriptor. */
  function IssuedToken(ext: Externals, d: Descriptor): string
    requires IsValid(d)
  {
    ext.build(ext.generateKeys(d.secretKey.value).privateKey, IssuedPayload(d))
  }

  /**
   * HYPOTHESIS on the libraries, for one payload: the token built from it with
   * the private key decodes with the matching public key, and the decoded text
   * parses to `props`, one property per payload claim, in order, with the
   * claim's name and a value whose string form is `render` of the claim value.
   */
  predicate LibraryRoundTrip(ext: Externals, secretKey: string, payload: seq<PayloadClaim>,
                             props: seq<JProperty>, render: ClaimValue -> string)
  {
    var keys := ext.generateKeys(secretKey);
    var decoded := ext.decode(keys.publicKey, Some(ext.build(keys.privateKey, payload)));
    && decoded.Success?
    && ext.parseObject(decoded.value) == Result.Success(props)
    && |props| == |payload|
    && forall i :: 0 <= i < |props| ==>
         props[i].name == payload[i].name && ext.jsonToString(props[i].value) == render(payload[i].value)
  }

  /**
   * Under that hypothesis the handler authenticates the issued token: the
   * identity's claims are aud, iss, exp, nbf when NotBefore has a value, then
   * every subject claim unchanged and in order.
   */
  lemma IssueThenAuthenticate(ext: Externals, d: Descriptor, schemeName: string, options: Options,
                              authorization: string, props: seq<JProperty>, render: ClaimValue -> string)
    requires IsValid(d)
    requires options.secretKey == d.secretKey
    requires ext.tryParseHeader(authorization) == Some(AuthHeader(schemeName, Some(IssuedToken(ext, d))))
    requires LibraryRoundTrip(ext, d.secretKey.value, IssuedPayload(d), props, render)
    requires forall s :: render(Text(s)) == s
    ensures Configured(options)
    ensures var r := Authenticate(ext, schemeName, options, Some(authorization));
      && r.Success?
      && var claims, k := r.ticket.principal.identity.claims, |RegisteredPayload(d)|;
      && ClaimTypes(claims) == PayloadNames(IssuedPayload(d))
      && claims[0] == Claim(Names.Audience, d.audience.value)
      && claims[1] == Claim(Names.Issuer, d.issuer.value)
      && claims[k..] == d.subject.value
  {
    EqualsIgnoreCaseEquivalence(schemeName, schemeName, schemeName);
    IssuedPayloadLayout(d);
    var payload := IssuedPayload(d);
    var r := Authenticate(ext, schemeName, options, Some(authorization));
    OutcomeOfAcceptedHeader(ext, schemeName, options, Some(authorization));
    var claims, k := r.ticket.principal.identity.claims, |RegisteredPayload(d)|;
    assert |claims| == |payload|;
    assert ClaimTypes(claims) == PayloadNames(payload);
    var subject := d.subject.value;
    forall j | 0 <= j < |subject|
      ensures claims[k + j] == subject[j]
    {
      assert payload[k + j] == PayloadClaim(subject[j].claimType, Text(subject[j].value));
    }
    assert claims[k..] == subject;
  }
}
