/**
 * PasetoTokenHandler.WriteToken: validate the descriptor, then assemble the
 * v2.public payload claim by claim and hand it to the library's Build, keyed
 * by the private half of GenerateKeys(descriptor.SecretKey).
 *
 * Assumption: the library's RegisteredClaims.Audience, RegisteredClaims.Issuer,
 * RegisteredClaims.NotBefore and its Expiration(...) name their claims "aud",
 * "iss", "nbf" and "exp", the values of the matching RegisteredClaimNames
 * constants.
 */
module TokenHandler {
  import opened Wrappers
  import opened Library
  import opened TokenDescriptor
  import opened TokenDescriptorValidator
  import Names = RegisteredClaimNames

  /** The exception WriteToken throws for an invalid descriptor, with the validator's errors. */
  datatype WriteError = ValidationException(errors: seq<ValidationFailure>)

  /** The claims added before the subject's: aud, iss, exp, and nbf when NotBefore has a value. */
  function RegisteredPayload(d: Descriptor): seq<PayloadClaim>
    requires IsValid(d)
  {
    [ PayloadClaim(Names.Audience, Text(d.audience.value)),
      PayloadClaim(Names.Issuer, Text(d.issuer.value)),
      PayloadClaim(Names.ExpirationTime, Time(d.expires.value)) ]
    + if d.notBefore.Some? then [PayloadClaim(Names.NotBefore, Time(d.notBefore.value))] else []
  }

  /** Each subject claim as a payload claim: its type as the name, its value as a string. */
  function SubjectPayload(claims: seq<Claim>): seq<PayloadClaim>
  {
    if claims == [] then []
    else
      var last := claims[|claims| - 1];
      SubjectPayload(claims[..|claims| - 1]) + [PayloadClaim(last.claimType, Text(last.value))]
  }

  /** The whole payload a valid descriptor produces. */
  function IssuedPayload(d: Descriptor): seq<PayloadClaim>
    requires IsValid(d)
  {
    RegisteredPayload(d) + SubjectPayload(d.subject.value)
  }

  /** The subject payload holds one claim per subject claim, in the same order. */
  lemma {:induction false} SubjectPayloadAt(claims: seq<Claim>)
    ensures |SubjectPayload(claims)| == |claims|
    ensures forall i :: 0 <= i < |claims| ==>
      SubjectPayload(claims)[i] == PayloadClaim(claims[i].claimType, Text(claims[i].value))
  {
    if claims != [] {
      SubjectPayloadAt(claims[..|claims| - 1]);
    }
  }

  /**
   * The token WriteToken returns for `d`, or the exception it throws. The
   * signing key is the private half of GenerateKeys(SecretKey); an invalid
   * descriptor yields the validator's errors and nothing is built.
   */
  method WriteToken(ext: Externals, d: Descriptor) returns (r: Result<string, WriteError>)
    ensures r.Failure? <==> !IsValid(d)
    ensures r.Failure? ==> r.error == ValidationException(Validate(d)) && r.error.errors != []
    ensures r.Success? ==> IsValid(d) && r.value == ext.build(ext.generateKeys(d.secretKey.value).privateKey, IssuedPayload(d))
  {
    var errors := Validate(d);
    if errors != [] {
      return Failure(ValidationException(errors));
    }
    var key := ext.generateKeys(d.secretKey.value).privateKey;
    var payload := [
      PayloadClaim(Names.Audience, Text(d.audience.value)),
      PayloadClaim(Names.Issuer, Text(d.issuer.value)),
      PayloadClaim(Names.ExpirationTime, Time(d.expires.value))];
    // Nullable<DateTime>.Equals(null) holds exactly when NotBefore has no value.
    if d.notBefore.Some? {
      payload := payload + [PayloadClaim(Names.NotBefore, Time(d.notBefore.value))];
    }
    var claims := d.subject.value;
    var i := 0;
    while i < |claims|
      invariant 0 <= i <= |claims|
      invariant payload == RegisteredPayload(d) + SubjectPayload(claims[..i])
    {
      payload := payload + [PayloadClaim(claims[i].claimType, Text(claims[i].value))];
      assert claims[..i + 1][..i] == claims[..i];
      i := i + 1;
    }
    assert claims[..i] == claims;
    return Success(ext.build(key, payload));
  }

  /**
   * The payload's layout: aud, iss and exp first, in that order, then nbf
   * exactly when NotBefore has a value, then every subject claim in order.
   */
  lemma IssuedPayloadLayout(d: Descriptor)
    requires IsValid(d)
    ensures var p, k := IssuedPayload(d), if d.notBefore.Some? then 4 else 3;
      && |p| == k + |d.subject.value|
      && p[0] == PayloadClaim(Names.Audience, Text(d.audience.value))
      && p[1] == PayloadClaim(Names.Issuer, Text(d.issuer.value))
      && p[2] == PayloadClaim(Names.ExpirationTime, Time(d.expires.value))
      && (d.notBefore.Some? ==> p[3] == PayloadClaim(Names.NotBefore, Time(d.notBefore.value)))
      && forall j :: 0 <= j < |d.subject.value| ==>
           p[k + j] == PayloadClaim(d.subject.value[j].claimType, Text(d.subject.value[j].value))
  {
    SubjectPayloadAt(d.subject.value);
  }

  /** The claim names of a payload. */
  function PayloadNames(p: seq<PayloadClaim>): (names: seq<string>)
    ensures |names| == |p| && forall i :: 0 <= i < |p| ==> names[i] == p[i].name
  {
    seq(|p|, i requires 0 <= i < |p| => p[i].name)
  }

  /** The claim types of a subject. */
  function ClaimTypes(claims: seq<Claim>): (types: seq<string>)
    ensures |types| == |claims| && forall i :: 0 <= i < |claims| ==> types[i] == claims[i].claimType
  {
    seq(|claims|, i requires 0 <= i < |claims| => claims[i].claimType)
  }

  /** Every issued claim is aud, iss, exp, nbf or one of the subject's claim types: nothing else is added. */
  lemma IssuedNamesComeFromDescriptor(d: Descriptor)
    requires IsValid(d)
    ensures forall n :: n in PayloadNames(IssuedPayload(d)) ==>
      n in [Names.Audience, Names.Issuer, Names.ExpirationTime, Names.NotBefore] || n in ClaimTypes(d.subject.value)
  {
    IssuedPayloadLayout(d);
    var p, k := IssuedPayload(d), if d.notBefore.Some? then 4 else 3;
    forall n | n in PayloadNames(p)
      ensures n in [Names.Audience, Names.Issuer, Names.ExpirationTime, Names.NotBefore] || n in ClaimTypes(d.subject.value)
    {
      var i :| 0 <= i < |p| && PayloadNames(p)[i] == n;
      if i >= k {
        assert ClaimTypes(d.subject.value)[i - k] == n;
      }
    }
  }

  /** No iat or jti claim is issued unless the subject itself carries one. */
  lemma NoIssuedAtOrTokenIdentifier(d: Descriptor)
    requires IsValid(d)
    requires Names.IssuedAt !in ClaimTypes(d.subject.value) && Names.TokenIdentifier !in ClaimTypes(d.subject.value)
    ensures Names.IssuedAt !in PayloadNames(IssuedPayload(d))
    ensures Names.TokenIdentifier !in PayloadNames(IssuedPayload(d))
  {
    IssuedNamesComeFromDescriptor(d);
  }

  /** Among the registered claims, nbf appears exactly when NotBefore has a value. */
  lemma NotBeforeIffPresent(d: Descriptor)
    requires IsValid(d)
    ensures Names.NotBefore in PayloadNames(RegisteredPayload(d)) <==> d.notBefore.Some?
  {
    var p := RegisteredPayload(d);
    if d.notBefore.Some? {
      assert PayloadNames(p)[3] == Names.NotBefore;
    } else {
      Names.NamesPairwiseDistinct();
      assert PayloadNames(p) == [Names.Audience, Names.Issuer, Names.ExpirationTime];
    }
  }

  /** Reading the subject claims back from the tail of the payload recovers the subject exactly. */
  lemma SubjectRecoverable(d: Descriptor)
    requires IsValid(d)
    ensures var k := |RegisteredPayload(d)|;
      k <= |IssuedPayload(d)| && ClaimsOf(IssuedPayload(d)[k..]) == Some(d.subject.value)
  {
    var k := |RegisteredPayload(d)|;
    assert IssuedPayload(d)[k..] == SubjectPayload(d.subject.value);
    ClaimsOfSubjectPayload(d.subject.value);
  }

  /** The inverse of SubjectPayload: string-valued payload claims back to claims. */
  function ClaimsOf(p: seq<PayloadClaim>): Option<seq<Claim>>
  {
    if p == [] then Some([])
    else match (p[|p| - 1].value, ClaimsOf(p[..|p| - 1]))
      case (Text(v), Some(init)) => Some(init + [Claim(p[|p| - 1].name, v)])
      case _ => None
  }

  lemma {:induction false} ClaimsOfSubjectPayload(claims: seq<Claim>)
    ensures ClaimsOf(SubjectPayload(claims)) == Some(claims)
  {
    if claims != [] {
      var init := claims[..|claims| - 1];
      ClaimsOfSubjectPayload(init);
      var p := SubjectPayload(claims);
      assert p[..|p| - 1] == SubjectPayload(init);
      assert init + [claims[|claims| - 1]] == claims;
    }
  }
}
