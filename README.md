# PasetoAuth rules layer, in Dafny

PasetoAuth is an ASP.NET authentication add-on that issues and accepts PASETO
v2.public tokens. The cryptography (Ed25519 key derivation, signing,
verification), the token wire format and JSON parsing all live in external
libraries. This project models the layer of rules the repository itself owns
around those calls and proves its properties:

- `RegisteredClaimNames` (`registered_claim_names.dfy`): the seven registered
  claim-name constants and the enumeration documented above them.
- `TokenDescriptor` and `TokenDescriptorValidator`
  (`token_descriptor.dfy`, `token_descriptor_validator.dfy`): the issuance
  request and the five FluentValidation rules checked before a token is
  issued.
- `TokenHandler` (`token_handler.dfy`): `WriteToken` has the same structure as
  the source. It validates first, then appends `aud`, `iss`, `exp`, optionally
  `nbf`, then the subject's claims to a payload accumulator in a loop, and
  finally calls the library's `Build` with the private half of the key pair.
- `ValidationParameters` (`validation_parameters.dfy`): the handler options
  and the post-configuration secret-key check.
- `AuthHandler` (`auth_handler.dfy`): `HandleAuthenticateAsync` as a method of
  a handler class whose response headers it updates. It has three NoResult
  gates, a decode with the public key, a JSON parse, the property-to-claim
  projection loop and its switch, and the Success/Fail outcome.
- `Lifecycle` (`lifecycle.dfy`): issuing a token and then authenticating it.
  This rests on an explicitly stated hypothesis that the libraries round-trip.
- `Library` (`library.dfy`): the boundary to the external libraries. The
  following are fields of arrow type in an `Externals` value, so every
  property holds for every behaviour of those libraries:
  - `GenerateKeys`;
  - the Paseto builder's `Build`;
  - the Paseto `Decode`;
  - `AuthenticationHeaderValue.TryParse`;
  - `JObject.Parse`;
  - `JToken.ToString`.
- `Wrappers` (`wrappers.dfy`): `Option` for nullable values, `Result` for
  exceptions.

Modelling choices:

- Nullable C# values are `Option`s.
- Exceptions are `Failure` results carrying the exception: `ValidationException`
  with the validator's errors, `InvalidOperationException` with its message,
  or the message of a decode or parse exception.
- `GenerateKeys` returns the pair in its own order: private key, then public
  key (PasetoAuth/Common/PasetoDefaults.cs:9-14). The unused interface
  PasetoAuth/Interfaces/IPasetoTokenHandler.cs:11 declares the opposite order.
- The library names the claims added through `RegisteredClaims.Audience`,
  `RegisteredClaims.Issuer`, `RegisteredClaims.NotBefore` and `Expiration(...)`.
  The model assumes these names are "aud", "iss", "nbf" and "exp", the same as
  the repository's own constants.

What the code reads and does not do:

- The descriptor class (PasetoAuth/Common/PasetoTokenDescriptor.cs:7-15) has no
  `SecretKey` property, yet the validator and the token handler read one. The
  model's descriptor has a `secretKey` field.
- No code compares `exp` or `nbf` with the clock, and none adds `iat`.
- Issuer, audience and expiry are not filled from configured defaults.
- No refresh token is created.
- The handler gives `Fail` with the exception's message for any decode or parse
  exception.

## Model

| member | source | states |
|---|---|---|
| RegisteredClaimNames.RegisteredClaim.Constant | PasetoAuth/Common/PasetoRegisteredClaimsNames.cs:14-20 | each documented claim has one of the seven declared constants |
| RegisteredClaimNames.FromName | PasetoAuth/Common/PasetoRegisteredClaimsNames.cs:14-20 | a name denotes a registered claim exactly when it is one of the seven constants, and then it is that claim's constant |
| RegisteredClaimNames.NamesPairwiseDistinct | PasetoAuth/Common/PasetoRegisteredClaimsNames.cs:14-20 | there are seven constants, each three characters long and pairwise distinct |
| RegisteredClaimNames.ConstantInjective | PasetoAuth/Common/PasetoRegisteredClaimsNames.cs:14-20 | two documented claims share a constant only if they are the same claim, so at most one switch case matches a name |
| RegisteredClaimNames.FromNameOfConstant | PasetoAuth/Common/PasetoRegisteredClaimsNames.cs:12-21 | looking up a claim's constant returns that same claim |
| RegisteredClaimNames.ConstantsMatchDocumentation | PasetoAuth/Common/PasetoRegisteredClaimsNames.cs:4-20 | every constant equals the description string in the documentation comment |
| TokenDescriptorValidator.FieldFailures | PasetoAuth/Validators/TokenDescriptorValidator.cs:10-20 | a field's rules report nothing exactly when they hold, and every reported failure names that field |
| TokenDescriptorValidator.ValidIffAllFieldsPass | PasetoAuth/Validators/TokenDescriptorValidator.cs:8-21 | the descriptor is valid if and only if each of the five field rules holds |
| TokenDescriptorValidator.FailuresOf | PasetoAuth/Validators/TokenDescriptorValidator.cs:10-20 | rules are evaluated independently: a field is named in the failures exactly when it is among the checked fields and its rule fails |
| TokenDescriptorValidator.Validate | PasetoAuth/Validators/TokenDescriptorValidator.cs:8-21 | the errors name every failing field and only those; they are empty if and only if the descriptor is valid |
| TokenDescriptorValidator.FailingAmong | PasetoAuth/Validators/TokenDescriptorValidator.cs:10-20 | a field is listed exactly when it is among the fields checked and its rule fails |
| TokenDescriptorValidator.FailingFields | PasetoAuth/Validators/TokenDescriptorValidator.cs:8-21 | the failing fields are exactly those whose rule fails, so the list is empty if and only if the descriptor is valid |
| TokenDescriptorValidator.WhiteSpaceKeyRejected | PasetoAuth/Validators/TokenDescriptorValidator.cs:18-20 | a 32-character white-space secret key passes Length but fails NotEmpty, so the descriptor is invalid |
| TokenDescriptorValidator.EmptyKeyFailsBothRules | PasetoAuth/Validators/TokenDescriptorValidator.cs:18-20 | an empty secret key fails Length(32) and then NotEmpty, two failures in rule order |
| TokenDescriptorValidator.NullKeyFailsOnlyNotEmpty | PasetoAuth/Validators/TokenDescriptorValidator.cs:18-20 | a null secret key is skipped by Length and fails NotEmpty only |
| TokenDescriptorValidator.NotBeforeNeverChecked | PasetoAuth/Validators/TokenDescriptorValidator.cs:10-20 | no rule reads NotBefore: changing it leaves the failures of any list of fields unchanged |
| TokenDescriptorValidator.ValidityIgnoresNotBefore | PasetoAuth/Validators/TokenDescriptorValidator.cs:8-21 | validity and the errors do not depend on NotBefore, nor on any ordering of NotBefore, Expires and the clock |
| TokenHandler.WriteToken | PasetoAuth/Common/PasetoTokenHandler.cs:15-34 | an invalid descriptor throws a ValidationException with the validator's non-empty errors and nothing is built; a valid one returns Build of the private half of GenerateKeys(SecretKey) over the issued payload |
| TokenHandler.SubjectPayloadAt | PasetoAuth/Common/PasetoTokenHandler.cs:29-32 | each subject claim is added exactly once, in its original order, named by its Type with its Value |
| TokenHandler.IssuedPayloadLayout | PasetoAuth/Common/PasetoTokenHandler.cs:24-32 | aud, iss and exp come first in that order; nbf comes fourth exactly when NotBefore has a value; then every subject claim in order |
| TokenHandler.NotBeforeIffPresent | PasetoAuth/Common/PasetoTokenHandler.cs:27-28 | the registered claims include nbf if and only if NotBefore has a value |
| TokenHandler.IssuedNamesComeFromDescriptor | PasetoAuth/Common/PasetoTokenHandler.cs:21-32 | every issued claim name is aud, iss, exp, nbf or a subject claim type, so nothing else is added |
| TokenHandler.NoIssuedAtOrTokenIdentifier | PasetoAuth/Common/PasetoTokenHandler.cs:21-32 | no iat or jti claim is issued unless the subject itself carries one |
| TokenHandler.SubjectRecoverable | PasetoAuth/Common/PasetoTokenHandler.cs:29-32 | the payload after the registered claims reads back as the subject's claims, exactly |
| TokenHandler.ClaimsOfSubjectPayload | PasetoAuth/Common/PasetoTokenHandler.cs:29-32 | turning subject claims into payload claims and back gives the original claims |
| ValidationParameters.DefaultOptions | PasetoAuth/Options/PasetoValidationParameters.cs:6-14 | a fresh options object has ValidateIssuer and ValidateAudience true and no secret key |
| ValidationParameters.PostConfigure | PasetoAuth/Options/PasetoValidationParametersPostConfigure.cs:9-15 | accepts if and only if the key is non-null with exactly 32 characters; a null or empty key reports "Secret key is required." (checked first); any other length reports "Secret key must have 32 chars." |
| ValidationParameters.PostConfigureReadsOnlyKey | PasetoAuth/Options/PasetoValidationParametersPostConfigure.cs:9-15 | the verdict depends only on the secret key, not on the scheme name or the other options |
| ValidationParameters.WhiteSpaceKeyAccepted | PasetoAuth/Options/PasetoValidationParametersPostConfigure.cs:11-14 | a key of 32 spaces is accepted: length counts characters and white space is not examined |
| AuthHandler.AcceptedHeader | PasetoAuth/PasetoAuthHandler.cs:36-43 | a header is accepted exactly when it is present, parses, and its scheme equals the handler's scheme ignoring case |
| AuthHandler.Projected | PasetoAuth/PasetoAuthHandler.cs:57-85 | one claim per property, in property order, each the default arm's claim |
| AuthHandler.Authenticate | PasetoAuth/PasetoAuthHandler.cs:33-97 | the result is NoResult if and only if one of the three gates fails; on success both the identity and the ticket carry the scheme name |
| AuthHandler.ProjectClaims | PasetoAuth/PasetoAuthHandler.cs:53-86 | the switch, whose cases are found by looking the name up among the registered constants, yields exactly one claim per payload property, in order, with the property's name and the string form of its value; every registered-name arm equals the default arm |
| AuthHandler.PasetoAuthHandler.constructor | PasetoAuth/PasetoAuthHandler.cs:24-30 | the handler keeps the libraries, scheme name, options and response headers it is given |
| AuthHandler.PasetoAuthHandler.HandleAuthenticate | PasetoAuth/PasetoAuthHandler.cs:33-97 | returns Authenticate's outcome; a Fail, and nothing else, sets the "Error-Message" response header to the exception's message and leaves the other headers as they were |
| AuthHandler.MissingHeaderNoResult | PasetoAuth/PasetoAuthHandler.cs:36-37 | a missing Authorization header gives NoResult, whatever the decoder would do |
| AuthHandler.SchemeCaseInsensitive | PasetoAuth/PasetoAuthHandler.cs:42-43 | "bearer" and "BEARER" match the scheme "Bearer", and "Basic" does not |
| AuthHandler.EqualsIgnoreCaseEquivalence | PasetoAuth/PasetoAuthHandler.cs:42 | case-insensitive comparison is reflexive, symmetric and transitive |
| AuthHandler.OutcomeOfAcceptedHeader | PasetoAuth/PasetoAuthHandler.cs:45-95 | for an accepted header, a decode exception gives Fail with its message, and a parse exception after a successful decode gives Fail with the parse exception's message; Fail occurs exactly when decode or parse fails; Success holds one claim per property in order, with the property's name and stringified value |
| AuthHandler.DecodeUsesOnlyPublicKey | PasetoAuth/PasetoAuthHandler.cs:47-50 | changing the private half of the derived key pair changes no outcome, because decoding uses only the public half |
| Lifecycle.IssueThenAuthenticate | PasetoAuth/Common/PasetoTokenHandler.cs:21-33 | if the libraries round-trip (stated as a hypothesis), a token issued for a valid descriptor and presented under the handler's scheme with the same secret key authenticates; its claims are named as issued, aud and iss carry the descriptor's values, and the subject's claims come back unchanged and in order |

## Left out

- TokenHandler.WriteToken: a null descriptor is not modelled. The source hands it to FluentValidation's `Validate`, which refuses a null root model with its own exception (an `ArgumentNullException`, or an `InvalidOperationException` in later FluentValidation versions) before any rule runs, not the `ValidationException` of PasetoAuth/Common/PasetoTokenHandler.cs:20.
- Ed25519 key derivation (PasetoAuth/Common/PasetoDefaults.cs:9-14) is a foreign call. `GenerateKeys` is an arbitrary function of the key string. The ASCII encoding of the key and exceptions for a seed of the wrong size are not modelled.
- Paseto v2.public building, signing and decoding are the Paseto library's. `Build` is an arbitrary total function of the key and the payload; any exception it throws (for example on a repeated claim name) is not modelled. `Decode` is an arbitrary function that may fail. No signature security is claimed. The round trip in `Lifecycle.IssueThenAuthenticate` is a hypothesis.
- JSON parsing (`JObject.Parse`) and `JToken.ToString` are arbitrary functions. The payload is an ordered list of (name, value) properties.
- Header access is ASP.NET plumbing. The Authorization header arrives as an optional string; the header dictionary's case-insensitive lookup and the joining of repeated header values are not modelled. `AuthenticationHeaderValue.TryParse` is an arbitrary parse result.
- AuthHandler.EqualsIgnoreCase: upper-cases ASCII letters only. .NET's OrdinalIgnoreCase also maps other letters by their simple upper-case mapping.
- String lengths count Dafny characters, which are Unicode scalar values. .NET counts UTF-16 code units, so a character outside the Basic Multilingual Plane counts once here and twice in the source.
- `Task.Run` and `async` give no real concurrency here; the code is modelled as sequential.
- ASP.NET's AuthenticationHandler base class, the options monitor and the dependency registration in PasetoAuth/PasetoAuthExtensions.cs are not part of this model. The handler is given options that `PostConfigure` accepted, which is what the framework guarantees before the handler runs.
- Timestamps are opaque: no code compares `exp` or `nbf` with a clock. `ClockSkew`, `ValidateIssuer`, `ValidateAudience`, `Audience` and `Issuer` of the options are never read. The exceptions in PasetoAuth/Exceptions/ are never thrown.
- The refresh-token provider (PasetoAuth/Interfaces/IPasetoRefreshTokenProvider.cs, PasetoAuth/Common/PasetoToken.cs) and `IPasetoTokenHandler` are not used by the modelled code. `PasetoTokenHandler` does not implement that interface.
