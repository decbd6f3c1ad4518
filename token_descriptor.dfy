/** The issuance request (PasetoTokenDescriptor) and the claims it carries. */
module TokenDescriptor {
  import opened Wrappers
  import opened Library

  /** A System.Security.Claims.Claim: a type (its name) and a string value. */
  datatype Claim = Claim(claimType: string, value: string)

  /**
   * The descriptor's properties, each nullable. `subject` is the
   * ClaimsIdentity, represented by its claims in order. `secretKey` is read by
   * the validator and by the token handler although the descriptor class does
   * not declare it; the model adds it.
   */
  datatype Descriptor = Descriptor(
    issuer: Option<string>,
    audience: Option<string>,
    subject: Option<seq<Claim>>,
    notBefore: Option<Timestamp>,
    expires: Option<Timestamp>,
    secretKey: Option<string>)
}
