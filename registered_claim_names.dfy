/**
 * The registered claim names of PasetoRegisteredClaimsNames: seven constant
 * strings, and the enumeration documented in the comment that precedes them.
 */
module RegisteredClaimNames {
  import opened Wrappers

  const Issuer: string := "iss"
  const Subject: string := "sub"
  const Audience: string := "aud"
  const ExpirationTime: string := "exp"
  const NotBefore: string := "nbf"
  const IssuedAt: string := "iat"
  const TokenIdentifier: string := "jti"

  /** The seven constants in declaration order. */
  const All: seq<string> := [Issuer, Subject, Audience, ExpirationTime, NotBefore, IssuedAt, TokenIdentifier]

  /** The documented enumeration; each member carries its description string. */
  datatype RegisteredClaim =
    | IssuerClaim | SubjectClaim | AudienceClaim | ExpirationTimeClaim
    | NotBeforeClaim | IssuedAtClaim | TokenIdentifierClaim
  {
    /** The description attached to the member in the documentation comment. */
    function Description(): string {
      match this
      case IssuerClaim => "iss"
      case SubjectClaim => "sub"
      case AudienceClaim => "aud"
      case ExpirationTimeClaim => "exp"
      case NotBeforeClaim => "nbf"
      case IssuedAtClaim => "iat"
      case TokenIdentifierClaim => "jti"
    }

    /** The constant of the same name. */
    function Constant(): (s: string)
      ensures s in All
    {
      match this
      case IssuerClaim => Issuer
      case SubjectClaim => Subject
      case AudienceClaim => Audience
      case ExpirationTimeClaim => ExpirationTime
      case NotBeforeClaim => NotBefore
      case IssuedAtClaim => IssuedAt
      case TokenIdentifierClaim => TokenIdentifier
    }
  }

  /** Which registered claim, if any, a claim name denotes: a lookup in the constant table. */
  function FromName(name: string): (r: Option<RegisteredClaim>)
    ensures r.Some? <==> name in All
    ensures r.Some? ==> r.value.Constant() == name
  {
    if name == Issuer then Some(IssuerClaim)
    else if name == Subject then Some(SubjectClaim)
    else if name == Audience then Some(AudienceClaim)
    else if name == ExpirationTime then Some(ExpirationTimeClaim)
    else if name == NotBefore then Some(NotBeforeClaim)
    else if name == IssuedAt then Some(IssuedAtClaim)
    else if name == TokenIdentifier then Some(TokenIdentifierClaim)
    else None
  }

  /** Every constant is three characters long and the seven are pairwise distinct. */
  lemma NamesPairwiseDistinct()
    ensures |All| == 7
    ensures forall i :: 0 <= i < |All| ==> |All[i]| == 3
    ensures forall i, j :: 0 <= i < j < |All| ==> All[i] != All[j]
  {
  }

  /** Distinct members have distinct constants, so at most one `case` of a switch matches a name. */
  lemma ConstantInjective(a: RegisteredClaim, b: RegisteredClaim)
    ensures a.Constant() == b.Constant() <==> a == b
  {
  }

  /** Looking a member's constant up again yields that member. */
  lemma FromNameOfConstant(c: RegisteredClaim)
    ensures FromName(c.Constant()) == Some(c)
  {
  }

  /** The constants agree with the documented descriptions. */
  lemma ConstantsMatchDocumentation(c: RegisteredClaim)
    ensures c.Constant() == c.Description()
  {
  }
}
