/**
 * PasetoValidationParameters (the handler's options) and
 * PasetoValidationParametersPostConfigure, which checks the secret key once
 * the options are bound.
 */
module ValidationParameters {
  import opened Wrappers
  import opened Library

  /**
   * The options. Only `secretKey` is read anywhere; `audience`, `issuer`,
   * `clockSkew`, `validateIssuer` and `validateAudience` are carried but never
   * consulted.
   */
  datatype Options = Options(
    secretKey: Option<string>,
    audience: Option<string>,
    issuer: Option<string>,
    clockSkew: Option<Timestamp>,
    validateIssuer: Option<bool>,
    validateAudience: Option<bool>)

  /** The options as constructed: both validation flags default to true. */
  function DefaultOptions(): (o: Options)
    ensures o.validateIssuer == Some(true) && o.validateAudience == Some(true)
    ensures o.secretKey.None?
  {
    Options(None, None, None, None, Some(true), Some(true))
  }

  const KeyRequiredMessage: string := "Secret key is required."
  const KeyLengthMessage: string := "Secret key must have 32 chars."

  /** The exception PostConfigure throws: an InvalidOperationException with this message. */
  datatype ConfigurationError = InvalidOperation(message: string)

  /**
   * PostConfigure(name, options): throws when the key is null or empty, then
   * when its length is below or above 32. The options are only read; the
   * scheme name is not consulted.
   */
  function PostConfigure(name: string, options: Options): (r: Result<(), ConfigurationError>)
    ensures r.Success? <==> options.secretKey.Some? && |options.secretKey.value| == 32
    ensures r == Failure(InvalidOperation(KeyRequiredMessage)) <==> options.secretKey.None? || options.secretKey.value == ""
    ensures r == Failure(InvalidOperation(KeyLengthMessage)) <==>
      options.secretKey.Some? && options.secretKey.value != "" && |options.secretKey.value| != 32
  {
    var key := options.secretKey;
    if key.None? || key.value == "" then Failure(InvalidOperation(KeyRequiredMessage))
    else if |key.value| < 32 || |key.value| > 32 then Failure(InvalidOperation(KeyLengthMessage))
    else Success(())
  }

  /** The options a handler may run with: those PostConfigure accepts. */
  predicate Configured(options: Options) {
    PostConfigure(Bearer, options).Success?
  }

  /** The verdict depends on the secret key alone, not on the name or any other option. */
  lemma PostConfigureReadsOnlyKey(n1: string, o1: Options, n2: string, o2: Options)
    requires o1.secretKey == o2.secretKey
    ensures PostConfigure(n1, o1) == PostConfigure(n2, o2)
  {
  }

  /** A key of 32 spaces is accepted: length counts characters and white space is not examined. */
  lemma WhiteSpaceKeyAccepted(options: Options)
    requires options.secretKey.Some? && |options.secretKey.value| == 32
    requires forall i :: 0 <= i < 32 ==> options.secretKey.value[i] == ' '
    ensures PostConfigure(Bearer, options).Success?
  {
  }
}
