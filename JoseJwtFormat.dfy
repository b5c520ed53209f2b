/**
 * A read-only JWT "format" for a relying party: it never issues tokens; to read
 * one it optionally unwraps a JWE envelope with an RSA private key, builds one
 * symmetric-key issuer provider per allowed server and hands the token, the
 * allowed clients and the providers to the JWT validation library.
 *
 * The three library calls it makes (JWE decryption, base64url decoding, JWT
 * validation) are not modelled: they are passed in as a `Libraries` value, and
 * every property below holds whatever those functions are.
 */
module JoseJwtFormat {
  import opened Wrappers
  import opened JwtAuthenticationSettings

  newtype byte = x: int | 0 <= x < 256

  /** An RSA private key; its parameters are opaque to this component. */
  datatype RsaPrivateKey = RsaPrivateKey(parameters: seq<byte>)

  /** The exceptions this component raises, and those its libraries raise through it. */
  datatype Error =
    | ArgumentNull(paramName: string)
    | NotSupported
      /** Whatever the JWE decryption or JWT validation library throws. */
    | LibraryException(description: string)

  /** A symmetric-key issuer provider: the issuer name and the decoded shared secret. */
  datatype SymmetricKeyIssuerSecurityTokenProvider =
    SymmetricKeyIssuerSecurityTokenProvider(issuer: string, key: seq<byte>)

  /**
   * The library functions the component calls:
   * JWE decryption with an RSA key (section 5.2 of RFC 7516), base64url decoding
   * (section 5 of RFC 4648), and JWT validation producing a ticket, given the
   * allowed audiences and the issuer providers.
   */
  datatype Libraries<Ticket> = Libraries(
    jweDecode: (string, RsaPrivateKey) -> Result<string, Error>,
    base64UrlDecode: string -> seq<byte>,
    jwtFormatUnprotect: (seq<string>, seq<SymmetricKeyIssuerSecurityTokenProvider>, string) -> Result<Ticket, Error>)

  /** The component's two readonly fields, fixed at construction. */
  datatype JoseJwtFormat = JoseJwtFormat(settings: Settings, privateKey: Option<RsaPrivateKey>)

  /** The constructor: null settings are an argument error; an absent private key is allowed. */
  function New(settings: Option<Settings>, privateKey: Option<RsaPrivateKey>): (r: Result<JoseJwtFormat, Error>)
    ensures r.Failure? <==> settings.None?
    ensures r.Failure? ==> r.error == ArgumentNull("settings")
    ensures r.Success? ==> r.value.settings == settings.value && r.value.privateKey == privateKey
  {
    if settings.None? then Failure(ArgumentNull("settings"))
    else Success(JoseJwtFormat(settings.value, privateKey))
  }

  /** Token issuance is not supported: every call fails, whatever the ticket. */
  function Protect<Ticket>(format: JoseJwtFormat, data: Ticket): (r: Result<string, Error>)
    ensures r.Failure? && r.error == NotSupported
  {
    Failure(NotSupported)
  }

  /** `char.IsWhiteSpace`: the Unicode space, line and paragraph separators, and U+0009..U+000D and U+0085. */
  predicate IsWhiteSpace(c: char)
  {
    || '\U{9}' <= c <= '\U{D}'
    || c == '\U{20}' || c == '\U{85}' || c == '\U{A0}' || c == '\U{1680}'
    || '\U{2000}' <= c <= '\U{200A}'
    || c == '\U{2028}' || c == '\U{2029}' || c == '\U{202F}' || c == '\U{205F}' || c == '\U{3000}'
  }

  /** `string.IsNullOrWhiteSpace`: null, empty, or whitespace only. */
  predicate IsNullOrWhiteSpace(text: Option<string>): (r: bool)
    ensures text.None? ==> r
    ensures text == Some("") ==> r
    ensures text.Some? ==> (r <==> forall c :: c in text.value ==> IsWhiteSpace(c))
  {
    text.None? || forall i :: 0 <= i < |text.value| ==> IsWhiteSpace(text.value[i])
  }

  /** Blankness: null and empty text are blank, and text with any visible character is not. */
  lemma BlankText(text: string, i: nat)
    requires i < |text| && !IsWhiteSpace(text[i])
    ensures IsNullOrWhiteSpace(None) && IsNullOrWhiteSpace(Some(""))
    ensures !IsNullOrWhiteSpace(Some(text))
  {
  }

  /** The `Select` over the allowed servers: one provider per server, decoding its secret. */
  function IssuerProviders(servers: seq<JwtAuthenticationServer>, base64UrlDecode: string -> seq<byte>)
    : (r: seq<SymmetricKeyIssuerSecurityTokenProvider>)
    ensures |r| == |servers|
    ensures forall i :: 0 <= i < |servers| ==>
      r[i].issuer == servers[i].issuer && r[i].key == base64UrlDecode(servers[i].secret)
  {
    if servers == [] then []
    else
      [SymmetricKeyIssuerSecurityTokenProvider(servers[0].issuer, base64UrlDecode(servers[0].secret))]
      + IssuerProviders(servers[1..], base64UrlDecode)
  }

  /** The projection is order-preserving: it maps a concatenation of server lists to the concatenation of their providers. */
  lemma IssuerProvidersAppend(
    s1: seq<JwtAuthenticationServer>, s2: seq<JwtAuthenticationServer>, base64UrlDecode: string -> seq<byte>)
    ensures IssuerProviders(s1 + s2, base64UrlDecode)
         == IssuerProviders(s1, base64UrlDecode) + IssuerProviders(s2, base64UrlDecode)
  {
  }

  /** The token handed to the validator: JWE-decoded when a private key is present, the text itself otherwise. */
  function InnerToken<Ticket>(format: JoseJwtFormat, libs: Libraries<Ticket>, protectedText: string)
    : (r: Result<string, Error>)
    ensures format.privateKey.None? ==> r == Success(protectedText)
    ensures format.privateKey.Some? ==> r == libs.jweDecode(protectedText, format.privateKey.value)
  {
    match format.privateKey
    case Some(key) => libs.jweDecode(protectedText, key)
    case None => Success(protectedText)
  }

  /**
   * Validates `protectedText` and returns the validator's ticket: blank text is an
   * argument error; otherwise the token (unwrapped if a key is present) goes to the
   * validator with the allowed clients unchanged and one provider per allowed
   * server, and the validator's result is returned as it is.
   */
  function Unprotect<Ticket>(format: JoseJwtFormat, libs: Libraries<Ticket>, protectedText: Option<string>)
    : (r: Result<Ticket, Error>)
    ensures IsNullOrWhiteSpace(protectedText) ==> r == Failure(ArgumentNull("protectedText"))
    ensures !IsNullOrWhiteSpace(protectedText) && format.privateKey.None? ==>
      r == libs.jwtFormatUnprotect(
             format.settings.allowedClients,
             IssuerProviders(format.settings.allowedServers, libs.base64UrlDecode),
             protectedText.value)
    ensures !IsNullOrWhiteSpace(protectedText) && format.privateKey.Some? ==>
      match libs.jweDecode(protectedText.value, format.privateKey.value)
      case Failure(e) => r == Failure(e)
      case Success(jwt) =>
        r == libs.jwtFormatUnprotect(
               format.settings.allowedClients,
               IssuerProviders(format.settings.allowedServers, libs.base64UrlDecode),
               jwt)
  {
    if IsNullOrWhiteSpace(protectedText) then Failure(ArgumentNull("protectedText"))
    else
      match InnerToken(format, libs, protectedText.value)
      case Failure(e) => Failure(e)
      case Success(jwt) =>
        var providers := IssuerProviders(format.settings.allowedServers, libs.base64UrlDecode);
        libs.jwtFormatUnprotect(format.settings.allowedClients, providers, jwt)
  }

  /** Blank text is rejected before any library is reached: the libraries cannot change the outcome. */
  lemma BlankTextReachesNoLibrary<Ticket>(
    format: JoseJwtFormat, libs1: Libraries<Ticket>, libs2: Libraries<Ticket>, protectedText: Option<string>)
    requires IsNullOrWhiteSpace(protectedText)
    ensures Unprotect(format, libs1, protectedText) == Unprotect(format, libs2, protectedText)
    ensures Unprotect(format, libs1, protectedText).Failure?
  {
  }

  /** Without a private key the text passes through unchanged: JWE decryption is never consulted. */
  lemma NoKeyIgnoresJweDecode<Ticket>(
    format: JoseJwtFormat, libs: Libraries<Ticket>, protectedText: Option<string>,
    otherJweDecode: (string, RsaPrivateKey) -> Result<string, Error>)
    requires format.privateKey.None?
    ensures Unprotect(format, libs, protectedText)
         == Unprotect(format, libs.(jweDecode := otherJweDecode), protectedText)
  {
  }

  /**
   * Every ticket `Unprotect` returns is one the validator produced, for the allowed
   * clients and the providers of the allowed servers; the component never makes one up.
   */
  lemma TicketComesFromValidator<Ticket>(format: JoseJwtFormat, libs: Libraries<Ticket>, protectedText: Option<string>)
    requires Unprotect(format, libs, protectedText).Success?
    ensures !IsNullOrWhiteSpace(protectedText)
    ensures InnerToken(format, libs, protectedText.value).Success?
    ensures Unprotect(format, libs, protectedText)
         == libs.jwtFormatUnprotect(
              format.settings.allowedClients,
              IssuerProviders(format.settings.allowedServers, libs.base64UrlDecode),
              InnerToken(format, libs, protectedText.value).value)
  {
  }

  /** The constructed component reads exactly the settings and key it was given. */
  lemma ConstructedFormatKeepsFields<Ticket>(
    settings: Settings, privateKey: Option<RsaPrivateKey>, libs: Libraries<Ticket>, protectedText: Option<string>)
    ensures New(Some(settings), privateKey).Success?
    ensures Unprotect(New(Some(settings), privateKey).value, libs, protectedText)
         == Unprotect(JoseJwtFormat(settings, privateKey), libs, protectedText)
  {
  }
}
