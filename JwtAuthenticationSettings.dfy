/**
 * The configuration a JWT relying party reads: whom to accept tokens for, which
 * issuers to trust with which shared secret, and where an envelope key comes from.
 */
module JwtAuthenticationSettings {
  import opened Wrappers

  /** An allowed token issuer and its shared secret, base64url-encoded. */
  datatype JwtAuthenticationServer = JwtAuthenticationServer(issuer: string, secret: string)

  /** A certificate loaded from a file path relative to the application; its fields are not modelled. */
  datatype RelativeFileCertificate = RelativeFileCertificate(locator: string)

  /** A certificate looked up in a platform certificate store; its fields are not modelled. */
  datatype StoreCertificate = StoreCertificate(locator: string)

  /** Where a bearer token may be read from in a request; the enumeration's values are not modelled. */
  datatype AuthorizationSource = AuthorizationSource(name: string)

  /** The settings record; the collections are lists, so their order is kept. */
  datatype Settings = Settings(
    allowedClients: seq<string>,
    allowedServers: seq<JwtAuthenticationServer>,
    relativeFileCertificate: Option<RelativeFileCertificate>,
    storeCertificate: Option<StoreCertificate>,
    authorizationKey: Option<string>,
    authorizationPriority: seq<AuthorizationSource>)

  /** A freshly constructed settings object: every collection empty, every optional part absent. */
  function DefaultSettings(): (s: Settings)
    ensures s.allowedClients == [] && s.allowedServers == [] && s.authorizationPriority == []
    ensures s.relativeFileCertificate.None? && s.storeCertificate.None? && s.authorizationKey.None?
  {
    Settings([], [], None, None, None, [])
  }
}
