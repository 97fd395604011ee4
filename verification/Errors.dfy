/** Results and the error values of the repository: a tree of wrapped sentinels.
    Messages are dropped; only what `errors.Is` can observe is kept. */
module Errors {

  datatype Option<+T> = None | Some(value: T) {
    function GetOr(default: T): T {
      match this case None => default case Some(v) => v
    }
  }

  datatype Result<+T> = Ok(value: T) | Err(error: Error)

  datatype Sentinel =
    // internaljwt
    | ErrUnknownKeyID | ErrMissingKeyID | ErrMissingKey | ErrUnsupportedCurve
    | ErrEncodeKey | ErrUnsupportedKeyType | ErrUnsupportedAlgorithm
    | ErrUnsupportedKeyUse | ErrDecodeCoordinate | ErrUnexpectedKeyLength | ErrInvalidPublicKey
    | ErrUnsupportedTokenUse | ErrMissingTenantPublicID | ErrMissingEventPublicID
    | ErrForbiddenEventPublicID | ErrRegistrationBinding | ErrServiceEventWithoutTenant
    // jwks
    | ErrFailureCooldown | ErrFetch | ErrUnexpectedStatus | ErrDocumentTooLarge
    | ErrDecodeDocument | ErrInvalidKey | ErrDuplicateKeyID
    // issuer
    | ErrMissingAudience | ErrMissingSubject | ErrMissingClientID | ErrMissingScope
    | ErrMissingSourceJTI | ErrMissingSourceExpiry | ErrSourceExpired | ErrExternalService
    | ErrMissingCallerService | ErrContextMissingExpiry | ErrContextExpired
    | ErrContextAudienceMismatch | ErrContextMissingTxn | ErrContextMissingJTI
    | ErrContextMissingSubject | ErrContextMissingScope | ErrContextMissingSourceJTI
    | ErrContextNotUserOrigin | ErrMachineContextNotService
    | ErrMachineContextCarriesOrigin | ErrMachineContextCarriesBinding
    | ErrKeyProvider | ErrMissingSigningKeyID | ErrMissingSigningKey
    | ErrDescribeKey | ErrSign | ErrMissingPublishedKeyID | ErrMissingKeyFilePath
    // verifier
    | ErrAudienceCount | ErrMissingToken | ErrInvalidToken | ErrUnexpectedTokenType
    | ErrMissingTokenKeyID | ErrKeyResolution | ErrMissingClaim | ErrForbiddenClaim
    | ErrClientIDMismatch | ErrMissingAuthorization | ErrMalformedAuthorization
    // golang-jwt
    | ErrTokenMalformed | ErrTokenUnverifiable | ErrTokenSignatureInvalid
    | ErrTokenRequiredClaimMissing | ErrTokenInvalidAudience | ErrTokenExpired
    | ErrTokenUsedBeforeIssued | ErrTokenInvalidIssuer | ErrTokenNotValidYet
    | ErrTokenInvalidClaims
    // interceptor
    | ErrUnauthenticated | ErrUnavailable | ErrTokenUse | ErrRequiredScope
    | ErrUnknownLevel | ErrUnknownProcedure

  /** `Foreign` is an error of a library that wraps none of the sentinels.
      `Joined` holds two errors wrapped by one; longer wraps nest. */
  datatype Error =
    | Plain(sentinel: Sentinel)
    | Foreign(id: int)
    | Joined(left: Error, right: Error)

  /** `errors.Is`: the sentinel occurs somewhere in the tree. */
  predicate Is(e: Error, s: Sentinel)
  {
    match e
    case Plain(p) => p == s
    case Foreign(_) => false
    case Joined(l, r) => Is(l, s) || Is(r, s)
  }

  /** `fmt.Errorf("%w: %w", sentinel, cause)`. */
  function Wrapping(s: Sentinel, cause: Error): Error {
    Joined(Plain(s), cause)
  }
}
