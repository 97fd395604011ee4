/** Every refusal names its cause: an error returned is one whose condition the input meets. */
module Refusals {
  import opened Errors
  import opened InternalJwt
  import opened Jwk
  import opened Text
  import opened Wire
  import opened Issuer
  import opened Verifier
  import KeyCache
  import KeyDocument
  import Signer
  import F = FileKeys
  import Base64Url

  /** A binding the token use does not allow, and how. */
  predicate BindingCause(s: Sentinel, tokenUse: string, tenant: string, event: string) {
    || (s == ErrMissingTenantPublicID && ((tokenUse == TENANT_ACCESS || tokenUse == EVENT_ACCESS) && tenant == ""))
    || (s == ErrForbiddenEventPublicID && tokenUse == TENANT_ACCESS && event != "")
    || (s == ErrMissingEventPublicID && tokenUse == EVENT_ACCESS && event == "")
    || (s == ErrRegistrationBinding && (tokenUse == REGISTRATION && (tenant != "" || event != "")))
    || (s == ErrServiceEventWithoutTenant && tokenUse == SERVICE && event != "" && tenant == "")
    || (s == ErrUnsupportedTokenUse && !External(tokenUse) && tokenUse != SERVICE)
  }

  /** Why a conversion may be refused. */
  predicate ConversionCause(s: Sentinel, input: ExternalTokenInput, now: Time) {
    || (s == ErrMissingAudience && input.audience == "")
    || (s == ErrMissingSubject && input.subject == "")
    || (s == ErrMissingClientID && input.clientID == "")
    || (s == ErrMissingScope && input.scope == "")
    || (s == ErrMissingSourceJTI && input.sourceJTI == "")
    || (s == ErrMissingSourceExpiry && input.sourceExpiresAt == 0)
    || (s == ErrSourceExpired && input.sourceExpiresAt <= now)
    || (s == ErrExternalService && input.tokenUse == SERVICE)
    || BindingCause(s, input.tokenUse, input.tenantPublicID, input.eventPublicID)
  }

  lemma ConversionRefusal(i: Issuer, input: ExternalTokenInput, now: Time, txn: string, jti: string)
    ensures var c := ExternalTokenClaims(i, input, now, txn, jti);
            c.Err? ==> c.error.Plain? && ConversionCause(c.error.sentinel, input, now)
  {}

  predicate ContextCause(s: Sentinel, audience: string, callerService: string, c: Claims, now: Time) {
    || (s == ErrContextMissingExpiry && c.expiresAt == None)
    || (s == ErrContextExpired && c.expiresAt.Some? && c.expiresAt.value <= now)
    || (s == ErrContextAudienceMismatch && callerService !in c.audience)
    || (s == ErrContextMissingTxn && c.txn == "")
  }

  /** Why a re-issue for a user may be. */
  predicate UserCause(s: Sentinel, input: UserOriginServiceInput, now: Time) {
    var c := input.context;
    || (s == ErrMissingAudience && input.audience == "")
    || (s == ErrMissingCallerService && input.callerService == "")
    || (s == ErrContextNotUserOrigin && c.tokenUse == SERVICE && c.originSub == "")
    || (s == ErrContextMissingScope && c.scope == "")
    || (s == ErrContextMissingSourceJTI && c.sourceJTI == "")
    || (s == ErrContextMissingJTI && c.id == "")
    || (s == ErrContextMissingSubject && c.subject == "")
    || ContextCause(s, input.audience, input.callerService, c, now)
    || BindingCause(s, c.tokenUse, c.tenantPublicID, c.eventPublicID)
  }

  lemma UserRefusal(i: Issuer, input: UserOriginServiceInput, now: Time, jti: string)
    ensures var c := UserOriginServiceClaims(i, input, now, jti);
            c.Err? ==> c.error.Plain? && UserCause(c.error.sentinel, input, now)
  {}

  /** Why an issue for a machine may be. */
  predicate MachineCause(s: Sentinel, input: MachineOriginServiceInput, now: Time) {
    || (s == ErrMissingAudience && input.audience == "")
    || (s == ErrMissingCallerService && input.callerService == "")
    || (s == ErrMachineContextNotService && input.context.Some? && input.context.value.tokenUse != SERVICE)
    || (s == ErrMachineContextCarriesOrigin
        && input.context.Some?
        && var c := input.context.value; c.scope != "" || c.sourceJTI != "" || c.originSub != "")
    || (s == ErrMachineContextCarriesBinding
        && input.context.Some?
        && var c := input.context.value; c.tenantPublicID != "" || c.eventPublicID != "")
    || (input.context.Some? && ContextCause(s, input.audience, input.callerService, input.context.value, now))
  }

  lemma MachineRefusal(i: Issuer, input: MachineOriginServiceInput, now: Time, freshTxn: string, jti: string)
    ensures var c := MachineOriginServiceClaims(i, input, now, freshTxn, jti);
            c.Err? ==> c.error.Plain? && MachineCause(c.error.sentinel, input, now)
  {}

  /** Why signing derived claims may fail. */
  lemma SigningRefusal(keys: Result<Signer.KeySet>, payload: Payload)
    ensures var token := Signer.Sign(keys, payload);
            token.Err? ==>
              || (keys.Err? && token.error == Wrapping(ErrKeyProvider, keys.error))
              || (keys.Ok? && keys.value.signing.keyID == "" && token.error == Plain(ErrMissingSigningKeyID))
              || (keys.Ok? && keys.value.signing.key == None && token.error == Plain(ErrMissingSigningKey))
              || (&& keys.Ok? && keys.value.signing.key.Some? && token.error == Plain(ErrSign)
                  && Signer.Bits(keys.value.signing.key.value.public.curve) != 256)
  {}

  // ---- Verification -------------------------------------------------------------------------------

  predicate Reported(e: Option<Error>, s: Sentinel) {
    e.Some? && Is(e.value, s)
  }

  predicate Reports(e: Option<Error>, s: Sentinel, cause: bool) {
    Reported(e, s) <==> cause
  }

  lemma JoinReports(a: Option<Error>, b: Option<Error>, s: Sentinel)
    ensures Reported(Join(a, b), s) <==> Reported(a, s) || Reported(b, s)
  {}

  lemma TimesReport(v: Verifier, c: Claims, now: Time, s: Sentinel)
    ensures Reported(ValidateTimes(v, c, now), s) <==>
            || Reported(CheckExpiry(v, c, now), s) || Reported(CheckNotBefore(v, c, now), s)
            || Reported(CheckIssuedAt(v, c, now), s) || Reported(CheckIssuer(v, c), s)
  {
    var iat, iss := CheckIssuedAt(v, c, now), CheckIssuer(v, c);
    JoinReports(iat, iss, s);
    JoinReports(CheckNotBefore(v, c, now), Join(iat, iss), s);
    JoinReports(CheckExpiry(v, c, now), Join(CheckNotBefore(v, c, now), Join(iat, iss)), s);
  }

  /** The validator reports a token that has ended, or not begun, exactly when it has. */
  lemma DatesRefusal(v: Verifier, c: Claims, now: Time)
    ensures var e := ValidateTimes(v, c, now);
            && Reports(e, ErrTokenExpired, c.expiresAt.Some? && c.expiresAt.value + v.leeway <= now)
            && Reports(e, ErrTokenNotValidYet, c.notBefore.Some? && now < c.notBefore.value - v.leeway)
  {
    TimesReport(v, c, now, ErrTokenExpired);
    TimesReport(v, c, now, ErrTokenNotValidYet);
  }

  lemma IssuedLaterRefusal(v: Verifier, c: Claims, now: Time)
    ensures Reports(ValidateTimes(v, c, now), ErrTokenUsedBeforeIssued,
                    c.issuedAt.Some? && now < c.issuedAt.value - v.leeway)
  {
    TimesReport(v, c, now, ErrTokenUsedBeforeIssued);
  }

  /** And another issuer, or a missing one or `exp`. */
  lemma IssuerRefusal(v: Verifier, c: Claims, now: Time)
    ensures var e := ValidateTimes(v, c, now);
            && Reports(e, ErrTokenInvalidIssuer, c.issuer != "" && c.issuer != v.issuerID)
            && Reports(e, ErrTokenRequiredClaimMissing, c.expiresAt == None || c.issuer == "")
  {
    TimesReport(v, c, now, ErrTokenInvalidIssuer);
    TimesReport(v, c, now, ErrTokenRequiredClaimMissing);
  }

  /** Why the claims of a parsed token may be refused. */
  predicate ClaimsCause(s: Sentinel, c: Claims) {
    || (s == ErrMissingClaim &&
        (c.subject == "" || c.id == "" || c.notBefore == None || c.issuedAt == None
         || c.tokenUse == "" || c.clientID == "" || c.txn == ""
         || ((External(c.tokenUse) || c.originSub != "") && (c.scope == "" || c.sourceJTI == ""))
         || (External(c.tokenUse) && c.sourceExpiresAt == None)))
    || (s == ErrForbiddenClaim &&
        ((External(c.tokenUse) && c.originSub != "")
         || (&& c.tokenUse == SERVICE && c.originSub == ""
             && (c.scope != "" || c.sourceJTI != "" || c.tenantPublicID != ""))))
    || (s == ErrAudienceCount && |c.audience| != 1)
    || (s == ErrClientIDMismatch && c.tokenUse == SERVICE && c.clientID != c.subject)
    || BindingCause(s, c.tokenUse, c.tenantPublicID, c.eventPublicID)
  }

  predicate ClaimsCaused(e: Option<Error>, c: Claims) {
    e.Some? ==> e.value.Plain? && ClaimsCause(e.value.sentinel, c)
  }

  lemma OriginRefusal(c: Claims)
    ensures ClaimsCaused(ValidateOriginClaims(c), c)
  {}

  lemma CommonRefusal(c: Claims)
    ensures ClaimsCaused(ValidateRegisteredClaims(c), c) && ClaimsCaused(ValidateCommonClaims(c), c)
  {}

  lemma BindingRefusal(c: Claims)
    ensures ClaimsCaused(ValidateBinding(c.tokenUse, c.tenantPublicID, c.eventPublicID), c)
  {}

  /** A token for another audience is invalid; any other fault of the claims is named. */
  lemma ClaimsRefusal(c: Claims, audience: string)
    ensures audience in c.audience ==> ClaimsCaused(ValidateClaims(c, audience), c)
    ensures audience !in c.audience ==> Reported(ValidateClaims(c, audience), ErrInvalidToken)
  {
    OriginRefusal(c);
    CommonRefusal(c);
    BindingRefusal(c);
    var mismatch := MatchAudience(c.audience, audience);
    if mismatch.Some? {
      assert ValidateClaims(c, audience)
          == Some(Wrapping(ErrInvalidToken, Wrapping(ErrTokenInvalidClaims, mismatch.value)));
    }
  }

  /** What is presented instead of a token. */
  lemma NoTokenRefusal(v: Verifier, presented: Presented, audience: string, resolve: Resolver, now: Time)
    ensures var r := Verify(v, presented, audience, resolve, now);
            && (presented.Empty? ==> r == Err(Plain(ErrMissingToken)))
            && (presented.Garbled? || (presented.Parsed? && !Decodable(presented.token.payload)) ==>
                  r == Err(Wrapping(ErrInvalidToken, Plain(ErrTokenMalformed))))
  {}

  /** The algorithms of the library: four families in three sizes, and two by themselves. */
  predicate InLibrary(alg: string) {
    || alg == "none" || alg == "EdDSA"
    || (|alg| == 5 && alg[0] in {'H', 'R', 'P', 'E'} && alg[1] == 'S' && OfSize(alg[2], alg[3], alg[4]))
  }

  predicate OfSize(a: char, b: char, c: char) {
    (a == '2' && b == '5' && c == '6') || (a == '3' && b == '8' && c == '4') || (a == '5' && b == '1' && c == '2')
  }

  lemma InLibraryIff(alg: string)
    ensures alg in KNOWN_METHODS <==> InLibrary(alg)
  {
    if |alg| == 5 { assert alg == [alg[0], alg[1], alg[2], alg[3], alg[4]]; }
  }

  /** Any algorithm but ES256 is refused: one the library has, as a signature of the wrong kind; one
      it has not, as unverifiable. */
  lemma AlgorithmRefusal(v: Verifier, token: Token, audience: string, resolve: Resolver, now: Time)
    requires Decodable(token.payload) && token.header.alg != "ES256"
    ensures var s := if InLibrary(token.header.alg) then ErrTokenSignatureInvalid else ErrTokenUnverifiable;
            Verify(v, Parsed(token), audience, resolve, now) == Err(Wrapping(ErrInvalidToken, Plain(s)))
  {
    InLibraryIff(token.header.alg);
    assert Parse(v, token, resolve, now).Err?;
  }

  /** A failed resolution is not the token's fault: it is never reported as an invalid token. A kid the
      resolver knows not to exist is. */
  lemma LookupRefusal(v: Verifier, token: Token, audience: string, resolve: Resolver, now: Time, e: Error)
    requires ReachesLookup(Parsed(token)) && EqualFold(token.header.typ.GetOr(""), "JWT")
    requires token.header.kid.GetOr("") != "" && resolve(token.header.kid.value) == Err(e)
    requires !Is(e, ErrKeyResolution) && !Is(e, ErrInvalidToken)
    ensures var r := Verify(v, Parsed(token), audience, resolve, now);
            && r.Err? && (Is(r.error, ErrInvalidToken) <==> Is(e, ErrUnknownKeyID))
            && (Is(r.error, ErrKeyResolution) <==> !Is(e, ErrUnknownKeyID))
            && (Is(e, ErrUnknownKeyID) ==> Is(r.error, ErrUnknownKeyID))
  {
    var error := if Is(e, ErrUnknownKeyID) then e else Wrapping(ErrKeyResolution, e);
    assert KeyFor(token.header, resolve) == Err(error);
    KeyErrorSurfaces(v, token, audience, resolve, now, error);
    WrappedTwice(error);
  }

  lemma KeyErrorSurfaces(v: Verifier, token: Token, audience: string, resolve: Resolver, now: Time, e: Error)
    requires ReachesLookup(Parsed(token)) && KeyFor(token.header, resolve) == Err(e)
    ensures Verify(v, Parsed(token), audience, resolve, now) ==
            if Is(e, ErrKeyResolution) then Err(Wrapping(ErrTokenUnverifiable, e))
            else Err(Wrapping(ErrInvalidToken, Wrapping(ErrTokenUnverifiable, e)))
  {
    assert ALGORITHM in KNOWN_METHODS;
    assert Parse(v, token, resolve, now) == Err(Wrapping(ErrTokenUnverifiable, e));
    assert Is(Wrapping(ErrTokenUnverifiable, e), ErrKeyResolution) == Is(e, ErrKeyResolution);
  }

  lemma WrappedTwice(e: Error)
    ensures var once := Wrapping(ErrTokenUnverifiable, e);
            && (Is(once, ErrInvalidToken) <==> Is(e, ErrInvalidToken))
            && (Is(once, ErrKeyResolution) <==> Is(e, ErrKeyResolution))
            && (Is(once, ErrUnknownKeyID) <==> Is(e, ErrUnknownKeyID))
            && Is(Wrapping(ErrInvalidToken, once), ErrInvalidToken)
            && (Is(Wrapping(ErrInvalidToken, once), ErrKeyResolution) <==> Is(e, ErrKeyResolution))
            && (Is(Wrapping(ErrInvalidToken, once), ErrUnknownKeyID) <==> Is(e, ErrUnknownKeyID))
  {}

  /** Faults of dates and issuer are an invalid token's, and each is found in the error. */
  lemma ValidatorRefusal(v: Verifier, token: Token, audience: string, resolve: Resolver, now: Time,
                         key: PublicKey, s: Sentinel)
    requires ReachesLookup(Parsed(token)) && LeadsTo(token.header, resolve, key) && SignatureValid(key, token)
    requires Reported(ValidateTimes(v, Decode(token.payload), now), s)
    ensures var r := Verify(v, Parsed(token), audience, resolve, now);
            r.Err? && Is(r.error, ErrInvalidToken) && Is(r.error, ErrTokenInvalidClaims) && Is(r.error, s)
  {
    assert ALGORITHM in KNOWN_METHODS;
    KeyForIff(token.header, resolve, key);
    var e := ValidateTimes(v, Decode(token.payload), now).value;
    assert Parse(v, token, resolve, now) == Err(Wrapping(ErrTokenInvalidClaims, e));
    TimesNeverReportResolution(v, Decode(token.payload), now);
    assert !Is(Wrapping(ErrTokenInvalidClaims, e), ErrKeyResolution);
  }

  /** A signature that does not check under the key the header leads to. */
  lemma SignatureRefusal(v: Verifier, token: Token, audience: string, resolve: Resolver, now: Time, key: PublicKey)
    requires ReachesLookup(Parsed(token)) && LeadsTo(token.header, resolve, key) && !SignatureValid(key, token)
    ensures Verify(v, Parsed(token), audience, resolve, now)
         == Err(Wrapping(ErrInvalidToken, Plain(ErrTokenSignatureInvalid)))
  {
    assert ALGORITHM in KNOWN_METHODS;
    KeyForIff(token.header, resolve, key);
    assert Parse(v, token, resolve, now) == Err(Plain(ErrTokenSignatureInvalid));
  }

  // ---- Keys and documents ---------------------------------------------------------------------------

  predicate Malformed(text: string) {
    Base64Url.Decode(text) == None
  }

  predicate WrongLength(text: string) {
    Base64Url.Decode(text).Some? && |Base64Url.Decode(text).value| != 32
  }

  /** Why a JWK may be refused. */
  predicate JwkCause(s: Sentinel, jwk: JWK) {
    || (s == ErrMissingKeyID && jwk.keyID == "")
    || (s == ErrUnsupportedKeyType && jwk.keyType != "EC")
    || (s == ErrUnsupportedCurve && jwk.curve != "P-256")
    || (s == ErrUnsupportedAlgorithm && jwk.algorithm != "ES256")
    || (s == ErrUnsupportedKeyUse && jwk.use != "sig")
    || (s == ErrDecodeCoordinate && (Malformed(jwk.x) || Malformed(jwk.y)))
    || (s == ErrUnexpectedKeyLength && (WrongLength(jwk.x) || WrongLength(jwk.y)))
    || (s == ErrInvalidPublicKey
        && Base64Url.Decode(jwk.x).Some? && Base64Url.Decode(jwk.y).Some?
        && !OnCurve(Magnitude(Base64Url.Decode(jwk.x).value), Magnitude(Base64Url.Decode(jwk.y).value)))
  }

  lemma JwkRefusal(jwk: JWK)
    ensures ToPublicKey(jwk).Err? ==>
              ToPublicKey(jwk).error.Plain? && JwkCause(ToPublicKey(jwk).error.sentinel, jwk)
  {}

  /** Why a key may not be described. */
  lemma DescribeRefusal(keyID: string, key: Option<PublicKey>)
    ensures var e := NewJWK(keyID, key);
            e.Err? ==>
              || (e.error == Plain(ErrMissingKeyID) && keyID == "")
              || (e.error == Plain(ErrMissingKey) && key == None)
              || (e.error == Plain(ErrUnsupportedCurve) && key.Some? && key.value.curve != P256)
              || (e.error == Plain(ErrEncodeKey) && key.Some? && !OnCurve(key.value.x, key.value.y))
  {}

  /** Why an attempt may fail. */
  predicate AttemptCause(config: KeyCache.Config, response: KeyCache.Response, e: Error) {
    match response
    case NoRequest(cause) => e == Wrapping(ErrFetch, cause)
    case NoResponse(cause) => e == Wrapping(ErrFetch, cause)
    case Responded(status, body) =>
      if status != 200 then e == Plain(ErrUnexpectedStatus)
      else match body
        case ReadFailed(cause) => e == Wrapping(ErrFetch, cause)
        case Complete(size, content) =>
          if size > config.maxDocumentSize then e == Plain(ErrDocumentTooLarge)
          else match content
            case Undecodable(cause) => e == Wrapping(ErrDecodeDocument, cause)
            case Listing(listed) => DocumentCause(listed, e)
  }

  /** A listed key is unreadable, with its own error kept, or a kid is listed twice. */
  predicate DocumentCause(listed: seq<JWK>, e: Error) {
    || (exists i :: 0 <= i < |listed| && ToPublicKey(listed[i]).Err?
                    && e == Wrapping(ErrInvalidKey, ToPublicKey(listed[i]).error))
    || (&& e == Plain(ErrDuplicateKeyID)
        && exists i, j :: 0 <= i < j < |listed| && listed[i].keyID == listed[j].keyID)
  }

  lemma {:induction false} ReadRefusal(all: seq<JWK>, n: nat, keys: KeyDocument.Keys)
    requires n <= |all| && forall k :: k in keys ==> exists i :: 0 <= i < n && all[i].keyID == k
    ensures KeyDocument.ReadOn(all[n..], keys).Err? ==>
              DocumentCause(all, KeyDocument.ReadOn(all[n..], keys).error)
    decreases |all| - n
  {
    if n < |all| {
      assert all[n..][0] == all[n] && all[n..][1..] == all[n + 1..];
      if ToPublicKey(all[n]).Ok? && all[n].keyID !in keys {
        ReadRefusal(all, n + 1, keys[all[n].keyID := ToPublicKey(all[n]).value]);
      }
    }
  }

  lemma AttemptRefusal(config: KeyCache.Config, response: KeyCache.Response)
    ensures KeyCache.Try(config, response).Failed? ==>
              AttemptCause(config, response, KeyCache.Try(config, response).error)
  {
    if response.Responded? && response.body.Complete? && response.body.content.Listing? {
      var listed := response.body.content.keys;
      ReadRefusal(listed, 0, map[]);
      assert listed[0..] == listed;
    }
  }
}
