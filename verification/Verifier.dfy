/** The verifying side: parser settings, key lookup, and the claim rules
    (verifier/verifier.go, verifier/claims.go, verifier/context.go). */
module Verifier {
  import opened Errors
  import opened InternalJwt
  import opened Jwk
  import opened Wire
  import opened Text

  const DEFAULT_LEEWAY: Time := 30 * SECOND

  /** What `New` builds: it refuses an empty issuer ID and a negative leeway. */
  datatype Verifier = Verifier(issuerID: string, leeway: Time) {
    predicate Valid() { issuerID != "" && leeway >= 0 }
  }

  /** One answer of the key resolver per kid; `Ok(None)` is a nil key without an error. */
  type Resolver = string -> Result<Option<PublicKey>>

  /** The algorithms golang-jwt knows; any other makes the token unverifiable. */
  const KNOWN_METHODS: set<string> := {
    "none", "HS256", "HS384", "HS512", "RS256", "RS384", "RS512", "PS256", "PS384", "PS512",
    "ES256", "ES384", "ES512", "EdDSA" }

  /** `keyFunc`. */
  function KeyFor(header: Header, resolve: Resolver): Result<PublicKey> {
    if header.typ.None? || !EqualFold(header.typ.value, "JWT") then Err(Plain(ErrUnexpectedTokenType))
    else if header.kid.None? || header.kid.value == "" then Err(Plain(ErrMissingTokenKeyID))
    else match resolve(header.kid.value)
      case Err(e) => if Is(e, ErrUnknownKeyID) then Err(e) else Err(Wrapping(ErrKeyResolution, e))
      case Ok(None) => Err(Plain(ErrKeyResolution))
      case Ok(Some(key)) => Ok(key)
  }

  /** `joinErrors`, over errors that may be absent. */
  function Join(a: Option<Error>, b: Option<Error>): Option<Error> {
    if a.None? then b else if b.None? then a else Some(Joined(a.value, b.value))
  }

  function CheckExpiry(v: Verifier, c: Claims, now: Time): Option<Error> {
    if c.expiresAt.None? then Some(Plain(ErrTokenRequiredClaimMissing))
    else if now < c.expiresAt.value + v.leeway then None else Some(Plain(ErrTokenExpired))
  }

  function CheckNotBefore(v: Verifier, c: Claims, now: Time): Option<Error> {
    if c.notBefore.Some? && now < c.notBefore.value - v.leeway then Some(Plain(ErrTokenNotValidYet)) else None
  }

  function CheckIssuedAt(v: Verifier, c: Claims, now: Time): Option<Error> {
    if c.issuedAt.Some? && now < c.issuedAt.value - v.leeway then Some(Plain(ErrTokenUsedBeforeIssued)) else None
  }

  function CheckIssuer(v: Verifier, c: Claims): Option<Error> {
    if c.issuer == "" then Some(Plain(ErrTokenRequiredClaimMissing))
    else if c.issuer != v.issuerID then Some(Plain(ErrTokenInvalidIssuer)) else None
  }

  /** The validator of the parser: every failed check is reported. */
  function ValidateTimes(v: Verifier, c: Claims, now: Time): Option<Error> {
    Join(CheckExpiry(v, c, now), Join(CheckNotBefore(v, c, now), Join(CheckIssuedAt(v, c, now), CheckIssuer(v, c))))
  }

  /** `ParseWithClaims`: form, algorithm, key, signature, then the validator. */
  function Parse(v: Verifier, token: Token, resolve: Resolver, now: Time): Result<Claims> {
    if !Decodable(token.payload) then Err(Plain(ErrTokenMalformed))
    else if token.header.alg !in KNOWN_METHODS then Err(Plain(ErrTokenUnverifiable))
    else if token.header.alg != ALGORITHM then Err(Plain(ErrTokenSignatureInvalid))
    else match KeyFor(token.header, resolve)
      case Err(e) => Err(Wrapping(ErrTokenUnverifiable, e))
      case Ok(key) =>
        if !SignatureValid(key, token) then Err(Plain(ErrTokenSignatureInvalid))
        else match ValidateTimes(v, Decode(token.payload), now)
          case Some(e) => Err(Wrapping(ErrTokenInvalidClaims, e))
          case None => Ok(Decode(token.payload))
  }

  function MatchAudience(got: seq<string>, want: string): Option<Error> {
    if got == [] then Some(Plain(ErrTokenRequiredClaimMissing))
    else if want !in got then Some(Plain(ErrTokenInvalidAudience)) else None
  }

  function ValidateRegisteredClaims(c: Claims): Option<Error> {
    if c.subject == "" then Some(Plain(ErrMissingClaim))
    else if c.id == "" then Some(Plain(ErrMissingClaim))
    else if c.notBefore.None? then Some(Plain(ErrMissingClaim))
    else if c.issuedAt.None? then Some(Plain(ErrMissingClaim))
    else if |c.audience| != 1 then Some(Plain(ErrAudienceCount)) else None
  }

  function ValidateCommonClaims(c: Claims): Option<Error> {
    if c.tokenUse == "" then Some(Plain(ErrMissingClaim))
    else if c.clientID == "" then Some(Plain(ErrMissingClaim))
    else if c.txn == "" then Some(Plain(ErrMissingClaim)) else None
  }

  function ValidateExternalOriginClaims(c: Claims): Option<Error> {
    if c.scope == "" then Some(Plain(ErrMissingClaim))
    else if c.sourceJTI == "" then Some(Plain(ErrMissingClaim))
    else if c.sourceExpiresAt.None? then Some(Plain(ErrMissingClaim))
    else if c.originSub != "" then Some(Plain(ErrForbiddenClaim)) else None
  }

  function ValidateMachineOriginClaims(c: Claims): Option<Error> {
    if c.scope != "" then Some(Plain(ErrForbiddenClaim))
    else if c.sourceJTI != "" then Some(Plain(ErrForbiddenClaim))
    else if c.tenantPublicID != "" then Some(Plain(ErrForbiddenClaim)) else None
  }

  function ValidateServiceOriginClaims(c: Claims): Option<Error> {
    if c.originSub == "" then ValidateMachineOriginClaims(c)
    else if c.scope == "" then Some(Plain(ErrMissingClaim))
    else if c.sourceJTI == "" then Some(Plain(ErrMissingClaim)) else None
  }

  function ValidateOriginClaims(c: Claims): Option<Error> {
    if External(c.tokenUse) then ValidateExternalOriginClaims(c)
    else if c.tokenUse == SERVICE then
      match ValidateServiceOriginClaims(c)
      case Some(e) => Some(e)
      case None => if c.clientID != c.subject then Some(Plain(ErrClientIDMismatch)) else None
    else Some(Plain(ErrUnsupportedTokenUse))
  }

  /** The checks `verify` makes on the claims of a parsed token, first failure first. */
  function ValidateClaims(c: Claims, audience: string): Option<Error> {
    match MatchAudience(c.audience, audience)
    case Some(e) => Some(Wrapping(ErrInvalidToken, Wrapping(ErrTokenInvalidClaims, e)))
    case None =>
      match ValidateRegisteredClaims(c)
      case Some(e) => Some(e)
      case None =>
        match ValidateCommonClaims(c)
        case Some(e) => Some(e)
        case None =>
          match ValidateBinding(c.tokenUse, c.tenantPublicID, c.eventPublicID)
          case Some(e) => Some(e)
          case None => ValidateOriginClaims(c)
  }

  /** `Verifier.verify`. `now` is the validator's clock reading, taken after the key lookup. */
  function Verify(v: Verifier, presented: Presented, audience: string, resolve: Resolver, now: Time): Result<Claims> {
    match presented
    case Empty => Err(Plain(ErrMissingToken))
    case Garbled => Err(Wrapping(ErrInvalidToken, Plain(ErrTokenMalformed)))
    case Parsed(token) =>
      match Parse(v, token, resolve, now)
      case Err(e) => if Is(e, ErrKeyResolution) then Err(e) else Err(Wrapping(ErrInvalidToken, e))
      case Ok(c) =>
        match ValidateClaims(c, audience)
        case Some(e) => Err(e)
        case None => Ok(c)
  }

  /** `ContextVerifier.Verify`: the audience is whoever presents the token. */
  function VerifyContext(v: Verifier, presented: Presented, presenter: string, resolve: Resolver, now: Time)
    : Result<Claims>
  {
    if presenter == "" then Err(Plain(ErrMissingAudience))
    else Verify(v, presented, presenter, resolve, now)
  }

  // ---- The accepted claim sets, by the table of origins --------------------------------------

  /** What every internal JWT carries. */
  predicate Common(c: Claims, audience: string) {
    && c.audience == [audience] && c.subject != "" && c.id != ""
    && c.notBefore.Some? && c.issuedAt.Some? && c.clientID != "" && c.txn != ""
  }

  /** A token converted from an external one. */
  predicate EntryToken(c: Claims) {
    && (|| (c.tokenUse == TENANT_ACCESS && c.tenantPublicID != "" && c.eventPublicID == "")
        || (c.tokenUse == EVENT_ACCESS && c.tenantPublicID != "" && c.eventPublicID != "")
        || (c.tokenUse == REGISTRATION && c.tenantPublicID == "" && c.eventPublicID == ""))
    && c.scope != "" && c.sourceJTI != "" && c.sourceExpiresAt.Some? && c.originSub == ""
  }

  /** A service token re-issued for a user's call. */
  predicate UserServiceToken(c: Claims) {
    && c.tokenUse == SERVICE && c.clientID == c.subject
    && c.scope != "" && c.sourceJTI != "" && c.originSub != ""
    && (c.eventPublicID != "" ==> c.tenantPublicID != "")
  }

  /** A service token no user started. */
  predicate MachineServiceToken(c: Claims) {
    && c.tokenUse == SERVICE && c.clientID == c.subject
    && c.scope == "" && c.sourceJTI == "" && c.originSub == ""
    && c.tenantPublicID == "" && c.eventPublicID == ""
  }

  predicate InTime(v: Verifier, c: Claims, now: Time) {
    && c.expiresAt.Some? && now < c.expiresAt.value + v.leeway
    && (c.notBefore.Some? ==> c.notBefore.value - v.leeway <= now)
    && (c.issuedAt.Some? ==> c.issuedAt.value - v.leeway <= now)
  }

  /** The claims that verify are exactly the three kinds of token, addressed to the audience alone. */
  lemma ValidClaimsAreTheThreeKinds(c: Claims, audience: string)
    ensures ValidateClaims(c, audience).None? <==>
            Common(c, audience) && (EntryToken(c) || UserServiceToken(c) || MachineServiceToken(c))
  {
    if |c.audience| == 1 { assert c.audience == [c.audience[0]]; }
  }

  /** The key the header leads to: its type is JWT in any case, and its kid, not empty, is one the
      resolver has a key for. */
  predicate LeadsTo(header: Header, resolve: Resolver, key: PublicKey) {
    && header.typ.Some? && |header.typ.value| == 3
    && SameLetter(header.typ.value[0], 'J', 'j') && SameLetter(header.typ.value[1], 'W', 'w')
    && SameLetter(header.typ.value[2], 'T', 't')
    && header.kid.Some? && header.kid.value != ""
    && resolve(header.kid.value) == Ok(Some(key))
  }

  lemma KeyForIff(header: Header, resolve: Resolver, key: PublicKey)
    ensures KeyFor(header, resolve) == Ok(key) <==> LeadsTo(header, resolve, key)
  {
    if header.typ.Some? { JwtInAnyCase(header.typ.value); }
  }

  /** The lookup fails as a resolution exactly when the resolver is asked and has neither a key nor
      the word that there is no such kid. */
  lemma UnresolvedIff(header: Header, resolve: Resolver)
    ensures var key := KeyFor(header, resolve);
            key.Err? && Is(key.error, ErrKeyResolution) <==>
              && header.typ.Some? && EqualFold(header.typ.value, "JWT")
              && header.kid.Some? && header.kid.value != ""
              && match resolve(header.kid.value)
                 case Err(e) => !Is(e, ErrUnknownKeyID) || Is(e, ErrKeyResolution)
                 case Ok(found) => found.None?
  {}

  /** Acceptance, exactly: ES256 over the presented bytes under the key the kid resolves to, in
      time, from the issuer, and one of the three kinds. */
  lemma AcceptedIff(v: Verifier, presented: Presented, audience: string, resolve: Resolver, now: Time, c: Claims)
    requires v.Valid()
    ensures Verify(v, presented, audience, resolve, now) == Ok(c) <==>
            && presented.Parsed? && Decodable(presented.token.payload) && c == Decode(presented.token.payload)
            && presented.token.header.alg == ALGORITHM
            && (exists key :: LeadsTo(presented.token.header, resolve, key) && SignatureValid(key, presented.token))
            && InTime(v, c, now) && c.issuer == v.issuerID
            && Common(c, audience) && (EntryToken(c) || UserServiceToken(c) || MachineServiceToken(c))
  {
    ValidClaimsAreTheThreeKinds(c, audience);
    assert ALGORITHM in KNOWN_METHODS;
    if presented.Parsed? {
      var key := KeyFor(presented.token.header, resolve);
      if key.Ok? { KeyForIff(presented.token.header, resolve, key.value); }
      forall k | LeadsTo(presented.token.header, resolve, k) ensures key == Ok(k) {
        KeyForIff(presented.token.header, resolve, k);
      }
    }
  }

  /** Whether a service token carries `src_exp` makes no difference, although no issuing function
      sets it there and the claim table forbids it. */
  lemma ServiceTokenMayCarrySourceExpiry(c: Claims, audience: string, at: Option<Time>)
    requires c.tokenUse == SERVICE
    ensures ValidateClaims(c.(sourceExpiresAt := at), audience).None? <==> ValidateClaims(c, audience).None?
  {
    ValidClaimsAreTheThreeKinds(c, audience);
    ValidClaimsAreTheThreeKinds(c.(sourceExpiresAt := at), audience);
  }

  predicate Without(e: Option<Error>, s: Sentinel) {
    e.Some? ==> !Is(e.value, s)
  }

  lemma JoinWithout(a: Option<Error>, b: Option<Error>, s: Sentinel)
    requires Without(a, s) && Without(b, s)
    ensures Without(Join(a, b), s)
  {}

  lemma TimesNeverReportResolution(v: Verifier, c: Claims, now: Time)
    ensures Without(ValidateTimes(v, c, now), ErrKeyResolution)
  {
    var exp, nbf := CheckExpiry(v, c, now), CheckNotBefore(v, c, now);
    var iat, iss := CheckIssuedAt(v, c, now), CheckIssuer(v, c);
    JoinWithout(iat, iss, ErrKeyResolution);
    JoinWithout(nbf, Join(iat, iss), ErrKeyResolution);
    JoinWithout(exp, Join(nbf, Join(iat, iss)), ErrKeyResolution);
  }

  lemma ClaimsNeverReportResolution(c: Claims, audience: string)
    ensures Without(ValidateClaims(c, audience), ErrKeyResolution)
  {
    var m := MatchAudience(c.audience, audience);
    if m.Some? {
      assert !Is(m.value, ErrKeyResolution);
      assert !Is(Wrapping(ErrTokenInvalidClaims, m.value), ErrKeyResolution);
    }
  }

  /** The token reaches the key lookup: it decodes and names the one algorithm. */
  predicate ReachesLookup(presented: Presented) {
    presented.Parsed? && Decodable(presented.token.payload) && presented.token.header.alg == ALGORITHM
  }

  /** A failed resolution is reported exactly when the lookup is reached and fails that way; no
      other check can be taken for one, and none hides one. */
  lemma ResolutionReportedIff(v: Verifier, presented: Presented, audience: string, resolve: Resolver, now: Time)
    ensures var r := Verify(v, presented, audience, resolve, now);
            r.Err? && Is(r.error, ErrKeyResolution) <==>
              && ReachesLookup(presented) && KeyFor(presented.token.header, resolve).Err?
              && Is(KeyFor(presented.token.header, resolve).error, ErrKeyResolution)
  {
    if ReachesLookup(presented) {
      assert ALGORITHM in KNOWN_METHODS;
      ResolutionAfterLookup(v, presented.token, audience, resolve, now);
    } else {
      NoResolutionBeforeLookup(v, presented, audience, resolve, now);
    }
  }

  lemma NoResolutionBeforeLookup(v: Verifier, presented: Presented, audience: string, resolve: Resolver, now: Time)
    requires !ReachesLookup(presented)
    ensures var r := Verify(v, presented, audience, resolve, now); r.Err? && !Is(r.error, ErrKeyResolution)
  {
    if presented.Parsed? {
      var parsed := Parse(v, presented.token, resolve, now);
      assert parsed.Err? && parsed.error.Plain?;
    }
  }

  lemma ResolutionAfterLookup(v: Verifier, token: Token, audience: string, resolve: Resolver, now: Time)
    requires Decodable(token.payload) && token.header.alg == ALGORITHM && token.header.alg in KNOWN_METHODS
    ensures var r := Verify(v, Parsed(token), audience, resolve, now);
            r.Err? && Is(r.error, ErrKeyResolution) <==>
              KeyFor(token.header, resolve).Err? && Is(KeyFor(token.header, resolve).error, ErrKeyResolution)
  {
    ParseResolution(v, token, resolve, now);
    var parsed := Parse(v, token, resolve, now);
    if parsed.Ok? {
      ClaimsNeverReportResolution(parsed.value, audience);
    } else {
      assert Is(Wrapping(ErrInvalidToken, parsed.error), ErrKeyResolution) == Is(parsed.error, ErrKeyResolution);
    }
  }

  lemma ParseResolution(v: Verifier, token: Token, resolve: Resolver, now: Time)
    requires Decodable(token.payload) && token.header.alg == ALGORITHM && token.header.alg in KNOWN_METHODS
    ensures var r := Parse(v, token, resolve, now);
            r.Err? && Is(r.error, ErrKeyResolution) <==>
              KeyFor(token.header, resolve).Err? && Is(KeyFor(token.header, resolve).error, ErrKeyResolution)
  {
    var key := KeyFor(token.header, resolve);
    if key.Err? {
      assert Parse(v, token, resolve, now) == Err(Wrapping(ErrTokenUnverifiable, key.error));
    } else {
      TimesNeverReportResolution(v, Decode(token.payload), now);
    }
  }
}
