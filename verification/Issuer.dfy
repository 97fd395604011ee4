/** The three issuing functions: derivation of the claim set, wire form, signature
    (issuer/external.go, issuer/service.go, issuer/claims.go, issuer/issuer.go). */
module Issuer {
  import opened Errors
  import opened InternalJwt
  import opened Wire
  import Signer

  /** What `New` builds: it refuses an empty issuer ID and a TTL that is not positive. */
  datatype Issuer = Issuer(issuerID: string, ttl: Time) {
    predicate Valid() { issuerID != "" && ttl > 0 }
  }

  const DEFAULT_TTL: Time := 120 * SECOND

  datatype ExternalTokenInput = ExternalTokenInput(
    audience: string, tokenUse: string, subject: string, clientID: string, scope: string,
    sourceJTI: string, sourceExpiresAt: Time, tenantPublicID: string, eventPublicID: string)

  datatype UserOriginServiceInput = UserOriginServiceInput(
    audience: string, callerService: string, context: Claims)

  datatype MachineOriginServiceInput = MachineOriginServiceInput(
    audience: string, callerService: string, context: Option<Claims>)

  datatype Issued = Issued(token: Token, claims: Claims)

  /** `registeredClaims`, completed with the other members by each derivation. */
  function Registered(i: Issuer, audience: string, subject: string, now: Time, expiresAt: Time, jti: string): Claims {
    Claims(
      i.issuerID, subject, [audience],
      Some(Truncate(expiresAt)), Some(Truncate(now)), Some(Truncate(now)), jti,
      "", "", "", "", "", None, "", "", "")
  }

  function ValidateExternalToken(input: ExternalTokenInput): Option<Error> {
    if input.audience == "" then Some(Plain(ErrMissingAudience))
    else if input.subject == "" then Some(Plain(ErrMissingSubject))
    else if input.clientID == "" then Some(Plain(ErrMissingClientID))
    else if input.scope == "" then Some(Plain(ErrMissingScope))
    else if input.sourceJTI == "" then Some(Plain(ErrMissingSourceJTI))
    else if input.sourceExpiresAt == 0 then Some(Plain(ErrMissingSourceExpiry))
    else if input.tokenUse == SERVICE then Some(Plain(ErrExternalService))
    else ValidateBinding(input.tokenUse, input.tenantPublicID, input.eventPublicID)
  }

  /** The claim set of a conversion, its input taken as valid; it never outlives the source. */
  function EntryClaims(i: Issuer, input: ExternalTokenInput, now: Time, txn: string, jti: string): Claims {
    var expiresAt := if input.sourceExpiresAt < now + i.ttl then input.sourceExpiresAt else now + i.ttl;
    Registered(i, input.audience, input.subject, now, expiresAt, jti).(
      tokenUse := input.tokenUse, clientID := input.clientID, txn := txn, scope := input.scope,
      sourceJTI := input.sourceJTI, sourceExpiresAt := Some(Truncate(input.sourceExpiresAt)),
      originSub := "", tenantPublicID := input.tenantPublicID, eventPublicID := input.eventPublicID)
  }

  function ExternalTokenClaims(i: Issuer, input: ExternalTokenInput, now: Time, txn: string, jti: string)
    : Result<Claims>
  {
    match ValidateExternalToken(input)
    case Some(e) => Err(e)
    case None =>
      if input.sourceExpiresAt <= now then Err(Plain(ErrSourceExpired))
      else Ok(EntryClaims(i, input, now, txn, jti))
  }

  function ValidateContextToken(context: Claims, callerService: string, now: Time): Option<Error> {
    if context.expiresAt.None? then Some(Plain(ErrContextMissingExpiry))
    else if context.expiresAt.value <= now then Some(Plain(ErrContextExpired))
    else if callerService !in context.audience then Some(Plain(ErrContextAudienceMismatch))
    else None
  }

  function ValidateUserOriginContextUse(context: Claims): Option<Error> {
    if !External(context.tokenUse) && context.tokenUse != SERVICE then Some(Plain(ErrUnsupportedTokenUse))
    else if context.tokenUse == SERVICE && context.originSub == "" then Some(Plain(ErrContextNotUserOrigin))
    else ValidateBinding(context.tokenUse, context.tenantPublicID, context.eventPublicID)
  }

  function ValidateUserOriginService(input: UserOriginServiceInput, now: Time): Option<Error> {
    if input.audience == "" then Some(Plain(ErrMissingAudience))
    else if input.callerService == "" then Some(Plain(ErrMissingCallerService))
    else match ValidateContextToken(input.context, input.callerService, now)
      case Some(e) => Some(e)
      case None =>
        match ValidateUserOriginContextUse(input.context)
        case Some(e) => Some(e)
        case None =>
          if input.context.scope == "" then Some(Plain(ErrContextMissingScope))
          else if input.context.txn == "" then Some(Plain(ErrContextMissingTxn))
          else if input.context.sourceJTI == "" then Some(Plain(ErrContextMissingSourceJTI))
          else if input.context.id == "" then Some(Plain(ErrContextMissingJTI))
          else if input.context.subject == "" then Some(Plain(ErrContextMissingSubject))
          else None
  }

  function UserOriginServiceClaims(i: Issuer, input: UserOriginServiceInput, now: Time, jti: string): Result<Claims> {
    match ValidateUserOriginService(input, now)
    case Some(e) => Err(e)
    case None =>
      var context := input.context;
      var originSub := if context.originSub == "" then context.subject else context.originSub;
      Ok(Registered(i, input.audience, input.callerService, now, now + i.ttl, jti).(
           tokenUse := SERVICE, clientID := input.callerService, txn := context.txn, scope := context.scope,
           sourceJTI := context.id, sourceExpiresAt := None, originSub := originSub,
           tenantPublicID := context.tenantPublicID, eventPublicID := context.eventPublicID))
  }

  function ValidateMachineOriginService(input: MachineOriginServiceInput, now: Time): Option<Error> {
    if input.audience == "" then Some(Plain(ErrMissingAudience))
    else if input.callerService == "" then Some(Plain(ErrMissingCallerService))
    else match input.context
      case None => None
      case Some(context) =>
        match ValidateContextToken(context, input.callerService, now)
        case Some(e) => Some(e)
        case None =>
          if context.txn == "" then Some(Plain(ErrContextMissingTxn))
          else if context.tokenUse != SERVICE then Some(Plain(ErrMachineContextNotService))
          else if context.scope != "" || context.sourceJTI != "" || context.originSub != "" then
            Some(Plain(ErrMachineContextCarriesOrigin))
          else if context.tenantPublicID != "" || context.eventPublicID != "" then
            Some(Plain(ErrMachineContextCarriesBinding))
          else None
  }

  /** `freshTxn` is used only when no context token names the chain. */
  function MachineOriginServiceClaims(i: Issuer, input: MachineOriginServiceInput, now: Time,
                                      freshTxn: string, jti: string): Result<Claims>
  {
    match ValidateMachineOriginService(input, now)
    case Some(e) => Err(e)
    case None =>
      var txn := if input.context.Some? then input.context.value.txn else freshTxn;
      Ok(Registered(i, input.audience, input.callerService, now, now + i.ttl, jti).(
           tokenUse := SERVICE, clientID := input.callerService, txn := txn))
  }

  /** `Issuer.issue`: wire form, then signature. */
  function Issue(keys: Result<Signer.KeySet>, claims: Result<Claims>): Result<Issued> {
    match claims
    case Err(e) => Err(e)
    case Ok(c) =>
      match NewSignedClaims(c)
      case Err(e) => Err(e)
      case Ok(payload) =>
        match Signer.Sign(keys, payload)
        case Err(e) => Err(e)
        case Ok(token) => Ok(Issued(token, c))
  }

  /** One call of any of the three issuing functions. */
  datatype Call =
    | FromExternal(external: ExternalTokenInput, txn: string)
    | UserOrigin(user: UserOriginServiceInput)
    | MachineOrigin(machine: MachineOriginServiceInput, freshTxn: string)

  function Derive(i: Issuer, call: Call, now: Time, jti: string): Result<Claims> {
    match call
    case FromExternal(input, txn) => ExternalTokenClaims(i, input, now, txn, jti)
    case UserOrigin(input) => UserOriginServiceClaims(i, input, now, jti)
    case MachineOrigin(input, freshTxn) => MachineOriginServiceClaims(i, input, now, freshTxn, jti)
  }

  function Destination(call: Call): string {
    match call
    case FromExternal(input, _) => input.audience
    case UserOrigin(input) => input.audience
    case MachineOrigin(input, _) => input.audience
  }

  /** The identifiers a UUID generator hands out are not empty. */
  predicate Identified(call: Call, jti: string) {
    && jti != ""
    && (call.FromExternal? ==> call.txn != "")
    && (call.MachineOrigin? ==> call.freshTxn != "")
  }

  lemma DerivedShape(i: Issuer, call: Call, now: Time, jti: string)
    requires Derive(i, call, now, jti).Ok?
    ensures var c := Derive(i, call, now, jti).value;
            && c.issuer == i.issuerID && c.id == jti && c.audience == [Destination(call)]
            && Destination(call) != ""
            && c.notBefore == c.issuedAt == Some(Truncate(now)) && c.expiresAt.Some?
            && WholeSeconds(c)
  {
    TruncateBounds(now);
    TruncateBounds(now + i.ttl);
    if call.FromExternal? { TruncateBounds(call.external.sourceExpiresAt); }
  }

  /** The lifetime of an entry token: it never starts after it ends, and never outlives the
      external token, whatever the positive TTL. */
  lemma EntryLifetime(i: Issuer, input: ExternalTokenInput, now: Time, txn: string, jti: string)
    requires i.Valid() && ExternalTokenClaims(i, input, now, txn, jti).Ok?
    ensures var c := ExternalTokenClaims(i, input, now, txn, jti).value;
            && c.notBefore == c.issuedAt
            && c.issuedAt.value <= c.expiresAt.value <= c.sourceExpiresAt.value <= input.sourceExpiresAt
            && c.expiresAt.value <= now + i.ttl
            && (c.expiresAt.value == c.sourceExpiresAt.value || c.expiresAt.value == Truncate(now + i.ttl))
  {
    var expiresAt := if input.sourceExpiresAt < now + i.ttl then input.sourceExpiresAt else now + i.ttl;
    TruncateMonotone(now, expiresAt);
    TruncateMonotone(expiresAt, input.sourceExpiresAt);
    TruncateBounds(input.sourceExpiresAt);
    TruncateBounds(now + i.ttl);
  }

  /** Every issued token ends after the instant it was issued, less the digits the whole-second date
      drops: all but one nanosecond of a second at most. */
  lemma ExpiryAfterIssue(i: Issuer, call: Call, now: Time, jti: string)
    requires i.Valid() && Derive(i, call, now, jti).Ok?
    ensures now < Derive(i, call, now, jti).value.expiresAt.value + SECOND - 1
  {
    TruncateBounds(now + i.ttl);
    if call.FromExternal? { TruncateBounds(call.external.sourceExpiresAt); }
  }

  // ---- What each issue is made of -----------------------------------------------------------------

  /** The end of a token issued for the full TTL. */
  function FullTerm(i: Issuer, now: Time): Time {
    Truncate(now + i.ttl)
  }

  /** A service token lives its full TTL from its own issue, however little its context had left. */
  lemma ServiceLifetime(i: Issuer, call: Call, now: Time, jti: string)
    requires !call.FromExternal? && Derive(i, call, now, jti).Ok?
    ensures var c := Derive(i, call, now, jti).value;
            && c.expiresAt == Some(FullTerm(i, now))
            && c.notBefore == c.issuedAt == Some(Truncate(now)) && c.sourceExpiresAt == None
  {}

  /** The earlier of the external token's end and the full TTL, the digits dropped. */
  lemma EntryEnds(i: Issuer, input: ExternalTokenInput, now: Time, txn: string, jti: string)
    requires i.Valid() && ExternalTokenClaims(i, input, now, txn, jti).Ok?
    ensures var end := ExternalTokenClaims(i, input, now, txn, jti).value.expiresAt.value;
            && (input.sourceExpiresAt <= now + i.ttl ==> end == Truncate(input.sourceExpiresAt))
            && (input.sourceExpiresAt >= now + i.ttl ==> end == FullTerm(i, now))
  {}

  /** A re-issue for a user succeeds for exactly these contexts. */
  predicate UserContext(c: Claims, callerService: string, now: Time) {
    && c.expiresAt.Some? && now < c.expiresAt.value && callerService in c.audience
    && (External(c.tokenUse) || (c.tokenUse == SERVICE && c.originSub != ""))
    && LegalBinding(c.tokenUse, c.tenantPublicID, c.eventPublicID)
    && c.scope != "" && c.txn != "" && c.sourceJTI != "" && c.id != "" && c.subject != ""
  }

  predicate MachineContext(c: Claims, callerService: string, now: Time) {
    && c.expiresAt.Some? && now < c.expiresAt.value && callerService in c.audience
    && c.txn != "" && c.tokenUse == SERVICE
    && c.scope == "" && c.sourceJTI == "" && c.originSub == ""
    && c.tenantPublicID == "" && c.eventPublicID == ""
  }

  lemma UserReissueIff(i: Issuer, input: UserOriginServiceInput, now: Time, jti: string)
    ensures UserOriginServiceClaims(i, input, now, jti).Ok? <==>
            input.audience != "" && input.callerService != "" && UserContext(input.context, input.callerService, now)
  {}

  lemma MachineIssueIff(i: Issuer, input: MachineOriginServiceInput, now: Time, freshTxn: string, jti: string)
    ensures MachineOriginServiceClaims(i, input, now, freshTxn, jti).Ok? <==>
            && input.audience != "" && input.callerService != ""
            && (input.context.Some? ==> MachineContext(input.context.value, input.callerService, now))
  {}

  /** Conversions succeed for exactly these external tokens. */
  predicate Convertible(input: ExternalTokenInput, now: Time) {
    && input.audience != "" && input.subject != "" && input.clientID != "" && input.scope != ""
    && input.sourceJTI != "" && input.sourceExpiresAt != 0 && now < input.sourceExpiresAt
    && input.tokenUse != SERVICE && LegalBinding(input.tokenUse, input.tenantPublicID, input.eventPublicID)
  }

  lemma ConversionIff(i: Issuer, input: ExternalTokenInput, now: Time, txn: string, jti: string)
    ensures ExternalTokenClaims(i, input, now, txn, jti).Ok? <==> Convertible(input, now)
  {}

  /** Derived claims are signed whenever the key set has a named 256-bit signing key. */
  predicate CanSign(keys: Result<Signer.KeySet>) {
    && keys.Ok? && keys.value.signing.keyID != "" && keys.value.signing.key.Some?
    && Signer.Bits(keys.value.signing.key.value.public.curve) == 256
  }

  lemma IssueIff(i: Issuer, keys: Result<Signer.KeySet>, call: Call, now: Time, jti: string)
    ensures Issue(keys, Derive(i, call, now, jti)).Ok? <==> Derive(i, call, now, jti).Ok? && CanSign(keys)
  {
    if Derive(i, call, now, jti).Ok? { DerivedShape(i, call, now, jti); }
  }
}
