/** The claim set of an internal JWT and the rule both sides share (claims.go). */
module InternalJwt {
  import opened Errors

  /** Nanoseconds since the zero `time.Time`. */
  type Time = int

  const SECOND: int := 1_000_000_000
  const MINUTE: int := 60 * SECOND

  /** `jwt.NewNumericDate`: truncated down to a whole second (section 2 of RFC 7519). */
  function Truncate(t: Time): Time {
    t - t % SECOND
  }

  predicate WholeSecond(t: Option<Time>) {
    t.Some? ==> t.value % SECOND == 0
  }

  lemma TruncateBounds(t: Time)
    ensures Truncate(t) <= t < Truncate(t) + SECOND
    ensures Truncate(t) % SECOND == 0
    ensures Truncate(Truncate(t)) == Truncate(t)
  {}

  lemma TruncateMonotone(s: Time, t: Time)
    requires s <= t
    ensures Truncate(s) <= Truncate(t)
  {
    assert s / SECOND <= t / SECOND;
  }

  const TENANT_ACCESS := "tenant_access"
  const EVENT_ACCESS := "event_access"
  const SERVICE := "service"
  const REGISTRATION := "registration"

  datatype Claims = Claims(
    issuer: string,
    subject: string,
    audience: seq<string>,
    expiresAt: Option<Time>,
    notBefore: Option<Time>,
    issuedAt: Option<Time>,
    id: string,
    tokenUse: string,
    clientID: string,
    txn: string,
    scope: string,
    sourceJTI: string,
    sourceExpiresAt: Option<Time>,
    originSub: string,
    tenantPublicID: string,
    eventPublicID: string)

  /** `ValidateBinding`; `None` is acceptance. */
  function ValidateBinding(tokenUse: string, tenantPublicID: string, eventPublicID: string): Option<Error> {
    if tokenUse == TENANT_ACCESS then
      if tenantPublicID == "" then Some(Plain(ErrMissingTenantPublicID))
      else if eventPublicID != "" then Some(Plain(ErrForbiddenEventPublicID))
      else None
    else if tokenUse == EVENT_ACCESS then
      if tenantPublicID == "" then Some(Plain(ErrMissingTenantPublicID))
      else if eventPublicID == "" then Some(Plain(ErrMissingEventPublicID))
      else None
    else if tokenUse == REGISTRATION then
      if tenantPublicID != "" || eventPublicID != "" then Some(Plain(ErrRegistrationBinding)) else None
    else if tokenUse == SERVICE then
      if eventPublicID != "" && tenantPublicID == "" then Some(Plain(ErrServiceEventWithoutTenant)) else None
    else Some(Plain(ErrUnsupportedTokenUse))
  }

  /** The bindings each token use may carry. */
  predicate LegalBinding(tokenUse: string, tenantPublicID: string, eventPublicID: string) {
    || (tokenUse == TENANT_ACCESS && tenantPublicID != "" && eventPublicID == "")
    || (tokenUse == EVENT_ACCESS && tenantPublicID != "" && eventPublicID != "")
    || (tokenUse == REGISTRATION && tenantPublicID == "" && eventPublicID == "")
    || (tokenUse == SERVICE && (eventPublicID != "" ==> tenantPublicID != ""))
  }

  lemma BindingIff(tokenUse: string, tenantPublicID: string, eventPublicID: string)
    ensures ValidateBinding(tokenUse, tenantPublicID, eventPublicID).None? <==>
            LegalBinding(tokenUse, tenantPublicID, eventPublicID)
  {}

  predicate External(tokenUse: string) {
    tokenUse == TENANT_ACCESS || tokenUse == EVENT_ACCESS || tokenUse == REGISTRATION
  }

  /** Whatever binding a token of any use carries legally, a service token may carry too. */
  lemma BindingSurvivesReissue(tokenUse: string, tenant: string, event: string)
    requires ValidateBinding(tokenUse, tenant, event).None?
    ensures ValidateBinding(SERVICE, tenant, event).None?
  {}
}
