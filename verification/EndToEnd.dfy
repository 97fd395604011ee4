/** The parts together: issuing gateway, published documents, key cache, verifier, interceptor. */
module EndToEnd {
  import opened Errors
  import opened InternalJwt
  import opened Jwk
  import opened Text
  import opened Wire
  import opened KeyCache
  import opened CacheRuns
  import opened Rotation
  import opened TokenChain
  import opened NonInterference
  import Issuer
  import Verifier
  import Signer
  import I = Interceptor

  /** The cache as the verifier's key resolver, during the call `e` in state `s`. */
  function CacheResolver(config: Config, s: State, e: Event): Verifier.Resolver
    requires e.KeyCall? && Supplied(config, e.fetch)
  {
    (keyID: string) =>
      match Answer(config, s, e.(keyID := keyID))
      case Ok(key) => Ok(Some(key))
      case Err(error) => Err(error)
  }

  /** `validateTokenType`: the type is JWT in any case. */
  predicate JwtTyped(header: Header) {
    header.typ.Some? && EqualFold(header.typ.value, "JWT")
  }

  /** The token reaches the key lookup of this call. */
  predicate LooksUp(token: Token, e: Event) {
    && e.KeyCall? && e.keyID != "" && token.header.kid == Some(e.keyID)
    && JwtTyped(token.header) && Verifier.ReachesLookup(Parsed(token))
  }

  /** What the verifier's key function makes of the cache's answer. */
  lemma LookupThroughCache(config: Config, log: seq<Event>, e: Event, header: Header)
    requires config.Positive() && e.KeyCall? && e.keyID != ""
    requires header.kid == Some(e.keyID) && JwtTyped(header)
    requires AllSupplied(config, log) && Supplied(config, e.fetch) && LegalLog(config, log + [e])
    ensures var s := Replay(config, log);
            var answer := Answer(config, s, e);
            var key := Verifier.KeyFor(header, CacheResolver(config, s, e));
            && (answer.Ok? ==> key == Ok(answer.value))
            && (answer.Err? ==> key.Err? && (Is(key.error, ErrKeyResolution) <==> !RecentlyLacked(config, s, e)))
            && (RecentlyLacked(config, s, e) ==> answer.Err?)
  {
    UnknownIff(config, log, e);
    assert e.(keyID := e.keyID) == e;
  }

  /** What a failed lookup becomes for the caller: unauthenticated exactly when a recent document
      lacks the kid, and unavailable for every other reason; a lookup that succeeds never reads as
      unavailable. */
  lemma FailureClassification(config: Config, log: seq<Event>, e: Event, v: Verifier.Verifier, token: Token,
                              audience: string, at: Time, policies: I.Policies, options: I.Options,
                              procedure: string, authorization: string)
    requires config.Positive() && LooksUp(token, e)
    requires AllSupplied(config, log) && Supplied(config, e.fetch) && LegalLog(config, log + [e])
    requires I.Consults(policies, procedure, authorization)
    ensures var s := Replay(config, log);
            var verify := Presenting(v, token, audience, CacheResolver(config, s, e), at);
            var decision := I.Decide(policies, options, procedure, authorization, verify);
            && (decision.Rejected? && decision.code == I.CodeUnavailable <==>
                  Answer(config, s, e).Err? && !RecentlyLacked(config, s, e))
            && (RecentlyLacked(config, s, e) ==> decision.Rejected? && decision.code == I.CodeUnauthenticated)
  {
    var s := Replay(config, log);
    var resolve := CacheResolver(config, s, e);
    var verify := Presenting(v, token, audience, resolve, at);
    LookupThroughCache(config, log, e, token.header);
    Verifier.ResolutionReportedIff(v, Parsed(token), audience, resolve, at);
    FailedLookupFails(v, token, audience, resolve, at);
    I.AuthorizedIff(policies, options, procedure, authorization, verify);
    if I.Decide(policies, options, procedure, authorization, verify).Rejected? {
      I.RejectionCode(policies, options, procedure, authorization, verify);
    }
  }

  lemma FailedLookupFails(v: Verifier.Verifier, token: Token, audience: string, resolve: Verifier.Resolver, at: Time)
    ensures Verifier.KeyFor(token.header, resolve).Err? ==>
              Verifier.Verify(v, Parsed(token), audience, resolve, at).Err?
  {}

  /** A token signed at the true time `signedAt` and dated `issuedAt`, by an instance that works with
      a set in force at `l`. The gateway reads its clock before it asks for the keys. */
  ghost predicate IssuedFrom(i: Issuer.Issuer, deployed: Deployment, lag: Time, l: Time, call: Issuer.Call,
                             signedAt: Time, issuedAt: Time, jti: string, issued: Issuer.Issued) {
    && signedAt - lag <= l <= signedAt && Issuer.Identified(call, jti)
    && Issuer.Issue(Ok(deployed(l)), Issuer.Derive(i, call, issuedAt, jti)) == Ok(issued)
  }

  lemma ExpiryCap(i: Issuer.Issuer, call: Issuer.Call, now: Time, jti: string)
    requires i.Valid() && Issuer.Derive(i, call, now, jti).Ok?
    ensures Issuer.Derive(i, call, now, jti).value.expiresAt.Some?
    ensures Issuer.Derive(i, call, now, jti).value.expiresAt.value <= now + i.ttl
  {
    TruncateBounds(now + i.ttl);
    if call.FromExternal? { TruncateBounds(call.external.sourceExpiresAt); }
  }

  /** On the verifier's clock: the lookup begins at most the leeway before the token's date of issue,
      and the validator reads the clock after it returned, before the token's window ends. */
  predicate Presented(v: Verifier.Verifier, issued: Issuer.Issued, issuedAt: Time, e: Event, at: Time) {
    && e.KeyCall? && issued.token.header.kid == Some(e.keyID)
    && issuedAt - v.leeway <= e.now && e.returned <= at && issued.claims.expiresAt.Some?
    && at < issued.claims.expiresAt.value + v.leeway
  }

  /** The two clocks disagree by no more than the skew allowed for, and that is within the leeway. */
  predicate Tolerated(clocks: Clocks, skew: Time, v: Verifier.Verifier) {
    -skew <= clocks.issuer - clocks.verifier <= skew <= v.leeway
  }

  lemma IssuedFacts(i: Issuer.Issuer, deployed: Deployment, lag: Time, l: Time, call: Issuer.Call,
                    signedAt: Time, issuedAt: Time, jti: string, issued: Issuer.Issued, keyID: string)
    requires i.Valid() && IssuedFrom(i, deployed, lag, l, call, signedAt, issuedAt, jti, issued)
    requires issued.token.header.kid == Some(keyID) && issued.claims.expiresAt.Some?
    ensures deployed(l).signing.keyID == keyID && deployed(l).signing.key.Some?
    ensures MaySign(deployed, lag, signedAt, keyID)
    ensures issued.claims.expiresAt.value <= issuedAt + i.ttl
  {
    IssuedToken(i, Ok(deployed(l)), call, issuedAt, jti);
    ExpiryCap(i, call, issuedAt, jti);
  }

  /** Across a rotation that keeps the waits, a genuine token presented in time is accepted with
      its claims whole, or the keys cannot be fetched; it is never refused as invalid. The clocks
      of gateway and verifier may differ by the skew. */
  lemma GenuineTokenSurvivesRotation(
      i: Issuer.Issuer, v: Verifier.Verifier, config: Config, deployed: Deployment, lag: Time, bound: Time,
      clocks: Clocks, skew: Time, key: PublicKey, terms: Terms, l: Time, call: Issuer.Call,
      signedAt: Time, issuedAt: Time, jti: string, issued: Issuer.Issued, log: seq<Event>, e: Event, at: Time)
    requires i.Valid() && v.Valid() && v.issuerID == i.issuerID && config.Positive() && bound >= 0
    requires Tolerated(clocks, skew, v) && issuedAt <= signedAt + clocks.issuer
    requires IssuedFrom(i, deployed, lag, l, call, signedAt, issuedAt, jti, issued)
    requires signedAt + clocks.verifier <= e.now && Presented(v, issued, issuedAt, e, at)
    requires Supplied(config, e.fetch) && AllSupplied(config, log) && LegalLog(config, log + [e])
    requires Honest(config, OnClock(ServedBy(deployed, lag), clocks.verifier), bound, log + [e])
    requires OneKeyPerKid(deployed, e.keyID, key) && Kept(deployed, e.keyID, key, terms)
    requires WaitsOut(terms, lag + Shorter(config) + bound, lag + i.ttl + v.leeway + skew)
    ensures var resolve := CacheResolver(config, Replay(config, log), e);
            var verified := Verifier.Verify(v, Parsed(issued.token), Issuer.Destination(call), resolve, at);
            || verified == Ok(issued.claims)
            || (&& Answer(config, Replay(config, log), e).Err?
                && verified.Err? && Is(verified.error, ErrKeyResolution))
  {
    IssuedFacts(i, deployed, lag, l, call, signedAt, issuedAt, jti, issued, e.keyID);
    RotationSafety(config, deployed, lag, bound, log, e, key, terms, i.ttl, v.leeway,
                   clocks, skew, signedAt, issued.claims.expiresAt.value);
    SignedUnderTheKey(deployed, e.keyID, key, l);
    AnsweredOrUnavailable(i, v, config, Ok(deployed(l)), key, call, issuedAt, jti, issued, log, e, at);
  }

  /** At the interceptor: a call with a genuine token, presented in time, is decided as for the
      token's own claims, or is unavailable. The key never makes it unauthenticated. */
  lemma GenuineCallSurvivesRotation(
      i: Issuer.Issuer, v: Verifier.Verifier, config: Config, deployed: Deployment, lag: Time, bound: Time,
      clocks: Clocks, skew: Time, key: PublicKey, terms: Terms, l: Time, call: Issuer.Call,
      signedAt: Time, issuedAt: Time, jti: string, issued: Issuer.Issued, log: seq<Event>, e: Event, at: Time,
      policies: I.Policies, options: I.Options, procedure: string, authorization: string)
    requires i.Valid() && v.Valid() && v.issuerID == i.issuerID && config.Positive() && bound >= 0
    requires Tolerated(clocks, skew, v) && issuedAt <= signedAt + clocks.issuer
    requires IssuedFrom(i, deployed, lag, l, call, signedAt, issuedAt, jti, issued)
    requires signedAt + clocks.verifier <= e.now && Presented(v, issued, issuedAt, e, at)
    requires Supplied(config, e.fetch) && AllSupplied(config, log) && LegalLog(config, log + [e])
    requires Honest(config, OnClock(ServedBy(deployed, lag), clocks.verifier), bound, log + [e])
    requires OneKeyPerKid(deployed, e.keyID, key) && Kept(deployed, e.keyID, key, terms)
    requires WaitsOut(terms, lag + Shorter(config) + bound, lag + i.ttl + v.leeway + skew)
    ensures var resolve := CacheResolver(config, Replay(config, log), e);
            var verify := Presenting(v, issued.token, Issuer.Destination(call), resolve, at);
            var decision := I.Decide(policies, options, procedure, authorization, verify);
            || decision == I.Decide(policies, options, procedure, authorization, _ => Ok(issued.claims))
            || (decision.Rejected? && decision.code == I.CodeUnavailable)
  {
    GenuineTokenSurvivesRotation(i, v, config, deployed, lag, bound, clocks, skew, key, terms, l, call,
                                 signedAt, issuedAt, jti, issued, log, e, at);
    var resolve := CacheResolver(config, Replay(config, log), e);
    DecidedByVerdict(policies, options, procedure, authorization, issued.claims,
                     Presenting(v, issued.token, Issuer.Destination(call), resolve, at));
  }

  /** A verifier that gives these claims, or cannot resolve the key, decides a call so. */
  lemma DecidedByVerdict(policies: I.Policies, options: I.Options, procedure: string, authorization: string,
                         c: Claims, verify: I.TokenVerifier)
    requires forall text :: verify(text) == Ok(c) || (verify(text).Err? && Is(verify(text).error, ErrKeyResolution))
    ensures var decision := I.Decide(policies, options, procedure, authorization, verify);
            || decision == I.Decide(policies, options, procedure, authorization, _ => Ok(c))
            || (decision.Rejected? && decision.code == I.CodeUnavailable)
  {
    if I.BearerToken(authorization).Ok? {
      assert verify(I.BearerToken(authorization).value) == Ok(c) || verify(I.BearerToken(authorization).value).Err?;
    }
  }

  lemma SignedUnderTheKey(deployed: Deployment, keyID: string, key: PublicKey, l: Time)
    requires OneKeyPerKid(deployed, keyID, key) && deployed(l).signing.keyID == keyID
    requires deployed(l).signing.key.Some?
    ensures deployed(l).signing.key.value.public == key
  {
    assert Signer.Named(deployed(l))[0].keyID == keyID;
  }

  /** A lookup that gives the signing key or fails otherwise than unknown decides the token. */
  lemma AnsweredOrUnavailable(
      i: Issuer.Issuer, v: Verifier.Verifier, config: Config, keys: Result<Signer.KeySet>, key: PublicKey,
      call: Issuer.Call, issuedAt: Time, jti: string, issued: Issuer.Issued, log: seq<Event>, e: Event, at: Time)
    requires i.Valid() && v.Valid() && v.issuerID == i.issuerID && config.Positive() && Issuer.Identified(call, jti)
    requires Issuer.Issue(keys, Issuer.Derive(i, call, issuedAt, jti)) == Ok(issued)
    requires Presented(v, issued, issuedAt, e, at)
    requires AllSupplied(config, log) && Supplied(config, e.fetch) && LegalLog(config, log + [e])
    requires keys.Ok? && keys.value.signing.keyID == e.keyID
    requires keys.value.signing.key.Some? && keys.value.signing.key.value.public == key
    requires RightOrUnavailable(Answer(config, Replay(config, log), e), key)
    ensures var answer := Answer(config, Replay(config, log), e);
            var resolve := CacheResolver(config, Replay(config, log), e);
            var verified := Verifier.Verify(v, Parsed(issued.token), Issuer.Destination(call), resolve, at);
            && (answer.Ok? ==> verified == Ok(issued.claims))
            && (answer.Err? ==> verified.Err? && Is(verified.error, ErrKeyResolution))
  {
    var s := Replay(config, log);
    var resolve := CacheResolver(config, s, e);
    IssuedToken(i, keys, call, issuedAt, jti);
    assert e.(keyID := e.keyID) == e;
    if Answer(config, s, e).Ok? {
      TruncateBounds(issuedAt);
      LegalPrefix(config, log, e);
      IssueThenVerify(i, v, keys, call, issuedAt, jti, resolve, at);
    } else {
      LookupThroughCache(config, log, e, issued.token.header);
      UnknownIff(config, log, e);
      Verifier.ResolutionReportedIff(v, Parsed(issued.token), Issuer.Destination(call), resolve, at);
    }
  }

  /** The documented rotation with the default configuration: whichever key signed, and whatever
      the verifier's cache went through, a genuine token presented in time reads as its own claims
      or as unavailable. */
  lemma DocumentedRotationIsSafe(
      i: Issuer.Issuer, v: Verifier.Verifier, raw: RawConfig, deployed: Deployment, lag: Time,
      clocks: Clocks, skew: Time, r: Rotation, outgoing: Signer.SigningKey, incoming: Signer.SigningKey,
      l: Time, call: Issuer.Call, signedAt: Time, issuedAt: Time, jti: string, issued: Issuer.Issued,
      log: seq<Event>, e: Event, at: Time)
    requires i.issuerID != "" && i.ttl == Issuer.DEFAULT_TTL
    requires v == Verifier.Verifier(i.issuerID, Verifier.DEFAULT_LEEWAY) && Tolerated(clocks, skew, v)
    requires raw.cacheTTL == 0 && raw.refreshCooldown == 0 && 0 <= lag && lag + skew <= 270 * SECOND
    requires outgoing.key.Some? && incoming.key.Some? && Rotates(deployed, r, outgoing, incoming)
    requires r.switched >= r.added + DOCUMENTED_WAIT
    requires r.removed >= r.switched + Issuer.DEFAULT_TTL + DEFAULT_CACHE_TTL
    requires OneKeyPerKid(deployed, outgoing.keyID, outgoing.key.value.public)
    requires OneKeyPerKid(deployed, incoming.keyID, incoming.key.value.public)
    requires IssuedFrom(i, deployed, lag, l, call, signedAt, issuedAt, jti, issued)
    requires issuedAt <= signedAt + clocks.issuer
    requires signedAt + clocks.verifier <= e.now && Presented(v, issued, issuedAt, e, at)
    requires var config := Effective(raw);
             && Supplied(config, e.fetch) && AllSupplied(config, log) && LegalLog(config, log + [e])
             && Honest(config, OnClock(ServedBy(deployed, lag), clocks.verifier), DEFAULT_FETCH_TIMEOUT, log + [e])
    ensures var config := Effective(raw);
            var resolve := CacheResolver(config, Replay(config, log), e);
            var verified := Verifier.Verify(v, Parsed(issued.token), Issuer.Destination(call), resolve, at);
            verified == Ok(issued.claims) || (verified.Err? && Is(verified.error, ErrKeyResolution))
  {
    var config := Effective(raw);
    IssuedToken(i, Ok(deployed(l)), call, issuedAt, jti);
    RotationKeepsBoth(deployed, r, outgoing, incoming);
    if e.keyID == incoming.keyID {
      GenuineTokenSurvivesRotation(
        i, v, config, deployed, lag, DEFAULT_FETCH_TIMEOUT, clocks, skew,
        incoming.key.value.public, r.Incoming(), l, call, signedAt, issuedAt, jti, issued, log, e, at);
    } else {
      assert deployed(l).signing == outgoing;
      GenuineTokenSurvivesRotation(
        i, v, config, deployed, lag, DEFAULT_FETCH_TIMEOUT, clocks, skew,
        outgoing.key.value.public, r.Outgoing(), l, call, signedAt, issuedAt, jti, issued, log, e, at);
    }
  }
}
