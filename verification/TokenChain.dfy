/** What the issuing and the verifying side promise together: issued implies verified, verified
    implies re-issuable under exactly one origin, and what a chain of hops preserves. */
module TokenChain {
  import opened Errors
  import opened InternalJwt
  import opened Jwk
  import opened Wire
  import opened Issuer
  import opened Verifier
  import Signer

  // ---- One token --------------------------------------------------------------------------

  /** The claims each issuing function derives are of the kind it is meant for. */
  lemma DerivedKind(i: Issuer, call: Call, now: Time, jti: string)
    requires Identified(call, jti) && Derive(i, call, now, jti).Ok?
    ensures var c := Derive(i, call, now, jti).value;
            && Common(c, Destination(call))
            && (call.FromExternal? ==> EntryToken(c))
            && (call.UserOrigin? ==> UserServiceToken(c))
            && (call.MachineOrigin? ==> MachineServiceToken(c))
  {}

  /** The two sides agree on what an entry token is: a conversion is refused exactly when its
      source has ended (or names no end), it names no destination, it asks for a service token, or
      the verifying side would refuse the claims it would have issued. */
  lemma ConversionAgreesWithVerifier(i: Issuer, input: ExternalTokenInput, now: Time, txn: string, jti: string)
    requires txn != "" && jti != ""
    ensures ExternalTokenClaims(i, input, now, txn, jti).Ok? <==>
            && now < input.sourceExpiresAt && input.sourceExpiresAt != 0
            && input.audience != "" && input.tokenUse != SERVICE
            && ValidateClaims(EntryClaims(i, input, now, txn, jti), input.audience).None?
  {
    ValidClaimsAreTheThreeKinds(EntryClaims(i, input, now, txn, jti), input.audience);
  }

  /** The issued token carries the derived claims whole, under the signing key and its kid. */
  lemma IssuedToken(i: Issuer, keys: Result<Signer.KeySet>, call: Call, now: Time, jti: string)
    requires Issue(keys, Derive(i, call, now, jti)).Ok?
    ensures var issued := Issue(keys, Derive(i, call, now, jti)).value;
            && Ok(issued.claims) == Derive(i, call, now, jti)
            && Decodable(issued.token.payload) && Decode(issued.token.payload) == issued.claims
            && keys.Ok? && keys.value.signing.keyID != "" && keys.value.signing.key.Some?
            && issued.token.header == Header(ALGORITHM, Some("JWT"), Some(keys.value.signing.keyID))
            && SignatureValid(keys.value.signing.key.value.public, issued.token)
  {
    DerivedShape(i, call, now, jti);
    Wire.RoundTrip(Derive(i, call, now, jti).value);
  }

  /** What the external token said: who, for which client, with which scope and binding, under which
      jti and until when. */
  predicate SaysWhat(c: Claims, input: ExternalTokenInput) {
    && c.subject == input.subject && c.clientID == input.clientID && c.scope == input.scope
    && c.tokenUse == input.tokenUse && c.sourceJTI == input.sourceJTI
    && c.sourceExpiresAt == Some(Truncate(input.sourceExpiresAt)) && c.originSub == ""
    && c.tenantPublicID == input.tenantPublicID && c.eventPublicID == input.eventPublicID
  }

  /** A verifier reads from a converted token exactly what the external token said. */
  lemma ConversionSaysWhatItsSourceSaid(i: Issuer, keys: Result<Signer.KeySet>, input: ExternalTokenInput,
                                        now: Time, txn: string, jti: string)
    requires Issue(keys, ExternalTokenClaims(i, input, now, txn, jti)).Ok?
    ensures var issued := Issue(keys, ExternalTokenClaims(i, input, now, txn, jti)).value;
            && Decodable(issued.token.payload)
            && var c := Decode(issued.token.payload);
               && SaysWhat(c, input) && c == issued.claims
               && c.issuer == i.issuerID && c.audience == [input.audience] && c.txn == txn && c.id == jti
  {
    IssuedToken(i, keys, FromExternal(input, txn), now, jti);
    DerivedShape(i, FromExternal(input, txn), now, jti);
  }

  predicate Resolves(resolve: Resolver, signing: Signer.SigningKey) {
    signing.key.Some? && resolve(signing.keyID) == Ok(Some(signing.key.value.public))
  }

  /** Whatever was issued is accepted for its destination, with exactly the issued claims, at the
      clock readings from `iat - leeway` up to but not including `exp + leeway`, and at no other. */
  lemma IssueThenVerify(i: Issuer, v: Verifier, keys: Result<Signer.KeySet>, call: Call, now: Time, jti: string,
                        resolve: Resolver, at: Time)
    requires i.Valid() && v.Valid() && v.issuerID == i.issuerID && Identified(call, jti)
    requires Issue(keys, Derive(i, call, now, jti)).Ok?
    requires keys.Ok? && Resolves(resolve, keys.value.signing)
    ensures var issued := Issue(keys, Derive(i, call, now, jti)).value;
            var verified := Verify(v, Parsed(issued.token), Destination(call), resolve, at);
            && (verified.Ok? <==> Truncate(now) - v.leeway <= at < issued.claims.expiresAt.value + v.leeway)
            && (verified.Ok? ==> verified.value == issued.claims)
  {
    var issued := Issue(keys, Derive(i, call, now, jti)).value;
    IssuedToken(i, keys, call, now, jti);
    DerivedShape(i, call, now, jti);
    DerivedKind(i, call, now, jti);
    AcceptedIff(v, Parsed(issued.token), Destination(call), resolve, at, issued.claims);
    var verified := Verify(v, Parsed(issued.token), Destination(call), resolve, at);
    if verified.Ok? {
      AcceptedIff(v, Parsed(issued.token), Destination(call), resolve, at, verified.value);
    }
  }

  /** A second of leeway less a nanosecond is enough for a token to be accepted at the instant it
      is issued. */
  lemma AcceptedAtIssue(i: Issuer, v: Verifier, keys: Result<Signer.KeySet>, call: Call, now: Time, jti: string,
                        resolve: Resolver)
    requires i.Valid() && v.Valid() && v.issuerID == i.issuerID && Identified(call, jti)
    requires Issue(keys, Derive(i, call, now, jti)).Ok?
    requires keys.Ok? && Resolves(resolve, keys.value.signing)
    requires v.leeway >= SECOND - 1
    ensures var issued := Issue(keys, Derive(i, call, now, jti)).value;
            Verify(v, Parsed(issued.token), Destination(call), resolve, now) == Ok(issued.claims)
  {
    IssuedToken(i, keys, call, now, jti);
    ExpiryAfterIssue(i, call, now, jti);
    TruncateBounds(now);
    IssueThenVerify(i, v, keys, call, now, jti, resolve, now);
  }

  /** Every token issued is accepted at its own issuing instant by a verifier that resolves its kid. */
  ghost predicate AlwaysAcceptedAtIssue(i: Issuer, v: Verifier) {
    forall keys, call, now, jti, resolve ::
      Identified(call, jti) && Issue(keys, Derive(i, call, now, jti)).Ok? && keys.Ok?
      && Resolves(resolve, keys.value.signing) ==>
        Verify(v, Parsed(Issue(keys, Derive(i, call, now, jti)).value.token), Destination(call), resolve, now).Ok?
  }

  /** A conversion two nanoseconds before a second ends, from a source that lasts one more: the date
      of expiry drops all of that second. */
  const LATE: Time := 10_999_999_998
  const LATE_CALL: Call := FromExternal(
    ExternalTokenInput("a", TENANT_ACCESS, "s", "c", "p", "j", 10_999_999_999, "t", ""), "txn")
  const LATE_KEYS: Signer.KeySet := Signer.KeySet(Signer.SigningKey("k", Some(PrivateKey(BASE_POINT))), [])

  lemma LateConversionIsRefused(i: Issuer, v: Verifier, resolve: Resolver)
    requires i.Valid() && v.Valid() && v.issuerID == i.issuerID && Resolves(resolve, LATE_KEYS.signing)
    requires v.leeway < SECOND - 1
    ensures Identified(LATE_CALL, "jti")
    ensures var issued := Issue(Ok(LATE_KEYS), Derive(i, LATE_CALL, LATE, "jti"));
            issued.Ok? && Verify(v, Parsed(issued.value.token), Destination(LATE_CALL), resolve, LATE).Err?
  {
    var c := Derive(i, LATE_CALL, LATE, "jti");
    assert c.Ok? && c.value.expiresAt == Some(10_000_000_000);
    assert NewSignedClaims(c.value).Ok?;
    IssuedToken(i, Ok(LATE_KEYS), LATE_CALL, LATE, "jti");
    IssueThenVerify(i, v, Ok(LATE_KEYS), LATE_CALL, LATE, "jti", resolve, LATE);
  }

  /** The leeway it takes, exactly: a second less a nanosecond. */
  lemma AcceptedAtIssueIff(i: Issuer, v: Verifier)
    requires i.Valid() && v.Valid() && v.issuerID == i.issuerID
    ensures AlwaysAcceptedAtIssue(i, v) <==> v.leeway >= SECOND - 1
  {
    if v.leeway >= SECOND - 1 {
      forall keys, call, now, jti, resolve |
        && Identified(call, jti) && Issue(keys, Derive(i, call, now, jti)).Ok? && keys.Ok?
        && Resolves(resolve, keys.value.signing)
        ensures
          Verify(v, Parsed(Issue(keys, Derive(i, call, now, jti)).value.token), Destination(call), resolve, now).Ok?
      {
        AcceptedAtIssue(i, v, keys, call, now, jti, resolve);
      }
    } else {
      var resolve: Resolver := (keyID: string) => Ok(Some(BASE_POINT));
      LateConversionIsRefused(i, v, resolve);
      assert Resolves(resolve, LATE_KEYS.signing);
    }
  }

  /** Every verified token, presented in time by the service it names, is accepted as context by
      exactly one of the two re-issues; once `exp` is reached by neither, leeway or not. */
  lemma OriginDichotomy(i: Issuer, c: Claims, presenter: string, destination: string, now: Time,
                        txn: string, jti: string)
    requires ValidateClaims(c, presenter).None? && c.expiresAt.Some?
    requires presenter != "" && destination != ""
    ensures var user := UserOriginServiceClaims(i, UserOriginServiceInput(destination, presenter, c), now, jti);
            var asMachine := MachineOriginServiceInput(destination, presenter, Some(c));
            var machine := MachineOriginServiceClaims(i, asMachine, now, txn, jti);
            && (user.Ok? <==> now < c.expiresAt.value && (EntryToken(c) || UserServiceToken(c)))
            && (machine.Ok? <==> now < c.expiresAt.value && MachineServiceToken(c))
            && (now < c.expiresAt.value ==> user.Ok? != machine.Ok?)
  {
    ValidClaimsAreTheThreeKinds(c, presenter);
  }

  // ---- Chains of hops -----------------------------------------------------------------------

  /** One hop: a service presents the token it received, the gateway verifies it and re-issues it
      for the next destination, as a user's call or as a machine's. */
  datatype Hop = Hop(
    presenter: string, resolve: Resolver, verifiedAt: Time,
    asMachine: bool, destination: string, issuedAt: Time, keys: Result<Signer.KeySet>, jti: string)

  function ReissueCall(hop: Hop, context: Claims): Call {
    if hop.asMachine
    then MachineOrigin(MachineOriginServiceInput(hop.destination, hop.presenter, Some(context)), "")
    else UserOrigin(UserOriginServiceInput(hop.destination, hop.presenter, context))
  }

  function Reissue(i: Issuer, v: Verifier, received: Issued, hop: Hop): Result<Issued> {
    match VerifyContext(v, Parsed(received.token), hop.presenter, hop.resolve, hop.verifiedAt)
    case Err(e) => Err(e)
    case Ok(context) => Issue(hop.keys, Derive(i, ReissueCall(hop, context), hop.issuedAt, hop.jti))
  }

  /** All tokens of a chain, the first one included; the chain stops at the first refusal. */
  function Run(i: Issuer, v: Verifier, first: Issued, hops: seq<Hop>): (r: Result<seq<Issued>>)
    ensures r.Ok? ==> |r.value| == |hops| + 1
  {
    if hops == [] then Ok([first])
    else
      var n := |hops| - 1;
      match Run(i, v, first, hops[..n])
      case Err(e) => Err(e)
      case Ok(chain) =>
        match Reissue(i, v, chain[n], hops[n])
        case Err(e) => Err(e)
        case Ok(next) => Ok(chain + [next])
  }

  predicate Authentic(t: Issued) {
    Decodable(t.token.payload) && Decode(t.token.payload) == t.claims
  }

  /** The gateway verifies a presented token only as the claims that were issued. */
  lemma VerifiedAsIssued(v: Verifier, received: Issued, presenter: string, resolve: Resolver, at: Time)
    requires v.Valid() && Authentic(received) && VerifyContext(v, Parsed(received.token), presenter, resolve, at).Ok?
    ensures VerifyContext(v, Parsed(received.token), presenter, resolve, at) == Ok(received.claims)
    ensures presenter != "" && received.claims.audience == [presenter]
    ensures EntryToken(received.claims) || UserServiceToken(received.claims) || MachineServiceToken(received.claims)
  {
    var context := VerifyContext(v, Parsed(received.token), presenter, resolve, at).value;
    AcceptedIff(v, Parsed(received.token), presenter, resolve, at, context);
  }

  /** A re-issue sees exactly the claims that were issued to its presenter. */
  lemma ReissueSeesIssuedClaims(i: Issuer, v: Verifier, received: Issued, hop: Hop)
    requires v.Valid() && Authentic(received) && Reissue(i, v, received, hop).Ok?
    ensures var next := Reissue(i, v, received, hop).value;
            && received.claims.audience == [hop.presenter] && hop.presenter != ""
            && received.claims.expiresAt.Some? && hop.issuedAt < received.claims.expiresAt.value
            && Ok(next.claims) == Derive(i, ReissueCall(hop, received.claims), hop.issuedAt, hop.jti)
            && Authentic(next)
            && (hop.asMachine <==> MachineServiceToken(received.claims))
  {
    VerifiedAsIssued(v, received, hop.presenter, hop.resolve, hop.verifiedAt);
    IssuedToken(i, hop.keys, ReissueCall(hop, received.claims), hop.issuedAt, hop.jti);
  }

  /** What the k-th token of a user's chain shares with the entry token that began it. */
  predicate Carried(i: Issuer, entry: Claims, c: Claims, k: nat) {
    && c.txn == entry.txn && c.scope == entry.scope
    && c.tenantPublicID == entry.tenantPublicID && c.eventPublicID == entry.eventPublicID
    && (k == 0 ==> c == entry)
    && (k > 0 ==> c.tokenUse == SERVICE && c.originSub == entry.subject && c.sourceExpiresAt == None)
    && c.expiresAt.Some? && entry.sourceExpiresAt.Some?
    && c.expiresAt.value <= entry.sourceExpiresAt.value + k * i.ttl
  }

  /** What a hop ties between the token presented and the token re-issued. */
  predicate Linked(previous: Claims, hop: Hop, c: Claims) {
    && c.sourceJTI == previous.id && c.id == hop.jti
    && MovedOn(previous, hop, c)
  }

  /** The presenter becomes the subject and client, the destination the audience. */
  predicate MovedOn(previous: Claims, hop: Hop, c: Claims) {
    previous.audience == [c.subject] && c.clientID == c.subject && c.audience == [hop.destination]
  }

  /** A re-issue lives the full TTL from its own issue. */
  predicate FullTermFrom(i: Issuer, hop: Hop, c: Claims) {
    && c.issuer == i.issuerID && c.expiresAt == Some(FullTerm(i, hop.issuedAt))
    && c.notBefore == c.issuedAt == Some(Truncate(hop.issuedAt))
  }

  predicate UserHop(i: Issuer, entry: Claims, previous: Claims, hop: Hop, c: Claims, k: nat) {
    !hop.asMachine && Carried(i, entry, c, k) && Linked(previous, hop, c) && FullTermFrom(i, hop, c)
  }

  predicate MachineHop(i: Issuer, txn: string, previous: Claims, hop: Hop, c: Claims) {
    && hop.asMachine && MachineServiceToken(c) && c.txn == txn && c.id == hop.jti
    && MovedOn(previous, hop, c) && FullTermFrom(i, hop, c)
  }

  /** What one user-origin re-issue takes over from its context, wherever it stands in a chain. */
  lemma UserReissueCarries(i: Issuer, entry: Claims, context: Claims, hop: Hop, c: Claims, k: nat)
    requires !hop.asMachine && context.audience == [hop.presenter]
    requires context.expiresAt.Some? && hop.issuedAt < context.expiresAt.value
    requires Carried(i, entry, context, k) && entry.originSub == "" && entry.subject != ""
    requires var input := UserOriginServiceInput(hop.destination, hop.presenter, context);
             UserOriginServiceClaims(i, input, hop.issuedAt, hop.jti) == Ok(c)
    ensures UserHop(i, entry, context, hop, c, k + 1)
  {
    TruncateBounds(hop.issuedAt + i.ttl);
    assert (k + 1) * i.ttl == k * i.ttl + i.ttl;
  }

  lemma UserStep(i: Issuer, v: Verifier, entry: Claims, received: Issued, hop: Hop, k: nat)
    requires v.Valid() && Authentic(received) && EntryToken(entry) && entry.subject != ""
    requires Carried(i, entry, received.claims, k)
    requires Reissue(i, v, received, hop).Ok?
    ensures var next := Reissue(i, v, received, hop).value;
            Authentic(next) && UserHop(i, entry, received.claims, hop, next.claims, k + 1)
  {
    ReissueSeesIssuedClaims(i, v, received, hop);
    UserReissueCarries(i, entry, received.claims, hop, Reissue(i, v, received, hop).value.claims, k);
  }

  /** Every token of the chain after the first stands in the relation of its place. */
  predicate UserLinks(i: Issuer, chain: seq<Issued>, hops: seq<Hop>)
    requires |chain| == |hops| + 1
  {
    forall k :: 0 <= k < |hops| ==>
      UserHop(i, chain[0].claims, chain[k].claims, hops[k], chain[k + 1].claims, k + 1)
  }

  lemma UserLinksExtend(i: Issuer, before: seq<Issued>, next: Issued, hops: seq<Hop>)
    requires hops != [] && |before| == |hops|
    requires UserLinks(i, before, hops[..|hops| - 1])
    requires UserHop(i, before[0].claims, before[|hops| - 1].claims, hops[|hops| - 1], next.claims, |hops|)
    ensures UserLinks(i, before + [next], hops)
  {
    var chain := before + [next];
    forall k | 0 <= k < |hops|
      ensures UserHop(i, chain[0].claims, chain[k].claims, hops[k], chain[k + 1].claims, k + 1)
    {
      if k < |hops| - 1 { assert hops[..|hops| - 1][k] == hops[k]; }
    }
  }

  predicate MachineLinks(i: Issuer, chain: seq<Issued>, hops: seq<Hop>)
    requires |chain| == |hops| + 1
  {
    forall k :: 0 <= k < |hops| ==>
      MachineHop(i, chain[0].claims.txn, chain[k].claims, hops[k], chain[k + 1].claims)
  }

  lemma {:induction false} UserRun(i: Issuer, v: Verifier, first: Issued, hops: seq<Hop>)
    requires i.Valid() && v.Valid() && Authentic(first) && EntryToken(first.claims) && first.claims.subject != ""
    requires Carried(i, first.claims, first.claims, 0)
    requires Run(i, v, first, hops).Ok?
    ensures var chain := Run(i, v, first, hops).value;
            && chain[0] == first && Authentic(chain[|hops|])
            && Carried(i, first.claims, chain[|hops|].claims, |hops|)
            && UserLinks(i, chain, hops)
  {
    if hops != [] {
      var n := |hops| - 1;
      UserRun(i, v, first, hops[..n]);
      var before := Run(i, v, first, hops[..n]).value;
      var chain := Run(i, v, first, hops).value;
      UserStep(i, v, first.claims, before[n], hops[n], n);
      UserLinksExtend(i, before, chain[|hops|], hops);
    }
  }

  /** Through any number of verified hops a user's chain keeps its txn, scope and binding, names
      the same user, links each token to the one before it, moves `sub` and `client_id` to the
      previous destination, never becomes a machine's, and ends by `src_exp + n * ttl`. */
  lemma UserChain(i: Issuer, v: Verifier, keys: Result<Signer.KeySet>, input: ExternalTokenInput,
                  now: Time, txn: string, jti: string, hops: seq<Hop>)
    requires i.Valid() && v.Valid() && txn != "" && jti != ""
    requires Issue(keys, ExternalTokenClaims(i, input, now, txn, jti)).Ok?
    requires Run(i, v, Issue(keys, ExternalTokenClaims(i, input, now, txn, jti)).value, hops).Ok?
    ensures var first := Issue(keys, ExternalTokenClaims(i, input, now, txn, jti)).value;
            var chain := Run(i, v, first, hops).value;
            && chain[0] == first && first.claims.txn == txn && SaysWhat(first.claims, input)
            && first.claims.expiresAt.value <= first.claims.sourceExpiresAt.value
            && UserLinks(i, chain, hops)
  {
    var first := Issue(keys, ExternalTokenClaims(i, input, now, txn, jti)).value;
    IssuedToken(i, keys, FromExternal(input, txn), now, jti);
    DerivedKind(i, FromExternal(input, txn), now, jti);
    EntryLifetime(i, input, now, txn, jti);
    UserRun(i, v, first, hops);
  }

  lemma MachineStep(i: Issuer, v: Verifier, received: Issued, hop: Hop)
    requires v.Valid() && Authentic(received) && MachineServiceToken(received.claims)
    requires Reissue(i, v, received, hop).Ok?
    ensures var next := Reissue(i, v, received, hop).value;
            Authentic(next) && MachineHop(i, received.claims.txn, received.claims, hop, next.claims)
  {
    ReissueSeesIssuedClaims(i, v, received, hop);
  }

  lemma MachineLinksExtend(i: Issuer, before: seq<Issued>, next: Issued, hops: seq<Hop>)
    requires hops != [] && |before| == |hops|
    requires MachineLinks(i, before, hops[..|hops| - 1])
    requires MachineHop(i, before[0].claims.txn, before[|hops| - 1].claims, hops[|hops| - 1], next.claims)
    ensures MachineLinks(i, before + [next], hops)
  {
    var chain := before + [next];
    forall k | 0 <= k < |hops|
      ensures MachineHop(i, chain[0].claims.txn, chain[k].claims, hops[k], chain[k + 1].claims)
    {
      if k < |hops| - 1 { assert hops[..|hops| - 1][k] == hops[k]; }
    }
  }

  lemma {:induction false} MachineRun(i: Issuer, v: Verifier, first: Issued, hops: seq<Hop>)
    requires v.Valid() && Authentic(first) && MachineServiceToken(first.claims)
    requires Run(i, v, first, hops).Ok?
    ensures var chain := Run(i, v, first, hops).value;
            && chain[0] == first && Authentic(chain[|hops|])
            && MachineServiceToken(chain[|hops|].claims) && chain[|hops|].claims.txn == first.claims.txn
            && MachineLinks(i, chain, hops)
  {
    if hops != [] {
      var n := |hops| - 1;
      MachineRun(i, v, first, hops[..n]);
      var before := Run(i, v, first, hops[..n]).value;
      MachineStep(i, v, before[n], hops[n]);
      MachineLinksExtend(i, before, Run(i, v, first, hops).value[|hops|], hops);
    }
  }

  /** A machine's chain keeps only its txn and never gains an origin, a scope or a binding. */
  lemma MachineChain(i: Issuer, v: Verifier, keys: Result<Signer.KeySet>, input: MachineOriginServiceInput,
                     now: Time, txn: string, jti: string, hops: seq<Hop>)
    requires i.Valid() && v.Valid() && txn != "" && jti != "" && input.context == None
    requires Issue(keys, MachineOriginServiceClaims(i, input, now, txn, jti)).Ok?
    requires Run(i, v, Issue(keys, MachineOriginServiceClaims(i, input, now, txn, jti)).value, hops).Ok?
    ensures var first := Issue(keys, MachineOriginServiceClaims(i, input, now, txn, jti)).value;
            var chain := Run(i, v, first, hops).value;
            && chain[0] == first && first.claims.txn == txn
            && first.claims.subject == first.claims.clientID == input.callerService
            && first.claims.audience == [input.audience] && MachineLinks(i, chain, hops)
  {
    var first := Issue(keys, MachineOriginServiceClaims(i, input, now, txn, jti)).value;
    IssuedToken(i, keys, MachineOrigin(input, txn), now, jti);
    DerivedKind(i, MachineOrigin(input, txn), now, jti);
    MachineRun(i, v, first, hops);
  }

  // ---- When a hop succeeds, and how long its token lives ---------------------------------------------

  /** A received token verifies for its presenter: it names it, and the clock is in its window. */
  predicate PresentedInTime(v: Verifier, received: Issued, hop: Hop) {
    && hop.presenter != "" && received.claims.audience == [hop.presenter]
    && received.claims.issuedAt.Some? && received.claims.expiresAt.Some?
    && received.claims.issuedAt.value - v.leeway <= hop.verifiedAt < received.claims.expiresAt.value + v.leeway
  }

  lemma ContextVerifiesIff(i: Issuer, v: Verifier, keys: Result<Signer.KeySet>, call: Call, now: Time, jti: string,
                           hop: Hop)
    requires i.Valid() && v.Valid() && v.issuerID == i.issuerID && Identified(call, jti)
    requires Issue(keys, Derive(i, call, now, jti)).Ok?
    requires keys.Ok? && Resolves(hop.resolve, keys.value.signing)
    ensures var received := Issue(keys, Derive(i, call, now, jti)).value;
            VerifyContext(v, Parsed(received.token), hop.presenter, hop.resolve, hop.verifiedAt).Ok? <==>
            PresentedInTime(v, received, hop)
  {
    var received := Issue(keys, Derive(i, call, now, jti)).value;
    IssuedToken(i, keys, call, now, jti);
    DerivedShape(i, call, now, jti);
    DerivedKind(i, call, now, jti);
    AcceptedIff(v, Parsed(received.token), hop.presenter, hop.resolve, hop.verifiedAt, received.claims);
    var verified := Verify(v, Parsed(received.token), hop.presenter, hop.resolve, hop.verifiedAt);
    if verified.Ok? {
      AcceptedIff(v, Parsed(received.token), hop.presenter, hop.resolve, hop.verifiedAt, verified.value);
    }
  }

  /** A hop succeeds if and only if the token it received names its presenter, is verified inside its
      window and re-issued before its `exp`, is a machine's exactly when asked for as one, and there
      are a destination and a key to sign with. */
  lemma HopSucceedsIff(i: Issuer, v: Verifier, keys: Result<Signer.KeySet>, call: Call, now: Time, jti: string,
                       hop: Hop)
    requires i.Valid() && v.Valid() && v.issuerID == i.issuerID && Identified(call, jti)
    requires Issue(keys, Derive(i, call, now, jti)).Ok?
    requires keys.Ok? && Resolves(hop.resolve, keys.value.signing)
    ensures var received := Issue(keys, Derive(i, call, now, jti)).value;
            Reissue(i, v, received, hop).Ok? <==>
            && PresentedInTime(v, received, hop) && hop.issuedAt < received.claims.expiresAt.value
            && (hop.asMachine <==> call.MachineOrigin?)
            && hop.destination != "" && CanSign(hop.keys)
  {
    var received := Issue(keys, Derive(i, call, now, jti)).value;
    ContextVerifiesIff(i, v, keys, call, now, jti, hop);
    IssuedToken(i, keys, call, now, jti);
    DerivedKind(i, call, now, jti);
    var verified := VerifyContext(v, Parsed(received.token), hop.presenter, hop.resolve, hop.verifiedAt);
    if verified.Ok? {
      VerifiedAsIssued(v, received, hop.presenter, hop.resolve, hop.verifiedAt);
      IssueIff(i, hop.keys, ReissueCall(hop, received.claims), hop.issuedAt, hop.jti);
      ValidClaimsAreTheThreeKinds(received.claims, hop.presenter);
      HopDerives(i, received.claims, hop);
    }
  }

  lemma HopDerives(i: Issuer, context: Claims, hop: Hop)
    requires context.audience == [hop.presenter] && hop.presenter != ""
    requires ValidateClaims(context, hop.presenter).None? && context.expiresAt.Some?
    ensures Derive(i, ReissueCall(hop, context), hop.issuedAt, hop.jti).Ok? <==>
            && hop.destination != "" && hop.issuedAt < context.expiresAt.value
            && (hop.asMachine <==> MachineServiceToken(context))
  {
    if hop.destination != "" {
      OriginDichotomy(i, context, hop.presenter, hop.destination, hop.issuedAt, "", hop.jti);
      ValidClaimsAreTheThreeKinds(context, hop.presenter);
    }
  }

  /** However short its context's remaining life, a token re-issued by a hop is accepted for its
      destination at every clock reading of its own full term. */
  lemma HopTokenLivesItsTerm(i: Issuer, v: Verifier, received: Issued, hop: Hop, destinationVerifier: Verifier,
                             resolve: Resolver, at: Time)
    requires i.Valid() && v.Valid() && Authentic(received) && hop.jti != ""
    requires destinationVerifier.Valid() && destinationVerifier.issuerID == i.issuerID
    requires Reissue(i, v, received, hop).Ok? && hop.keys.Ok? && Resolves(resolve, hop.keys.value.signing)
    ensures var next := Reissue(i, v, received, hop).value;
            Verify(destinationVerifier, Parsed(next.token), hop.destination, resolve, at) == Ok(next.claims) <==>
            Truncate(hop.issuedAt) - destinationVerifier.leeway <= at
              < FullTerm(i, hop.issuedAt) + destinationVerifier.leeway
  {
    ReissueSeesIssuedClaims(i, v, received, hop);
    VerifiedAsIssued(v, received, hop.presenter, hop.resolve, hop.verifiedAt);
    ReissuedTerm(i, received.claims, hop, destinationVerifier, resolve, at);
  }

  lemma ReissuedTerm(i: Issuer, context: Claims, hop: Hop, v: Verifier, resolve: Resolver, at: Time)
    requires i.Valid() && v.Valid() && v.issuerID == i.issuerID && hop.jti != ""
    requires Issue(hop.keys, Derive(i, ReissueCall(hop, context), hop.issuedAt, hop.jti)).Ok?
    requires hop.keys.Ok? && Resolves(resolve, hop.keys.value.signing)
    ensures var next := Issue(hop.keys, Derive(i, ReissueCall(hop, context), hop.issuedAt, hop.jti)).value;
            Verify(v, Parsed(next.token), hop.destination, resolve, at) == Ok(next.claims) <==>
            Truncate(hop.issuedAt) - v.leeway <= at < FullTerm(i, hop.issuedAt) + v.leeway
  {
    var call := ReissueCall(hop, context);
    if hop.asMachine {
      var named := MachineOrigin(call.machine, "txn");
      assert Derive(i, named, hop.issuedAt, hop.jti) == Derive(i, call, hop.issuedAt, hop.jti);
      ServiceLifetime(i, named, hop.issuedAt, hop.jti);
      IssueThenVerify(i, v, hop.keys, named, hop.issuedAt, hop.jti, resolve, at);
    } else {
      ServiceLifetime(i, call, hop.issuedAt, hop.jti);
      IssueThenVerify(i, v, hop.keys, call, hop.issuedAt, hop.jti, resolve, at);
    }
  }
}
