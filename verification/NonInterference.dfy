/** What the decision does not depend on: the audit claims' values and the spelling of scopes. */
module NonInterference {
  import opened Errors
  import opened InternalJwt
  import opened Text
  import opened Wire
  import opened Verifier
  import opened Interceptor

  /** Presenting one token: the same verdict whatever header text carried it. */
  function Presenting(v: Verifier, token: Token, audience: string, resolve: Resolver, now: Time): TokenVerifier {
    (text: string) => Verify(v, Parsed(token), audience, resolve, now)
  }

  ghost predicate SameWords(s: string, t: string) {
    forall w :: w in Fields(s) <==> w in Fields(t)
  }

  /** The same token but for the values, not the presence, of the audit claims, and for the order,
      spacing and repetition of scopes; a user-origin service token's scope may be any at all. */
  ghost predicate Alike(c: Claims, d: Claims) {
    && d == c.(txn := d.txn, originSub := d.originSub, sourceJTI := d.sourceJTI,
               sourceExpiresAt := d.sourceExpiresAt, scope := d.scope)
    && (c.txn == "" <==> d.txn == "")
    && (c.originSub == "" <==> d.originSub == "")
    && (c.sourceJTI == "" <==> d.sourceJTI == "")
    && (c.sourceExpiresAt.None? <==> d.sourceExpiresAt.None?)
    && (c.scope == "" <==> d.scope == "")
    && (SameWords(c.scope, d.scope) || (c.tokenUse == SERVICE && c.originSub != ""))
  }

  /** Two tokens of one header, signed alike, whose claims are alike. */
  ghost predicate AlikeTokens(s: Token, t: Token) {
    && s.header == t.header
    && (forall key :: SignatureValid(key, s) <==> SignatureValid(key, t))
    && Decodable(s.payload) && Decodable(t.payload)
    && Alike(Decode(s.payload), Decode(t.payload))
  }

  lemma AlikeClaims(c: Claims, d: Claims, audience: string)
    requires Alike(c, d)
    ensures ValidateClaims(c, audience).None? <==> ValidateClaims(d, audience).None?
  {
    ValidClaimsAreTheThreeKinds(c, audience);
    ValidClaimsAreTheThreeKinds(d, audience);
  }

  lemma AlikeTimes(v: Verifier, c: Claims, d: Claims, now: Time)
    requires Alike(c, d)
    ensures ValidateTimes(v, c, now) == ValidateTimes(v, d, now)
  {}

  lemma AlikeVerification(v: Verifier, s: Token, t: Token, audience: string, resolve: Resolver, now: Time)
    requires AlikeTokens(s, t)
    ensures var a, b := Verify(v, Parsed(s), audience, resolve, now), Verify(v, Parsed(t), audience, resolve, now);
            && (a.Ok? <==> b.Ok?)
            && (a.Ok? ==> Alike(a.value, b.value))
            && (a.Err? ==> (Is(a.error, ErrKeyResolution) <==> Is(b.error, ErrKeyResolution)))
  {
    ResolutionReportedIff(v, Parsed(s), audience, resolve, now);
    ResolutionReportedIff(v, Parsed(t), audience, resolve, now);
    AlikeClaims(Decode(s.payload), Decode(t.payload), audience);
    AlikeTimes(v, Decode(s.payload), Decode(t.payload), now);
    assert Parse(v, s, resolve, now).Ok? ==> Parse(v, s, resolve, now).value == Decode(s.payload);
    assert Parse(v, t, resolve, now).Ok? ==> Parse(v, t, resolve, now).value == Decode(t.payload);
    assert Parse(v, s, resolve, now).Ok? <==> Parse(v, t, resolve, now).Ok?;
  }

  /** Acceptance and the returned code depend neither on the values of `txn`, `origin_sub`,
      `src_jti` and `src_exp` nor on how the scopes are written, nor on the scope of a service
      token at all. */
  lemma AuditClaimsDoNotInterfere(policies: Policies, options: Options, procedure: string, authorization: string,
                                  v: Verifier, s: Token, t: Token, audience: string, resolve: Resolver, now: Time)
    requires AlikeTokens(s, t)
    ensures var a := Decide(policies, options, procedure, authorization, Presenting(v, s, audience, resolve, now));
            var b := Decide(policies, options, procedure, authorization, Presenting(v, t, audience, resolve, now));
            (a.Allowed? <==> b.Allowed?) && (a.Rejected? ==> a.code == b.code)
  {
    AlikeVerification(v, s, t, audience, resolve, now);
    var verifyS, verifyT := Presenting(v, s, audience, resolve, now), Presenting(v, t, audience, resolve, now);
    AuthorizedIff(policies, options, procedure, authorization, verifyS);
    AuthorizedIff(policies, options, procedure, authorization, verifyT);
    if Decide(policies, options, procedure, authorization, verifyS).Rejected? {
      RejectionCode(policies, options, procedure, authorization, verifyS);
      RejectionCode(policies, options, procedure, authorization, verifyT);
    }
  }

  /** Scopes as lists: the same set of words in any order, repeated or not, with any white space
      around them, is alike. */
  lemma SpellingsOfOneScope(c: Claims, words: seq<string>, gaps: seq<string>,
                            others: seq<string>, otherGaps: seq<string>)
    requires Words(words) && Spacing(gaps, words) && Words(others) && Spacing(otherGaps, others)
    requires words != [] && others != [] && forall w :: w in words <==> w in others
    ensures Alike(c.(scope := Spread(gaps, words)), c.(scope := Spread(otherGaps, others)))
  {
    FieldsRoundTrip(gaps, words);
    FieldsRoundTrip(otherGaps, others);
  }

  /** More scopes: every word granted before is still granted, and the claim is not emptied. */
  ghost predicate Widened(s: string, t: string) {
    t != "" && forall w :: w in Fields(s) ==> w in Fields(t)
  }

  /** A token with its scope claim replaced, signed alike. */
  ghost predicate RescopedTokens(s: Token, t: Token) {
    && s.header == t.header
    && (forall key :: SignatureValid(key, s) <==> SignatureValid(key, t))
    && Decodable(s.payload) && Decodable(t.payload)
    && Decode(t.payload) == Decode(s.payload).(scope := Decode(t.payload).scope)
  }

  lemma RescopedClaims(c: Claims, d: Claims, audience: string)
    requires d == c.(scope := d.scope) && Widened(c.scope, d.scope) && ValidateClaims(c, audience).None?
    ensures ValidateClaims(d, audience).None? <==> !MachineServiceToken(c)
  {
    ValidClaimsAreTheThreeKinds(c, audience);
    ValidClaimsAreTheThreeKinds(d, audience);
  }

  lemma RescopedVerification(v: Verifier, s: Token, t: Token, audience: string, resolve: Resolver, now: Time)
    requires RescopedTokens(s, t) && Widened(Decode(s.payload).scope, Decode(t.payload).scope)
    requires Verify(v, Parsed(s), audience, resolve, now).Ok?
    ensures Verify(v, Parsed(s), audience, resolve, now) == Ok(Decode(s.payload))
    ensures var verified := Verify(v, Parsed(t), audience, resolve, now);
            && (verified.Ok? <==> !MachineServiceToken(Decode(s.payload)))
            && (verified.Ok? ==> verified.value == Decode(t.payload))
  {
    var c, d := Decode(s.payload), Decode(t.payload);
    RescopedClaims(c, d, audience);
    assert ValidateTimes(v, c, now) == ValidateTimes(v, d, now);
    assert Parse(v, s, resolve, now) == Ok(c);
    assert Parse(v, t, resolve, now) == Ok(d);
  }

  /** Adding scopes never turns acceptance into rejection, except for a machine-origin service
      token, to which any scope at all is forbidden: such a token is always rejected. */
  lemma AddingScopes(policies: Policies, options: Options, procedure: string, authorization: string,
                     v: Verifier, s: Token, t: Token, audience: string, resolve: Resolver, now: Time)
    requires RescopedTokens(s, t) && Widened(Decode(s.payload).scope, Decode(t.payload).scope)
    requires Consults(policies, procedure, authorization)
    requires Decide(policies, options, procedure, authorization, Presenting(v, s, audience, resolve, now)).Allowed?
    ensures Decide(policies, options, procedure, authorization, Presenting(v, t, audience, resolve, now)).Allowed?
            <==> !MachineServiceToken(Decode(s.payload))
  {
    AuthorizedIff(policies, options, procedure, authorization, Presenting(v, s, audience, resolve, now));
    AuthorizedIff(policies, options, procedure, authorization, Presenting(v, t, audience, resolve, now));
    RescopedVerification(v, s, t, audience, resolve, now);
  }

  /** A setting for one procedure changes no other. */
  lemma ProcedureSettingStaysLocal(policies: Policies, a: Options, b: Options, procedure: string, q: string,
                                   authorization: string, verify: TokenVerifier)
    requires a.tokenUses - {procedure} == b.tokenUses - {procedure} && q != procedure
    requires a.authenticatedTokenUses == b.authenticatedTokenUses
    ensures Decide(policies, a, q, authorization, verify) == Decide(policies, b, q, authorization, verify)
  {
    assert q in a.tokenUses <==> q in (a.tokenUses - {procedure});
    assert q in b.tokenUses <==> q in (b.tokenUses - {procedure});
    if q in a.tokenUses {
      assert a.tokenUses[q] == (a.tokenUses - {procedure})[q] == (b.tokenUses - {procedure})[q];
    }
    if q in policies {
      assert AcceptedTokenUses(policies[q], a, q) == AcceptedTokenUses(policies[q], b, q);
    }
  }

  /** The service-wide setting leaves an internal procedure alone, and one that has its own. */
  lemma ServiceWideSettingYields(policies: Policies, a: Options, b: Options, procedure: string,
                                 authorization: string, verify: TokenVerifier)
    requires a.tokenUses == b.tokenUses && procedure in policies
    requires || policies[procedure].level == LevelInternal || policies[procedure].tokenUses != []
             || (procedure in a.tokenUses && a.tokenUses[procedure] != [])
    ensures Decide(policies, a, procedure, authorization, verify)
         == Decide(policies, b, procedure, authorization, verify)
  {
    assert AcceptedTokenUses(policies[procedure], a, procedure) == AcceptedTokenUses(policies[procedure], b, procedure);
  }
}
