/** The authorization decision on one call (interceptor/interceptor.go, verifier/bearer.go). */
module Interceptor {
  import opened Errors
  import opened InternalJwt
  import opened Text

  datatype Level = LevelUnspecified | LevelPublic | LevelAuthenticated | LevelInternal | LevelOther(n: int)

  datatype Policy = Policy(level: Level, requiredScopes: seq<string>, tokenUses: seq<string>)

  /** The settings an option adjusts; `reporting` is whether a reporter was given. */
  datatype Options = Options(
    authenticatedTokenUses: seq<string>, tokenUses: map<string, seq<string>>, reporting: bool)

  datatype Code = CodeUnauthenticated | CodePermissionDenied | CodeUnavailable | CodeInternal

  /** `Allowed` carries the claims the handler sees, none for a public procedure. */
  datatype Decision = Allowed(claims: Option<Claims>) | Rejected(code: Code, error: Error)

  /** The token verifier, by token text. */
  type TokenVerifier = string -> Result<Claims>

  function BearerToken(authorization: string): Result<string> {
    if authorization == "" then Err(Plain(ErrMissingAuthorization))
    else match Cut(authorization)
      case None => Err(Plain(ErrMalformedAuthorization))
      case Some((scheme, token)) =>
        if !EqualFold(scheme, "Bearer") then Err(Plain(ErrMalformedAuthorization))
        else if token == "" || HasSpace(token) then Err(Plain(ErrMalformedAuthorization))
        else Ok(token)
  }

  function DefaultTokenUses(level: Level): Result<seq<string>> {
    match level
    case LevelInternal => Ok([SERVICE])
    case LevelPublic => Ok([])
    case LevelAuthenticated => Ok([TENANT_ACCESS])
    case LevelUnspecified => Err(Plain(ErrUnknownLevel))
    case LevelOther(_) => Err(Plain(ErrUnknownLevel))
  }

  function AcceptedTokenUses(policy: Policy, options: Options, procedure: string): Result<seq<string>> {
    match DefaultTokenUses(policy.level)
    case Err(e) => Err(e)
    case Ok(defaults) =>
      if policy.tokenUses != [] then Ok(policy.tokenUses)
      else if procedure in options.tokenUses && options.tokenUses[procedure] != [] then Ok(options.tokenUses[procedure])
      else if policy.level == LevelAuthenticated && options.authenticatedTokenUses != [] then
        Ok(options.authenticatedTokenUses)
      else Ok(defaults)
  }

  /** The required scopes not granted, in the order required. */
  function Ungranted(required: seq<string>, granted: seq<string>): seq<string> {
    if required == [] then []
    else
      var n := |required| - 1;
      Ungranted(required[..n], granted) + if required[n] in granted then [] else [required[n]]
  }

  method MissingScopes(required: seq<string>, scope: string) returns (missing: seq<string>)
    ensures missing == Ungranted(required, Fields(scope))
  {
    var granted := Fields(scope);
    missing := [];
    var i := 0;
    while i < |required|
      invariant 0 <= i <= |required|
      invariant missing == Ungranted(required[..i], granted)
    {
      var want := required[i];
      assert required[..i + 1][..i] == required[..i];
      if want !in granted {
        missing := missing + [want];
      }
      i := i + 1;
    }
    assert required[..i] == required;
  }

  lemma {:induction false} UngrantedCorrect(required: seq<string>, granted: seq<string>)
    ensures forall s :: s in Ungranted(required, granted) <==> s in required && s !in granted
    ensures Ungranted(required, granted) == [] <==> forall s :: s in required ==> s in granted
  {
    if required != [] {
      var n := |required| - 1;
      UngrantedCorrect(required[..n], granted);
      assert required == required[..n] + [required[n]];
    }
  }

  /** `check`. */
  function Check(policy: Policy, options: Options, procedure: string,
                 authorization: string, verify: TokenVerifier): Decision
  {
    match AcceptedTokenUses(policy, options, procedure)
    case Err(e) => Rejected(CodeInternal, e)
    case Ok(uses) =>
      var verified := match BearerToken(authorization) case Err(e) => Err(e) case Ok(token) => verify(token);
      match verified
      case Err(e) =>
        if Is(e, ErrKeyResolution) then Rejected(CodeUnavailable, Wrapping(ErrUnavailable, e))
        else Rejected(CodeUnauthenticated, Wrapping(ErrUnauthenticated, e))
      case Ok(c) =>
        if c.tokenUse !in uses then Rejected(CodeUnauthenticated, Plain(ErrTokenUse))
        else if c.tokenUse == SERVICE then Allowed(Some(c))
        else if Ungranted(policy.requiredScopes, Fields(c.scope)) != [] then
          Rejected(CodePermissionDenied, Plain(ErrRequiredScope))
        else Allowed(Some(c))
  }

  type Policies = map<string, Policy>

  /** `authorize`. */
  function Decide(policies: Policies, options: Options, procedure: string,
                  authorization: string, verify: TokenVerifier): Decision
  {
    if procedure !in policies then Rejected(CodeInternal, Plain(ErrUnknownProcedure))
    else if policies[procedure].level == LevelPublic then Allowed(None)
    else Check(policies[procedure], options, procedure, authorization, verify)
  }

  predicate KnownLevel(level: Level) {
    level == LevelAuthenticated || level == LevelInternal
  }

  /** The call reaches the token verifier, with this token. */
  predicate Consults(policies: Policies, procedure: string, authorization: string) {
    && procedure in policies && KnownLevel(policies[procedure].level) && BearerToken(authorization).Ok?
  }

  /** The interceptor with what it does to the outside: the rejections it reports and the tokens
      it hands to the verifier. */
  class Interceptor {
    const policies: Policies
    const options: Options
    var reports: seq<(string, Error)>
    var consulted: seq<string>

    constructor (policies: Policies, options: Options)
      ensures this.policies == policies && this.options == options && reports == [] && consulted == []
    {
      this.policies, this.options := policies, options;
      reports, consulted := [], [];
    }

    method Report(procedure: string, err: Error)
      modifies `reports
      ensures reports == old(reports) + if options.reporting then [(procedure, err)] else []
    {
      if !options.reporting {
        return;
      }
      reports := reports + [(procedure, err)];
    }

    method VerifyHeader(authorization: string, verify: TokenVerifier) returns (result: Result<Claims>)
      modifies `consulted
      ensures BearerToken(authorization).Err? ==>
                consulted == old(consulted) && result == Err(BearerToken(authorization).error)
      ensures BearerToken(authorization).Ok? ==>
                && consulted == old(consulted) + [BearerToken(authorization).value]
                && result == verify(BearerToken(authorization).value)
    {
      var token := BearerToken(authorization);
      if token.Err? {
        return Err(token.error);
      }
      consulted := consulted + [token.value];
      result := verify(token.value);
    }

    method CheckCall(procedure: string, policy: Policy, authorization: string, verify: TokenVerifier)
      returns (decision: Decision)
      requires procedure in policies && policies[procedure] == policy && policy.level != LevelPublic
      modifies `consulted
      ensures decision == Check(policy, options, procedure, authorization, verify)
      ensures consulted == old(consulted) +
                if Consults(policies, procedure, authorization) then [BearerToken(authorization).value] else []
    {
      var uses := AcceptedTokenUses(policy, options, procedure);
      if uses.Err? {
        return Rejected(CodeInternal, uses.error);
      }
      var claims := VerifyHeader(authorization, verify);
      if claims.Err? {
        if Is(claims.error, ErrKeyResolution) {
          return Rejected(CodeUnavailable, Wrapping(ErrUnavailable, claims.error));
        }
        return Rejected(CodeUnauthenticated, Wrapping(ErrUnauthenticated, claims.error));
      }
      if claims.value.tokenUse !in uses.value {
        return Rejected(CodeUnauthenticated, Plain(ErrTokenUse));
      }
      if claims.value.tokenUse == SERVICE {
        return Allowed(Some(claims.value));
      }
      var missing := MissingScopes(policy.requiredScopes, claims.value.scope);
      if |missing| > 0 {
        return Rejected(CodePermissionDenied, Plain(ErrRequiredScope));
      }
      return Allowed(Some(claims.value));
    }

    /** Every rejection is reported once, with its own error; an acceptance never. The verifier is
        asked once at most, and never about a public, unnamed or unknown-level procedure. */
    method Authorize(procedure: string, authorization: string, verify: TokenVerifier) returns (decision: Decision)
      modifies this
      ensures decision == Decide(policies, options, procedure, authorization, verify)
      ensures reports == old(reports) +
                if decision.Rejected? && options.reporting then [(procedure, decision.error)] else []
      ensures consulted == old(consulted) +
                if Consults(policies, procedure, authorization) then [BearerToken(authorization).value] else []
    {
      if procedure !in policies {
        Report(procedure, Plain(ErrUnknownProcedure));
        return Rejected(CodeInternal, Plain(ErrUnknownProcedure));
      }
      var policy := policies[procedure];
      if policy.level == LevelPublic {
        return Allowed(None);
      }
      decision := CheckCall(procedure, policy, authorization, verify);
      if decision.Rejected? {
        Report(procedure, decision.error);
      }
    }
  }

  // ---- The decision, exactly ----------------------------------------------------------------------

  /** A header is usable exactly when it is the scheme in any case, one space, and a token that is
      not empty and holds no white space. */
  lemma BearerTokenIff(authorization: string, token: string)
    ensures BearerToken(authorization) == Ok(token) <==>
            && |authorization| > 7
            && SameLetter(authorization[0], 'B', 'b') && SameLetter(authorization[1], 'E', 'e')
            && SameLetter(authorization[2], 'A', 'a') && SameLetter(authorization[3], 'R', 'r')
            && SameLetter(authorization[4], 'E', 'e') && SameLetter(authorization[5], 'R', 'r')
            && authorization[6] == ' '
            && token == authorization[7..] && !HasSpace(token)
  {
    CutSplits(authorization);
    if |authorization| > 7 { BearerInAnyCase(authorization[..6]); }
    if |authorization| > 7 && EqualFold(authorization[..6], "Bearer") && authorization[6] == ' ' {
      assert authorization[6..7] == " ";
      assert authorization == authorization[..6] + authorization[6..7] + authorization[7..];
      forall i | 0 <= i < 6 ensures authorization[..6][i] != ' ' {
        assert Lower(authorization[..6][i]) == Lower("Bearer"[i]);
      }
      CutAt(authorization[..6], authorization[7..]);
    }
  }

  /** The setting made for one procedure; an absent one is empty. */
  function Setting(options: Options, procedure: string): seq<string> {
    if procedure in options.tokenUses then options.tokenUses[procedure] else []
  }

  /** The uses a procedure accepts: those its policy names; where it names none, those set for the
      procedure; where neither names any, a service token for an internal procedure, and for an
      authenticated one the service-wide uses or, where there are none, tenant access. */
  predicate Accepts(policy: Policy, options: Options, procedure: string, tokenUse: string) {
    || tokenUse in policy.tokenUses
    || (policy.tokenUses == [] && tokenUse in Setting(options, procedure))
    || (&& policy.tokenUses == [] && Setting(options, procedure) == []
        && LevelAccepts(policy.level, options.authenticatedTokenUses, tokenUse))
  }

  predicate LevelAccepts(level: Level, serviceWide: seq<string>, tokenUse: string) {
    || (level == LevelInternal && tokenUse == SERVICE)
    || (level == LevelAuthenticated && tokenUse in serviceWide)
    || (level == LevelAuthenticated && serviceWide == [] && tokenUse == TENANT_ACCESS)
  }

  lemma AcceptedUsesAre(policy: Policy, options: Options, procedure: string, tokenUse: string)
    requires KnownLevel(policy.level)
    ensures AcceptedTokenUses(policy, options, procedure).Ok?
    ensures tokenUse in AcceptedTokenUses(policy, options, procedure).value <==>
            Accepts(policy, options, procedure, tokenUse)
  {}

  predicate Granted(policy: Policy, c: Claims) {
    c.tokenUse == SERVICE || forall s :: s in policy.requiredScopes ==> s in Fields(c.scope)
  }

  /** What the check makes of a token that verified. */
  lemma VerifiedToken(policy: Policy, options: Options, procedure: string, authorization: string,
                      verify: TokenVerifier, c: Claims)
    requires KnownLevel(policy.level) && BearerToken(authorization).Ok?
    requires verify(BearerToken(authorization).value) == Ok(c)
    ensures var decision := Check(policy, options, procedure, authorization, verify);
            if !Accepts(policy, options, procedure, c.tokenUse) then
              decision == Rejected(CodeUnauthenticated, Plain(ErrTokenUse))
            else if !Granted(policy, c) then decision == Rejected(CodePermissionDenied, Plain(ErrRequiredScope))
            else decision == Allowed(Some(c))
  {
    AcceptedUsesAre(policy, options, procedure, c.tokenUse);
    UngrantedCorrect(policy.requiredScopes, Fields(c.scope));
  }

  /** The handler runs exactly for a named procedure that is public, or whose level is known and
      whose caller presents a header that parses, a token that verifies and is of an accepted use,
      and every required scope unless it is a service token. */
  lemma AuthorizedIff(policies: Policies, options: Options, procedure: string, authorization: string,
                      verify: TokenVerifier)
    ensures Decide(policies, options, procedure, authorization, verify).Allowed? <==>
            && procedure in policies
            && var policy := policies[procedure];
               || policy.level == LevelPublic
               || (&& KnownLevel(policy.level) && BearerToken(authorization).Ok?
                   && var verified := verify(BearerToken(authorization).value);
                      && verified.Ok? && Accepts(policy, options, procedure, verified.value.tokenUse)
                      && Granted(policy, verified.value))
  {
    if Consults(policies, procedure, authorization) {
      var verified := verify(BearerToken(authorization).value);
      if verified.Ok? {
        VerifiedToken(policies[procedure], options, procedure, authorization, verify, verified.value);
      }
    }
  }

  /** Which code a rejection carries. */
  lemma RejectionCode(policies: Policies, options: Options, procedure: string, authorization: string,
                      verify: TokenVerifier)
    requires Decide(policies, options, procedure, authorization, verify).Rejected?
    ensures var code := Decide(policies, options, procedure, authorization, verify).code;
            && (code == CodeInternal <==> procedure !in policies || !KnownLevel(policies[procedure].level))
            && (code == CodeUnavailable <==>
                  && Consults(policies, procedure, authorization)
                  && var verified := verify(BearerToken(authorization).value);
                     verified.Err? && Is(verified.error, ErrKeyResolution))
            && (code == CodePermissionDenied <==>
                  && Consults(policies, procedure, authorization)
                  && var verified := verify(BearerToken(authorization).value);
                     && verified.Ok? && Accepts(policies[procedure], options, procedure, verified.value.tokenUse)
                     && !Granted(policies[procedure], verified.value))
  {
    if Consults(policies, procedure, authorization) {
      var verified := verify(BearerToken(authorization).value);
      if verified.Ok? {
        VerifiedToken(policies[procedure], options, procedure, authorization, verify, verified.value);
      }
    } else {
      UnconsultedCode(policies, options, procedure, authorization, verify);
    }
  }

  lemma UnconsultedCode(policies: Policies, options: Options, procedure: string, authorization: string,
                        verify: TokenVerifier)
    requires !Consults(policies, procedure, authorization)
    requires Decide(policies, options, procedure, authorization, verify).Rejected?
    ensures Decide(policies, options, procedure, authorization, verify).code ==
            if procedure !in policies || !KnownLevel(policies[procedure].level) then CodeInternal
            else CodeUnauthenticated
  {
    assert forall e :: BearerToken(authorization) == Err(e) ==> !Is(e, ErrKeyResolution);
  }

  /** What the handler sees: nothing for a public procedure, else the claims that verified. */
  lemma AllowedWith(policies: Policies, options: Options, procedure: string, authorization: string,
                    verify: TokenVerifier, claims: Option<Claims>)
    requires Decide(policies, options, procedure, authorization, verify) == Allowed(claims)
    ensures procedure in policies
    ensures policies[procedure].level == LevelPublic ==> claims == None
    ensures policies[procedure].level != LevelPublic ==>
              BearerToken(authorization).Ok? && claims.Some?
              && verify(BearerToken(authorization).value) == Ok(claims.value)
  {}

  /** The error of a rejection says why, and keeps the verifier's own error. */
  lemma RejectedWith(policies: Policies, options: Options, procedure: string, authorization: string,
                     verify: TokenVerifier)
    requires Decide(policies, options, procedure, authorization, verify).Rejected?
    ensures var e := Decide(policies, options, procedure, authorization, verify).error;
            && (procedure !in policies ==> e == Plain(ErrUnknownProcedure))
            && (procedure in policies && !KnownLevel(policies[procedure].level) ==> e == Plain(ErrUnknownLevel))
            && (procedure in policies && KnownLevel(policies[procedure].level) && BearerToken(authorization).Err? ==>
                  e == Wrapping(ErrUnauthenticated, BearerToken(authorization).error))
            && (Consults(policies, procedure, authorization) ==>
                  var verified := verify(BearerToken(authorization).value);
                  if verified.Err? then
                    e == Wrapping(if Is(verified.error, ErrKeyResolution) then ErrUnavailable else ErrUnauthenticated,
                                  verified.error)
                  else if Accepts(policies[procedure], options, procedure, verified.value.tokenUse) then
                    e == Plain(ErrRequiredScope)
                  else e == Plain(ErrTokenUse))
  {
    if Consults(policies, procedure, authorization) {
      var verified := verify(BearerToken(authorization).value);
      if verified.Ok? {
        VerifiedToken(policies[procedure], options, procedure, authorization, verify, verified.value);
      }
    }
  }

  /** What is missing of two lists of requirements is what is missing of each, in order. */
  lemma {:induction false} UngrantedInOrder(required: seq<string>, more: seq<string>, granted: seq<string>)
    ensures Ungranted(required + more, granted) == Ungranted(required, granted) + Ungranted(more, granted)
  {
    if more == [] {
      assert required + more == required;
    } else {
      var n := |more| - 1;
      UngrantedInOrder(required, more[..n], granted);
      assert (required + more)[..|required| + n] == required + more[..n];
      assert (required + more)[|required| + n] == more[n];
    }
  }
}
