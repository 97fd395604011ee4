/** Concrete inputs at which the code does not do what is written about it, or what one might
    expect of it. */
module Differences {
  import opened Errors
  import opened InternalJwt
  import opened Jwk
  import opened Wire
  import opened Verifier
  import opened NonInterference
  import I = Interceptor
  import Signer
  import FileKeys
  import Text

  const GATEWAY: Verifier := Verifier("gateway", 0)
  const ISSUED: Time := 60 * SECOND
  const NOW: Time := 100 * SECOND
  const ENDS: Time := 180 * SECOND

  /** A machine-origin service token for `orders`, with this scope and source expiry. */
  function ServiceClaims(scope: string, sourceExpiresAt: Option<Time>): Claims {
    Claims(
      "gateway", "billing", ["orders"], Some(ENDS), Some(ISSUED), Some(ISSUED), "j1",
      SERVICE, "billing", "t1", scope, "", sourceExpiresAt, "", "", "")
  }

  /** The claims in their wire form, signed with the generator as key. */
  function Sealed(c: Claims): Token
    requires |c.audience| == 1
  {
    var header := Header(ALGORITHM, Some("JWT"), Some("k1"));
    var payload := NewSignedClaims(c).value;
    Token(header, payload, SignedBy(BASE_POINT, header, payload))
  }

  function OneKey(): Resolver {
    (keyID: string) => Ok(Some(BASE_POINT))
  }

  lemma SealedIsRead(c: Claims)
    requires |c.audience| == 1 && WholeSeconds(c)
    ensures Decodable(Sealed(c).payload) && Decode(Sealed(c).payload) == c
  {
    Wire.RoundTrip(c);
  }

  lemma MachineTokenVerifies(sourceExpiresAt: Option<Time>)
    requires WholeSecond(sourceExpiresAt)
    ensures var c := ServiceClaims("", sourceExpiresAt);
            MachineServiceToken(c) && Verify(GATEWAY, Parsed(Sealed(c)), "orders", OneKey(), NOW) == Ok(c)
  {
    var c := ServiceClaims("", sourceExpiresAt);
    SealedIsRead(c);
    AcceptedIff(GATEWAY, Parsed(Sealed(c)), "orders", OneKey(), NOW, c);
  }

  /** A service token that carries `src_exp` verifies, which the claim table forbids. */
  lemma SourceExpiryOnServiceTokenVerifies()
    ensures var c := ServiceClaims("", Some(ENDS));
            && c.tokenUse == SERVICE && c.sourceExpiresAt.Some?
            && Verify(GATEWAY, Parsed(Sealed(c)), "orders", OneKey(), NOW) == Ok(c)
  {
    MachineTokenVerifies(Some(ENDS));
  }

  const POLICIES: I.Policies := map["/orders" := I.Policy(I.LevelInternal, [], [])]
  const OPTIONS: I.Options := I.Options([], map[], false)

  function Call(scope: string): I.Decision {
    I.Decide(POLICIES, OPTIONS, "/orders", "Bearer token",
             Presenting(GATEWAY, Sealed(ServiceClaims(scope, None)), "orders", OneKey(), NOW))
  }

  lemma HeaderParses()
    ensures I.BearerToken("Bearer token") == Ok("token")
  {
    var header, token := "Bearer token", "token";
    assert header[..6] == "Bearer" && header[7..] == token;
    assert !Text.HasSpace(token);
    I.BearerTokenIff(header, token);
  }

  lemma WithoutScopeAllowed()
    ensures Call("").Allowed?
  {
    HeaderParses();
    MachineTokenVerifies(None);
    var verify := Presenting(GATEWAY, Sealed(ServiceClaims("", None)), "orders", OneKey(), NOW);
    I.AuthorizedIff(POLICIES, OPTIONS, "/orders", "Bearer token", verify);
  }

  lemma ScopeAdded(c: Claims, d: Claims)
    requires c == ServiceClaims("", None) && d == ServiceClaims("orders.read", None)
    ensures RescopedTokens(Sealed(c), Sealed(d))
    ensures Decode(Sealed(c).payload) == c && Decode(Sealed(d).payload) == d
    ensures Widened(c.scope, d.scope) && MachineServiceToken(c)
  {
    SealedIsRead(c);
    SealedIsRead(d);
  }

  /** A machine's call is accepted; the same token with a scope added is rejected. */
  lemma AddedScopeRejects()
    ensures Call("").Allowed? && Call("orders.read").Rejected?
  {
    HeaderParses();
    WithoutScopeAllowed();
    var c, d := ServiceClaims("", None), ServiceClaims("orders.read", None);
    ScopeAdded(c, d);
    AddingScopes(POLICIES, OPTIONS, "/orders", "Bearer token", GATEWAY, Sealed(c), Sealed(d), "orders", OneKey(), NOW);
  }

  const ONE_FILE: FileKeys.Config := FileKeys.Config(FileKeys.KeyFile("/keys/signing.pem", "k1"), [], MINUTE)

  function Holding(key: PublicKey): FileKeys.Disk {
    FileKeys.Disk(Ok(PrivateKey(key)), [])
  }

  /** Replacing a key file changes the key under its kid: both contents load, under one kid. */
  lemma KidChangesItsKey()
    ensures FileKeys.Sound(Holding(BASE_POINT)) && FileKeys.Sound(Holding(MIRROR_POINT))
    ensures var before := FileKeys.Loaded(ONE_FILE, Holding(BASE_POINT));
            var later := FileKeys.Loaded(ONE_FILE, Holding(MIRROR_POINT));
            && before.Ok? && later.Ok?
            && before.value.signing.keyID == later.value.signing.keyID == "k1"
            && before.value.signing.key != later.value.signing.key
  {
    BasePointIsUsable();
    MirrorPointIsUsable();
  }
}
