/** Key rotation across the issuing gateway, the published documents and the verifiers' caches
    (issuer/signer.go, jwks/cache.go, and the rotation timeline of the gateway documentation). */
module Rotation {
  import opened Errors
  import opened InternalJwt
  import opened Jwk
  import opened KeyDocument
  import opened KeyCache
  import opened CacheRuns
  import Signer
  import Issuer
  import Verifier

  /** The key set the operator has in force at each time. */
  type Deployment = Time -> Signer.KeySet

  /** The document of this set reads as these keys. */
  predicate Publishes(k: Signer.KeySet, keys: Keys) {
    && Signer.Document(Ok(k)).Ok?
    && KeysOf(Listing(Signer.Document(Ok(k)).value)) == Ok(keys)
  }

  /** An instance of the gateway works with a set that was in force at most `lag` ago; different
      instances may differ. This is what any of them may publish at time `t`. */
  ghost function ServedBy(deployed: Deployment, lag: Time): Served {
    (t: Time, keys: Keys) => exists l :: t - lag <= l <= t && Publishes(deployed(l), keys)
  }

  /** What was served, by a clock that runs `ahead` of true time. */
  ghost function OnClock(served: Served, ahead: Time): Served {
    (t: Time, keys: Keys) => served(t - ahead, keys)
  }

  /** Some instance may sign under this kid at time `t`. */
  ghost predicate MaySign(deployed: Deployment, lag: Time, t: Time, keyID: string) {
    exists l :: t - lag <= l <= t && deployed(l).signing.keyID == keyID
  }

  ghost predicate Carries(k: Signer.KeySet, keyID: string, key: PublicKey) {
    exists i :: 0 <= i < |Signer.Named(k)| && Signer.Named(k)[i] == Signer.PublishedKey(keyID, Some(key))
  }

  /** The assumption rotation rests on: no set ever deployed gives the kid to another key. */
  ghost predicate OneKeyPerKid(deployed: Deployment, keyID: string, key: PublicKey) {
    forall l, i :: 0 <= i < |Signer.Named(deployed(l))| && Signer.Named(deployed(l))[i].keyID == keyID ==>
      Signer.Named(deployed(l))[i].key == Some(key)
  }

  /** The life of one kid: in every deployed set from `published` until `dropped`, signing only
      from `signs` until `retires`. An absent time is "always" or "never". */
  datatype Terms = Terms(published: Option<Time>, signs: Option<Time>, retires: Option<Time>, dropped: Option<Time>)

  predicate Since(l: Time, from: Option<Time>) { from.None? || from.value <= l }
  predicate Until(l: Time, end: Option<Time>) { end.None? || l < end.value }

  ghost predicate Kept(deployed: Deployment, keyID: string, key: PublicKey, terms: Terms) {
    && (forall l :: Since(l, terms.published) && Until(l, terms.dropped) ==> Carries(deployed(l), keyID, key))
    && (forall l :: deployed(l).signing.keyID == keyID ==> Since(l, terms.signs) && Until(l, terms.retires))
  }

  /** The waits: publication comes long enough before the first signature, and removal long enough
      after the last. */
  predicate WaitsOut(terms: Terms, beforeSigning: Time, beforeDropping: Time) {
    && (terms.published.Some? ==> terms.signs.Some? && terms.signs.value >= terms.published.value + beforeSigning)
    && (terms.dropped.Some? ==> terms.retires.Some? && terms.dropped.value >= terms.retires.value + beforeDropping)
  }

  lemma SameKeyUnderKid(k: Signer.KeySet, keyID: string, key: PublicKey, keys: Keys)
    requires Publishes(k, keys)
    requires forall i :: 0 <= i < |Signer.Named(k)| && Signer.Named(k)[i].keyID == keyID ==>
               Signer.Named(k)[i].key == Some(key)
    ensures keyID in keys ==> keys[keyID] == key
    ensures Carries(k, keyID, key) <==> keyID in keys
  {
    PublishThenParse(k);
    var named := Signer.Named(k);
    if keyID in keys {
      var i :| 0 <= i < |named| && named[i].keyID == keyID;
      assert named[i] == Signer.PublishedKey(keyID, Some(keys[keyID]));
    }
  }

  /** Any document served while the key is deployed reads as that key under that kid. */
  lemma ServedReadsKey(deployed: Deployment, lag: Time, t: Time, keys: Keys, keyID: string, key: PublicKey)
    requires OneKeyPerKid(deployed, keyID, key) && ServedBy(deployed, lag)(t, keys)
    ensures keyID in keys ==> keys[keyID] == key
    ensures (forall l :: t - lag <= l <= t ==> Carries(deployed(l), keyID, key)) ==> keyID in keys
  {
    var l :| t - lag <= l <= t && Publishes(deployed(l), keys);
    SameKeyUnderKid(deployed(l), keyID, key, keys);
  }

  lemma GivesTheKey(deployed: Deployment, lag: Time, from: Time, to: Time,
                    keyID: string, key: PublicKey, given: PublicKey)
    requires OneKeyPerKid(deployed, keyID, key)
    requires WasNamed(ServedBy(deployed, lag), from, to, keyID, given)
    ensures given == key
  {
    var served := ServedBy(deployed, lag);
    var t, keys :| served(t, keys) && from < t <= to && keyID in keys && keys[keyID] == given;
    ServedReadsKey(deployed, lag, t, keys, keyID, key);
  }

  lemma NeverLacked(deployed: Deployment, lag: Time, from: Time, to: Time, keyID: string, key: PublicKey)
    requires OneKeyPerKid(deployed, keyID, key)
    requires forall l :: from - lag < l <= to ==> Carries(deployed(l), keyID, key)
    ensures !Lacked(ServedBy(deployed, lag), from, to, keyID)
  {
    var served := ServedBy(deployed, lag);
    forall t, keys | served(t, keys) && from < t <= to ensures keyID in keys {
      ServedReadsKey(deployed, lag, t, keys, keyID, key);
    }
  }

  /** While a token signed under the kid is inside its window, every set that may back an answer
      to its lookup carries the key. */
  lemma CarriedThroughout(deployed: Deployment, lag: Time, recent: Time, keyID: string, key: PublicKey, terms: Terms,
                          reach: Time, issuedAt: Time, now: Time, end: Time)
    requires Kept(deployed, keyID, key, terms) && MaySign(deployed, lag, issuedAt, keyID)
    requires WaitsOut(terms, lag + recent, lag + reach) && issuedAt <= now && end < issuedAt + reach
    ensures forall l :: now - recent - lag < l <= end ==> Carries(deployed(l), keyID, key)
  {
    var signed :| issuedAt - lag <= signed <= issuedAt && deployed(signed).signing.keyID == keyID;
  }

  /** How far the issuing gateway's and the verifier's clock run ahead of true time. */
  datatype Clocks = Clocks(issuer: Time, verifier: Time)

  lemma NamedOnClock(served: Served, ahead: Time, from: Time, to: Time, keyID: string, key: PublicKey)
    requires WasNamed(OnClock(served, ahead), from, to, keyID, key)
    ensures WasNamed(served, from - ahead, to - ahead, keyID, key)
  {
    var t, keys :| OnClock(served, ahead)(t, keys) && from < t <= to && keyID in keys && keys[keyID] == key;
    assert served(t - ahead, keys);
  }

  lemma LackedOnClock(served: Served, ahead: Time, from: Time, to: Time, keyID: string)
    requires Lacked(OnClock(served, ahead), from, to, keyID)
    ensures Lacked(served, from - ahead, to - ahead, keyID)
  {
    var t, keys :| OnClock(served, ahead)(t, keys) && from < t <= to && keyID !in keys;
    assert served(t - ahead, keys);
  }

  /** What the lookup for a genuine token may answer: its signing key, or any failure but an unknown
      kid. */
  predicate RightOrUnavailable(answer: Result<PublicKey>, key: PublicKey) {
    if answer.Ok? then answer.value == key else !Is(answer.error, ErrUnknownKeyID)
  }

  /** An answer resting on a served document is right while the key is in every document it may
      rest on. */
  lemma GroundedIsRight(config: Config, deployed: Deployment, lag: Time, bound: Time, ahead: Time, e: Event,
                        answer: Result<PublicKey>, key: PublicKey)
    requires e.KeyCall? && Grounded(config, OnClock(ServedBy(deployed, lag), ahead), bound, e, answer)
    requires OneKeyPerKid(deployed, e.keyID, key)
    requires forall l :: e.now - ahead - Shorter(config) - bound - lag < l <= e.returned - ahead ==>
               Carries(deployed(l), e.keyID, key)
    ensures RightOrUnavailable(answer, key)
  {
    var served := ServedBy(deployed, lag);
    var to := e.returned;
    if answer.Ok? {
      var from := e.now - config.cacheTTL - bound;
      NamedOnClock(served, ahead, from, to, e.keyID, answer.value);
      GivesTheKey(deployed, lag, from - ahead, to - ahead, e.keyID, key, answer.value);
    } else if Is(answer.error, ErrUnknownKeyID) {
      var from := e.now - Shorter(config) - bound;
      LackedOnClock(served, ahead, from, to, e.keyID);
      NeverLacked(deployed, lag, from - ahead, to - ahead, e.keyID, key);
    }
  }

  /** Rotation safety: if a kid names one key and both waits are kept, a lookup made for a token
      signed under that kid, by any verifier's cache in any reachable state, gives exactly that
      key or fails to fetch as long as it returns while the token is inside `exp + leeway`. It
      never calls the kid unknown and never gives another key.

      The clocks may be wrong: the token is signed at the true time `signedAt` and dated by the
      gateway's clock; the lookup and the token's end are read on the verifier's. The old key stays
      for the skew as well; the wait before signing does not depend on it. */
  lemma RotationSafety(config: Config, deployed: Deployment, lag: Time, bound: Time, log: seq<Event>, e: Event,
                       key: PublicKey, terms: Terms, ttl: Time, leeway: Time,
                       clocks: Clocks, skew: Time, signedAt: Time, exp: Time)
    requires config.Positive() && bound >= 0 && e.KeyCall? && clocks.issuer - clocks.verifier <= skew
    requires Supplied(config, e.fetch) && AllSupplied(config, log) && LegalLog(config, log + [e])
    requires Honest(config, OnClock(ServedBy(deployed, lag), clocks.verifier), bound, log + [e])
    requires OneKeyPerKid(deployed, e.keyID, key) && Kept(deployed, e.keyID, key, terms)
    requires WaitsOut(terms, lag + Shorter(config) + bound, lag + ttl + leeway + skew)
    requires MaySign(deployed, lag, signedAt, e.keyID) && exp <= signedAt + clocks.issuer + ttl
    requires signedAt + clocks.verifier <= e.now && e.returned < exp + leeway
    ensures RightOrUnavailable(Answer(config, Replay(config, log), e), key)
  {
    var ahead := clocks.verifier;
    AnswerRestsOnOneDocument(config, OnClock(ServedBy(deployed, lag), ahead), bound, log, e);
    CarriedThroughout(deployed, lag, Shorter(config) + bound, e.keyID, key, terms, ttl + leeway + skew, signedAt,
                      e.now - ahead, e.returned - ahead);
    GroundedIsRight(config, deployed, lag, bound, ahead, e, Answer(config, Replay(config, log), e), key);
  }

  // ---- The documented rotation ----------------------------------------------------------------------

  /** The documented periodic rotation: the new key joins the published set at `added` while the
      old one still signs, takes over at `switched`, and the old one leaves at `removed`. */
  datatype Rotation = Rotation(added: Time, switched: Time, removed: Time) {
    function Incoming(): Terms { Terms(Some(added), Some(switched), None, None) }
    function Outgoing(): Terms { Terms(None, None, Some(switched), Some(removed)) }
  }

  /** The deployment follows the rotation. */
  ghost predicate Rotates(deployed: Deployment, r: Rotation, outgoing: Signer.SigningKey, incoming: Signer.SigningKey)
    requires outgoing.key.Some? && incoming.key.Some?
  {
    && outgoing.keyID != incoming.keyID && r.added <= r.switched <= r.removed
    && (forall l :: deployed(l).signing == if l < r.switched then outgoing else incoming)
    && (forall l :: r.added <= l ==> Carries(deployed(l), incoming.keyID, incoming.key.value.public))
    && (forall l :: l < r.removed ==> Carries(deployed(l), outgoing.keyID, outgoing.key.value.public))
  }

  lemma RotationKeepsBoth(deployed: Deployment, r: Rotation, outgoing: Signer.SigningKey, incoming: Signer.SigningKey)
    requires outgoing.key.Some? && incoming.key.Some? && Rotates(deployed, r, outgoing, incoming)
    ensures Kept(deployed, incoming.keyID, incoming.key.value.public, r.Incoming())
    ensures Kept(deployed, outgoing.keyID, outgoing.key.value.public, r.Outgoing())
  {}

  const DOCUMENTED_WAIT: Time := 15 * MINUTE

  /** With the default configuration, fifteen minutes before the switch and the token TTL plus the
      cache TTL after it satisfy both waits exactly when provider lag and clock skew together stay
      within four and a half minutes. */
  lemma DocumentedWaitsSuffice(r: Rotation, lag: Time, skew: Time, raw: RawConfig)
    requires lag >= 0 && skew >= 0 && raw.cacheTTL == 0 && raw.refreshCooldown == 0
    requires r.switched == r.added + DOCUMENTED_WAIT
    requires r.removed == r.switched + Issuer.DEFAULT_TTL + DEFAULT_CACHE_TTL
    ensures var before := lag + Shorter(Effective(raw)) + DEFAULT_FETCH_TIMEOUT;
            var after := lag + Issuer.DEFAULT_TTL + Verifier.DEFAULT_LEEWAY + skew;
            WaitsOut(r.Incoming(), before, after) && WaitsOut(r.Outgoing(), before, after) <==>
            lag + skew <= 270 * SECOND
  {}
}
