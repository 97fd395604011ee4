/** How long the waits of a rotation must be, exactly: `RotationSafety` says which waits suffice,
    and here any shorter one lets a run of the cache refuse a live token. */
module RotationBounds {
  import opened Errors
  import opened InternalJwt
  import opened Jwk
  import opened KeyDocument
  import opened KeyCache
  import opened CacheRuns
  import opened Rotation
  import Signer

  /** The whole life of one kid: deployed from `added` until `dropped`, signing from `signs` until
      `retires`, always for the same key, in sets that can always be published. */
  ghost predicate Lives(deployed: Deployment, keyID: string, key: PublicKey,
                        added: Time, signs: Time, retires: Time, dropped: Time) {
    && (forall l :: Signer.Document(Ok(deployed(l))).Ok?)
    && (forall l :: Carries(deployed(l), keyID, key) <==> added <= l < dropped)
    && (forall l :: deployed(l).signing.keyID == keyID <==> signs <= l < retires)
    && OneKeyPerKid(deployed, keyID, key)
  }

  lemma SignerIsCarried(deployed: Deployment, keyID: string, key: PublicKey, l: Time)
    requires OneKeyPerKid(deployed, keyID, key) && deployed(l).signing.keyID == keyID
    ensures Carries(deployed(l), keyID, key)
  {
    var first := Signer.Named(deployed(l))[0];
    assert first.keyID == keyID && first.key == Some(key);
    assert first == Signer.PublishedKey(keyID, Some(key));
  }

  /** A key signs only while it is deployed: the signing key is always in the published set. */
  lemma SignsWhileDeployed(deployed: Deployment, keyID: string, key: PublicKey,
                           added: Time, signs: Time, retires: Time, dropped: Time)
    requires Lives(deployed, keyID, key, added, signs, retires, dropped) && signs < retires
    ensures added <= signs && retires <= dropped
  {
    SignerIsCarried(deployed, keyID, key, signs);
    SignerIsCarried(deployed, keyID, key, retires - 1);
  }

  /** The schedule as a deployment, another key signing outside the term. */
  ghost function Scheduled(mine: Signer.SigningKey, other: Signer.SigningKey,
                           added: Time, signs: Time, retires: Time, dropped: Time): Deployment
    requires mine.key.Some?
  {
    (l: Time) =>
      if signs <= l < retires then Signer.KeySet(mine, [])
      else if added <= l < dropped then
        Signer.KeySet(other, [Signer.PublishedKey(mine.keyID, Some(mine.key.value.public))])
      else Signer.KeySet(other, [])
  }

  lemma ScheduledSet(mine: Signer.SigningKey, other: Signer.SigningKey, key: PublicKey,
                     added: Time, signs: Time, retires: Time, dropped: Time, l: Time)
    requires mine.key.Some? && other.key.Some? && mine.keyID != other.keyID && mine.keyID != "" && other.keyID != ""
    requires key == mine.key.value.public && Usable(key) && Usable(other.key.value.public)
    requires added <= signs < retires <= dropped
    ensures var k := Scheduled(mine, other, added, signs, retires, dropped)(l);
            && Signer.Document(Ok(k)).Ok? && (k.signing.keyID == mine.keyID <==> signs <= l < retires)
            && (Carries(k, mine.keyID, key) <==> added <= l < dropped)
            && forall i :: 0 <= i < |Signer.Named(k)| && Signer.Named(k)[i].keyID == mine.keyID ==>
                 Signer.Named(k)[i].key == Some(key)
  {
    var k := Scheduled(mine, other, added, signs, retires, dropped)(l);
    var named := Signer.Named(k);
    Signer.DocumentCorrect(k);
    assert named[0].keyID == k.signing.keyID && named[0].key == Some(k.signing.key.value.public);
    assert k.published != [] ==> named[1] == Signer.PublishedKey(mine.keyID, Some(key));
    assert Signer.Publishable(named) by {
      assert forall i :: 0 <= i < |named| ==> Signer.Nameable(named[i]);
    }
    if added <= l < dropped {
      assert named[if signs <= l < retires then 0 else 1] == Signer.PublishedKey(mine.keyID, Some(key));
    }
  }

  /** Every schedule that signs only while deployed is a life some deployment gives. */
  lemma ScheduleLives(mine: Signer.SigningKey, other: Signer.SigningKey, key: PublicKey,
                      added: Time, signs: Time, retires: Time, dropped: Time)
    requires mine.key.Some? && other.key.Some? && mine.keyID != other.keyID && mine.keyID != "" && other.keyID != ""
    requires key == mine.key.value.public && Usable(key) && Usable(other.key.value.public)
    requires added <= signs < retires <= dropped
    ensures Lives(Scheduled(mine, other, added, signs, retires, dropped),
                  mine.keyID, key, added, signs, retires, dropped)
  {
    forall l { ScheduledSet(mine, other, key, added, signs, retires, dropped, l); }
  }

  /** A history the world can produce that ends with a lookup calling the kid unknown. */
  ghost predicate CallsUnknown(config: Config, served: Served, bound: Time, log: seq<Event>, e: Event, keyID: string) {
    && e.KeyCall? && e.keyID == keyID && AllSupplied(config, log) && Supplied(config, e.fetch)
    && LegalLog(config, log + [e]) && Honest(config, served, bound, log + [e])
    && Answer(config, Replay(config, log), e) == Err(Plain(ErrUnknownKeyID))
  }

  /** One attempt that succeeds with this document. */
  function Success(config: Config, listed: seq<JWK>, snapshot: Time, finished: Time): Fetch {
    var a := Attempt(false, snapshot, snapshot, Responded(200, Complete(0, Listing(listed))), finished, false);
    Fetch(seq(|config.retryBackoff| + 1, _ => a), finished, false)
  }

  lemma SuccessStopsAtOnce(config: Config, listed: seq<JWK>, keys: Keys, snapshot: Time, finished: Time)
    requires config.Positive() && snapshot <= finished && KeysOf(Listing(listed)) == Ok(keys)
    ensures var fetch := Success(config, listed, snapshot, finished);
            && LegalFetch(config, snapshot, fetch) && Final(config, fetch) == fetch.attempts[0]
            && Outcome(config, fetch) == Fetched(keys)
  {
    var fetch := Success(config, listed, snapshot, finished);
    assert Try(config, fetch.attempts[0].response) == Fetched(keys);
    assert Stops(config, fetch.attempts, 0);
  }

  /** The attempt comes from an honest instance and gives a document without the kid. */
  ghost predicate MissesKey(config: Config, served: Served, bound: Time, fetch: Fetch, keyID: string)
    requires Supplied(config, fetch)
  {
    && Outcome(config, fetch).Fetched? && keyID !in Outcome(config, fetch).keys
    && HonestFetch(config, served, bound, fetch)
  }

  lemma PublishedWithout(k: Signer.KeySet, keyID: string, key: PublicKey) returns (keys: Keys)
    requires Signer.Document(Ok(k)).Ok? && !Carries(k, keyID, key)
    requires forall i :: 0 <= i < |Signer.Named(k)| && Signer.Named(k)[i].keyID == keyID ==>
               Signer.Named(k)[i].key == Some(key)
    ensures Publishes(k, keys) && keyID !in keys
  {
    PublishThenParse(k);
    keys := KeysOf(Listing(Signer.Document(Ok(k)).value)).value;
    SameKeyUnderKid(k, keyID, key, keys);
  }

  lemma SuccessMissesKey(config: Config, deployed: Deployment, lag: Time, bound: Time, ahead: Time,
                         listed: seq<JWK>, keys: Keys, l: Time, snapshot: Time, finished: Time, keyID: string)
    requires config.Positive() && snapshot - ahead - lag <= l <= snapshot - ahead
    requires snapshot <= finished <= snapshot + bound
    requires KeysOf(Listing(listed)) == Ok(keys) && Publishes(deployed(l), keys) && keyID !in keys
    ensures LegalFetch(config, snapshot, Success(config, listed, snapshot, finished))
    ensures Final(config, Success(config, listed, snapshot, finished)).finished == finished
    ensures MissesKey(config, OnClock(ServedBy(deployed, lag), ahead), bound,
                      Success(config, listed, snapshot, finished), keyID)
  {
    SuccessStopsAtOnce(config, listed, keys, snapshot, finished);
    assert ServedBy(deployed, lag)(snapshot - ahead, keys);
    assert OnClock(ServedBy(deployed, lag), ahead)(snapshot, keys);
  }

  lemma LegalNext(config: Config, log: seq<Event>, e: Event)
    requires LegalLog(config, log) && EndOf(log) <= e.now && LegalEvent(config, Replay(config, log), e)
    ensures LegalLog(config, log + [e])
  {
    ReplayStep(config, log, e);
    assert (log + [e])[..|log|] == log;
  }

  lemma OneFetchIsHonest(config: Config, served: Served, bound: Time, fetch: Fetch, log: seq<Event>)
    requires Supplied(config, fetch) && HonestFetch(config, served, bound, fetch)
    requires forall i :: 0 <= i < |log| ==> log[i].fetch == fetch
    ensures Honest(config, served, bound, log)
  {}

  /** A refresh that missed the key keeps the kid unknown for the cooldown or the TTL. */
  lemma StaleCacheHidesKey(config: Config, served: Served, bound: Time, fetch: Fetch, keyID: string,
                           from: Time, at: Time)
    requires config.Positive() && keyID != "" && 0 < from
    requires LegalFetch(config, from, fetch) && MissesKey(config, served, bound, fetch, keyID)
    requires fetch.recordedAt <= at
    requires Final(config, fetch).finished <= at < Final(config, fetch).finished + Shorter(config)
    ensures var log, e := [RefreshCall(from, fetch, fetch.recordedAt)], KeyCall(keyID, at, fetch, at);
            CallsUnknown(config, served, bound, log, e, keyID)
  {
    var refresh, e := RefreshCall(from, fetch, fetch.recordedAt), KeyCall(keyID, at, fetch, at);
    MadeAttemptsAreOrdered(config, from, fetch, LastFrom(config, fetch.attempts, 0));
    LegalNext(config, [], refresh);
    ReplayStep(config, [], refresh);
    assert [] + [refresh] == [refresh];
    LegalNext(config, [refresh], e);
    OneFetchIsHonest(config, served, bound, fetch, [refresh] + [e]);
  }

  /** An empty cache that fetches a document without the key calls the kid unknown. */
  lemma EmptyCacheMissesKey(config: Config, served: Served, bound: Time, fetch: Fetch, keyID: string, at: Time)
    requires config.Positive() && keyID != "" && 0 < at
    requires LegalFetch(config, at, fetch) && fetch.recordedAt <= at && MissesKey(config, served, bound, fetch, keyID)
    ensures var e := KeyCall(keyID, at, fetch, at);
            CallsUnknown(config, served, bound, [], e, keyID)
  {
    LegalNext(config, [], KeyCall(keyID, at, fetch, at));
    OneFetchIsHonest(config, served, bound, fetch, [] + [KeyCall(keyID, at, fetch, at)]);
  }

  /** A document from just before the key was added, fetched as late as lag and attempt allow. Times
      but `l` are the cache's. */
  lemma StaleDocumentHidesKey(config: Config, deployed: Deployment, lag: Time, bound: Time, ahead: Time, l: Time,
                              snapshot: Time, finished: Time, keyID: string, key: PublicKey, at: Time)
    requires config.Positive() && keyID != ""
    requires 0 < snapshot && snapshot - ahead - lag <= l <= snapshot - ahead && snapshot <= finished <= snapshot + bound
    requires finished <= at < finished + Shorter(config)
    requires Signer.Document(Ok(deployed(l))).Ok?
    requires OneKeyPerKid(deployed, keyID, key) && !Carries(deployed(l), keyID, key)
    ensures exists log, e ::
              && CallsUnknown(config, OnClock(ServedBy(deployed, lag), ahead), bound, log, e, keyID)
              && e.now == e.returned == at
  {
    var listed := Signer.Document(Ok(deployed(l))).value;
    var keys := PublishedWithout(deployed(l), keyID, key);
    var fetch := Success(config, listed, snapshot, finished);
    SuccessMissesKey(config, deployed, lag, bound, ahead, listed, keys, l, snapshot, finished, keyID);
    StaleCacheHidesKey(config, OnClock(ServedBy(deployed, lag), ahead), bound, fetch, keyID, snapshot, at);
  }

  /** A lookup after the key has left. */
  lemma DroppedKeyIsUnknown(config: Config, deployed: Deployment, lag: Time, bound: Time, ahead: Time,
                            keyID: string, key: PublicKey, l: Time, at: Time)
    requires config.Positive() && keyID != "" && at > 0 && at == l + ahead && lag >= 0 && bound >= 0
    requires Signer.Document(Ok(deployed(l))).Ok?
    requires OneKeyPerKid(deployed, keyID, key) && !Carries(deployed(l), keyID, key)
    ensures exists log, e ::
              && CallsUnknown(config, OnClock(ServedBy(deployed, lag), ahead), bound, log, e, keyID)
              && e.now == e.returned == at
  {
    var listed := Signer.Document(Ok(deployed(l))).value;
    var keys := PublishedWithout(deployed(l), keyID, key);
    var fetch := Success(config, listed, at, at);
    SuccessMissesKey(config, deployed, lag, bound, ahead, listed, keys, l, at, at, keyID);
    EmptyCacheMissesKey(config, OnClock(ServedBy(deployed, lag), ahead), bound, fetch, keyID, at);
  }

  /** A token signed at the true time `signedAt` is refused before the verifier's clock reads `end`:
      the lookup made for it calls its kid unknown. */
  ghost predicate Refused(config: Config, deployed: Deployment, lag: Time, bound: Time, ahead: Time,
                          log: seq<Event>, e: Event, keyID: string, signedAt: Time, end: Time) {
    && MaySign(deployed, lag, signedAt, keyID)
    && CallsUnknown(config, OnClock(ServedBy(deployed, lag), ahead), bound, log, e, keyID)
    && signedAt + ahead <= e.now && e.returned < end
  }

  /** When the window of a token signed at a true time ends on the verifier's clock, `exp` and leeway
      together. */
  type Window = Time -> Time

  /** A token lives at all, on a verifier's clock that runs `ahead`, and a later one does not end
      sooner. */
  ghost predicate Proper(window: Window, ahead: Time) {
    && (forall t :: t + ahead < window(t))
    && (forall s, t :: s <= t ==> window(s) <= window(t))
  }

  predicate Moment(t: Time) { true }

  /** The windows of tokens issued for the full TTL, their `exp` read off the gateway's clock and
      truncated. */
  ghost predicate FullLife(window: Window, ttl: Time, leeway: Time, issuerAhead: Time) {
    forall t {:trigger Moment(t)} :: window(t) == Truncate(t + issuerAhead + ttl) + leeway
  }

  lemma FullLifeAt(window: Window, ttl: Time, leeway: Time, issuerAhead: Time, t: Time)
    requires FullLife(window, ttl, leeway, issuerAhead)
    ensures window(t) == Truncate(t + issuerAhead + ttl) + leeway
  {
    assert Moment(t);
  }

  lemma SomeFullLife(ttl: Time, leeway: Time, issuerAhead: Time) returns (window: Window)
    ensures FullLife(window, ttl, leeway, issuerAhead)
  {
    window := (t: Time) => Truncate(t + issuerAhead + ttl) + leeway;
  }

  lemma FullLifeIsProper(window: Window, ttl: Time, leeway: Time, clocks: Clocks)
    requires FullLife(window, ttl, leeway, clocks.issuer)
    requires ttl + leeway >= SECOND + clocks.verifier - clocks.issuer
    ensures Proper(window, clocks.verifier)
  {
    forall t ensures t + clocks.verifier < window(t) {
      FullLifeAt(window, ttl, leeway, clocks.issuer, t);
      TruncateBounds(t + clocks.issuer + ttl);
    }
    forall s, t | s <= t ensures window(s) <= window(t) {
      FullLifeAt(window, ttl, leeway, clocks.issuer, s);
      FullLifeAt(window, ttl, leeway, clocks.issuer, t);
      TruncateMonotone(s + clocks.issuer + ttl, t + clocks.issuer + ttl);
    }
  }

  /** A kid is called unknown only on a document, recent or of this call, that lacks it. */
  lemma UnknownIsLacked(config: Config, served: Served, bound: Time, log: seq<Event>, e: Event, keyID: string)
    requires config.Positive() && bound >= 0 && CallsUnknown(config, served, bound, log, e, keyID)
    ensures Lacked(served, e.now - Shorter(config) - bound, e.returned, keyID)
  {
    AnswerRestsOnOneDocument(config, served, bound, log, e);
  }

  lemma KnownWhileDeployed(config: Config, deployed: Deployment, lag: Time, bound: Time, ahead: Time,
                           log: seq<Event>, e: Event, keyID: string, key: PublicKey, added: Time, dropped: Time)
    requires config.Positive() && bound >= 0 && OneKeyPerKid(deployed, keyID, key)
    requires forall l :: added <= l < dropped ==> Carries(deployed(l), keyID, key)
    requires e.now - ahead >= added - 1 + lag + Shorter(config) + bound && e.returned - ahead < dropped
    ensures !CallsUnknown(config, OnClock(ServedBy(deployed, lag), ahead), bound, log, e, keyID)
  {
    var served, from := ServedBy(deployed, lag), e.now - Shorter(config) - bound;
    NeverLacked(deployed, lag, from - ahead, e.returned - ahead, keyID, key);
    if CallsUnknown(config, OnClock(served, ahead), bound, log, e, keyID) {
      UnknownIsLacked(config, OnClock(served, ahead), bound, log, e, keyID);
      LackedOnClock(served, ahead, from, e.returned, keyID);
      assert false;
    }
  }

  function Earlier(a: Time, b: Time): Time {
    if a < b then a else b
  }

  lemma EarlySignatureIsRefused(config: Config, deployed: Deployment, lag: Time, bound: Time, ahead: Time,
                                keyID: string, key: PublicKey, added: Time, signs: Time, end: Time)
    requires config.Positive() && keyID != "" && lag >= 0 && bound >= 0
    requires OneKeyPerKid(deployed, keyID, key) && !Carries(deployed(added - 1), keyID, key)
    requires Signer.Document(Ok(deployed(added - 1))).Ok? && deployed(signs).signing.keyID == keyID
    requires 1 < added + ahead && added <= signs && signs + ahead < end
    requires signs < added - 1 + lag + Shorter(config) + bound
    ensures exists log, e :: Refused(config, deployed, lag, bound, ahead, log, e, keyID, signs, end)
  {
    var served, at := added - 1 + lag, signs + ahead;
    var finished, snapshot := Earlier(signs, served + bound) + ahead, Earlier(signs, served) + ahead;
    StaleDocumentHidesKey(config, deployed, lag, bound, ahead, added - 1, snapshot, finished, keyID, key, at);
    var log, e :| && CallsUnknown(config, OnClock(ServedBy(deployed, lag), ahead), bound, log, e, keyID)
                  && e.now == e.returned == at;
    assert Refused(config, deployed, lag, bound, ahead, log, e, keyID, signs, end);
  }

  lemma EarlyDropIsRefused(config: Config, deployed: Deployment, lag: Time, bound: Time, ahead: Time,
                           keyID: string, key: PublicKey, last: Time, signedAt: Time, l: Time, at: Time, end: Time)
    requires config.Positive() && keyID != "" && lag >= 0 && bound >= 0
    requires OneKeyPerKid(deployed, keyID, key) && !Carries(deployed(l), keyID, key)
    requires Signer.Document(Ok(deployed(l))).Ok? && deployed(last).signing.keyID == keyID
    requires at == l + ahead && 0 < at < end && signedAt == last + lag <= l
    ensures exists log, e :: Refused(config, deployed, lag, bound, ahead, log, e, keyID, signedAt, end)
  {
    DroppedKeyIsUnknown(config, deployed, lag, bound, ahead, keyID, key, l, at);
    var log, e :| && CallsUnknown(config, OnClock(ServedBy(deployed, lag), ahead), bound, log, e, keyID)
                  && e.now == e.returned == at;
    assert Refused(config, deployed, lag, bound, ahead, log, e, keyID, signedAt, end);
  }

  /** A token signed under the kid: not before the first signature, its window over with the last's. */
  lemma SignedInTerm(deployed: Deployment, lag: Time, window: Window, ahead: Time, keyID: string, signedAt: Time,
                     signs: Time, retires: Time)
    requires forall l :: deployed(l).signing.keyID == keyID <==> signs <= l < retires
    requires MaySign(deployed, lag, signedAt, keyID) && Proper(window, ahead)
    ensures signs <= signedAt && window(signedAt) <= window(retires - 1 + lag)
  {
    assert signedAt <= retires - 1 + lag;
  }

  lemma NotRefused(config: Config, deployed: Deployment, lag: Time, bound: Time, ahead: Time, log: seq<Event>, e: Event,
                   keyID: string, key: PublicKey, signedAt: Time, end: Time, added: Time, dropped: Time)
    requires config.Positive() && bound >= 0 && OneKeyPerKid(deployed, keyID, key)
    requires forall l :: added <= l < dropped ==> Carries(deployed(l), keyID, key)
    requires signedAt >= added - 1 + lag + Shorter(config) + bound && end <= dropped + ahead
    ensures !Refused(config, deployed, lag, bound, ahead, log, e, keyID, signedAt, end)
  {
    if signedAt + ahead <= e.now && e.returned < end {
      KnownWhileDeployed(config, deployed, lag, bound, ahead, log, e, keyID, key, added, dropped);
    }
  }

  lemma LongWaitsRefuseNone(config: Config, deployed: Deployment, lag: Time, bound: Time, window: Window,
                            ahead: Time, log: seq<Event>, e: Event, keyID: string, key: PublicKey,
                            signedAt: Time, added: Time, signs: Time, retires: Time, dropped: Time)
    requires config.Positive() && bound >= 0 && Proper(window, ahead)
    requires Lives(deployed, keyID, key, added, signs, retires, dropped)
    requires signs >= added - 1 + lag + Shorter(config) + bound
    requires dropped + ahead >= window(retires - 1 + lag)
    requires MaySign(deployed, lag, signedAt, keyID)
    ensures !Refused(config, deployed, lag, bound, ahead, log, e, keyID, signedAt,
                     window(signedAt))
  {
    SignedInTerm(deployed, lag, window, ahead, keyID, signedAt, signs, retires);
    NotRefused(config, deployed, lag, bound, ahead, log, e, keyID, key, signedAt,
               window(signedAt), added, dropped);
  }

  /** No history ends with a live token refused as signed by an unknown key. */
  ghost predicate Safe(config: Config, deployed: Deployment, lag: Time, bound: Time, window: Window,
                       ahead: Time, keyID: string) {
    forall log, e, signedAt ::
      !Refused(config, deployed, lag, bound, ahead, log, e, keyID, signedAt, window(signedAt))
  }

  lemma OneRefusal(config: Config, deployed: Deployment, lag: Time, bound: Time, window: Window, ahead: Time,
                   keyID: string, signedAt: Time, end: Time)
    requires end == window(signedAt)
    requires exists log, e :: Refused(config, deployed, lag, bound, ahead, log, e, keyID, signedAt, end)
    ensures !Safe(config, deployed, lag, bound, window, ahead, keyID)
  {}

  lemma ShortLeadRefusesSome(config: Config, deployed: Deployment, lag: Time, bound: Time, window: Window,
                             ahead: Time, keyID: string, key: PublicKey,
                             added: Time, signs: Time, retires: Time, dropped: Time)
    requires config.Positive() && keyID != "" && lag >= 0 && bound >= 0 && Proper(window, ahead)
    requires Lives(deployed, keyID, key, added, signs, retires, dropped) && added <= signs < retires
    requires 1 < added + ahead && signs < added - 1 + lag + Shorter(config) + bound
    ensures exists log, e :: Refused(config, deployed, lag, bound, ahead, log, e, keyID, signs,
                                     window(signs))
  {
    EarlySignatureIsRefused(config, deployed, lag, bound, ahead, keyID, key, added, signs,
                            window(signs));
  }

  lemma ShortStayRefusesSome(config: Config, deployed: Deployment, lag: Time, bound: Time, window: Window,
                             ahead: Time, keyID: string, key: PublicKey,
                             added: Time, signs: Time, retires: Time, dropped: Time, last: Time)
    requires config.Positive() && keyID != "" && lag >= 0 && bound >= 0 && Proper(window, ahead)
    requires Lives(deployed, keyID, key, added, signs, retires, dropped) && added <= signs < retires <= dropped
    requires 1 < added + ahead && last == retires - 1 + lag
    requires dropped + ahead < window(last)
    ensures exists log, e :: Refused(config, deployed, lag, bound, ahead, log, e, keyID, last,
                                     window(last))
  {
    var l := if last < dropped then dropped else last;
    EarlyDropIsRefused(config, deployed, lag, bound, ahead, keyID, key, retires - 1, last, l,
                       l + ahead, window(last));
  }

  lemma LongWaitsAreSafe(config: Config, deployed: Deployment, lag: Time, bound: Time, window: Window,
                         ahead: Time, keyID: string, key: PublicKey,
                         added: Time, signs: Time, retires: Time, dropped: Time)
    requires config.Positive() && bound >= 0 && Proper(window, ahead)
    requires Lives(deployed, keyID, key, added, signs, retires, dropped)
    requires signs >= added - 1 + lag + Shorter(config) + bound
    requires dropped + ahead >= window(retires - 1 + lag)
    ensures Safe(config, deployed, lag, bound, window, ahead, keyID)
  {
    forall log, e, signedAt
      ensures !Refused(config, deployed, lag, bound, ahead, log, e, keyID, signedAt,
                       window(signedAt))
    {
      if MaySign(deployed, lag, signedAt, keyID) {
        LongWaitsRefuseNone(config, deployed, lag, bound, window, ahead, log, e, keyID, key, signedAt,
                            added, signs, retires, dropped);
      }
    }
  }

  /** How long the waits must be, to the nanosecond and for any two clocks: no run refuses a live
      token as signed by an unknown key if and only if the first signature follows the last set
      without the key by provider lag, one attempt and the shorter of TTL and cooldown together, and
      the key stays until the last token it can have signed has left its window. */
  lemma WaitsAreExact(config: Config, deployed: Deployment, lag: Time, bound: Time, window: Window, ahead: Time,
                      keyID: string, key: PublicKey, added: Time, signs: Time, retires: Time, dropped: Time)
    requires config.Positive() && keyID != "" && lag >= 0 && bound >= 0 && Proper(window, ahead)
    requires Lives(deployed, keyID, key, added, signs, retires, dropped)
    requires 1 < added + ahead && signs < retires
    ensures Safe(config, deployed, lag, bound, window, ahead, keyID) <==>
            && signs >= added - 1 + lag + Shorter(config) + bound
            && dropped + ahead >= window(retires - 1 + lag)
  {
    var last := retires - 1 + lag;
    SignsWhileDeployed(deployed, keyID, key, added, signs, retires, dropped);
    if signs < added - 1 + lag + Shorter(config) + bound {
      ShortLeadRefusesSome(config, deployed, lag, bound, window, ahead, keyID, key, added, signs, retires, dropped);
      OneRefusal(config, deployed, lag, bound, window, ahead, keyID, signs, window(signs));
    } else if dropped + ahead < window(last) {
      ShortStayRefusesSome(
        config, deployed, lag, bound, window, ahead, keyID, key, added, signs, retires, dropped, last);
      OneRefusal(config, deployed, lag, bound, window, ahead, keyID, last, window(last));
    } else {
      LongWaitsAreSafe(config, deployed, lag, bound, window, ahead, keyID, key, added, signs, retires, dropped);
    }
  }

  // ---- Every pair of clocks within a skew -----------------------------------------------------------

  /** The clocks differ by at most the skew, and the verifier's is above the zero time by then. */
  predicate Skewed(clocks: Clocks, skew: Time, added: Time) {
    -skew <= clocks.issuer - clocks.verifier <= skew && 1 < added + clocks.verifier
  }

  /** Safe for tokens of the full TTL, whatever two clocks within the skew say. */
  ghost predicate SafeUnderSkew(config: Config, deployed: Deployment, lag: Time, bound: Time, ttl: Time, leeway: Time,
                                skew: Time, keyID: string, added: Time) {
    forall clocks, window :: Skewed(clocks, skew, added) && FullLife(window, ttl, leeway, clocks.issuer) ==>
      Safe(config, deployed, lag, bound, window, clocks.verifier, keyID)
  }

  /** Clocks a full skew apart, the gateway's at the end of a second when the last token ends. */
  lemma WorstClocks(last: Time, ttl: Time, skew: Time, added: Time) returns (clocks: Clocks)
    requires skew >= 0
    ensures Skewed(clocks, skew, added) && clocks.issuer == clocks.verifier + skew
    ensures Truncate(last + clocks.issuer + ttl) == last + clocks.issuer + ttl
  {
    var seconds := (if last + ttl > 0 then last + ttl else 0) + (if added < 0 then -added else 0) + skew + 2;
    clocks := Clocks(seconds * SECOND - last - ttl, seconds * SECOND - last - ttl - skew);
    assert last + clocks.issuer + ttl == seconds * SECOND;
    assert (seconds * SECOND) % SECOND == 0;
  }

  /** The last window ends no later than the TTL, the leeway and the skew allow, and on the worst
      clocks just then. */
  lemma LastWindow(window: Window, ttl: Time, leeway: Time, clocks: Clocks, last: Time)
    requires FullLife(window, ttl, leeway, clocks.issuer)
    ensures window(last) <= last + clocks.issuer + ttl + leeway
    ensures Truncate(last + clocks.issuer + ttl) == last + clocks.issuer + ttl ==>
              window(last) == last + clocks.issuer + ttl + leeway
  {
    FullLifeAt(window, ttl, leeway, clocks.issuer, last);
    TruncateBounds(last + clocks.issuer + ttl);
  }

  /** The waits of `RotationSafety` are exact: over all clocks within the skew, no run refuses a live
      token if and only if they are kept, to the nanosecond. */
  lemma WaitsUnderSkewAreExact(config: Config, deployed: Deployment, lag: Time, bound: Time,
                               ttl: Time, leeway: Time, skew: Time, keyID: string, key: PublicKey,
                               added: Time, signs: Time, retires: Time, dropped: Time)
    requires config.Positive() && keyID != "" && lag >= 0 && bound >= 0
    requires skew >= 0 && ttl + leeway >= SECOND + skew && signs < retires
    requires Lives(deployed, keyID, key, added, signs, retires, dropped)
    ensures SafeUnderSkew(config, deployed, lag, bound, ttl, leeway, skew, keyID, added) <==>
            && signs - (added - 1) >= lag + Shorter(config) + bound
            && dropped - (retires - 1) >= lag + ttl + leeway + skew
  {
    var last := retires - 1 + lag;
    if && signs - (added - 1) >= lag + Shorter(config) + bound
       && dropped - (retires - 1) >= lag + ttl + leeway + skew
    {
      forall clocks, window | Skewed(clocks, skew, added) && FullLife(window, ttl, leeway, clocks.issuer)
        ensures Safe(config, deployed, lag, bound, window, clocks.verifier, keyID)
      {
        FullLifeIsProper(window, ttl, leeway, clocks);
        LastWindow(window, ttl, leeway, clocks, last);
        WaitsAreExact(config, deployed, lag, bound, window, clocks.verifier, keyID, key,
                      added, signs, retires, dropped);
      }
    } else {
      var clocks := WorstClocks(last, ttl, skew, added);
      var window := SomeFullLife(ttl, leeway, clocks.issuer);
      FullLifeIsProper(window, ttl, leeway, clocks);
      LastWindow(window, ttl, leeway, clocks, last);
      WaitsAreExact(config, deployed, lag, bound, window, clocks.verifier, keyID, key, added, signs, retires, dropped);
    }
  }
}
