/** What the key cache promises over whole histories of calls. */
module CacheRuns {
  import opened Errors
  import opened InternalJwt
  import opened Jwk
  import opened KeyDocument
  import opened KeyCache
  import opened Spacing

  // ---- Histories the world can produce ----------------------------------------------------------

  /** No error of the HTTP or JSON library passes itself off as an unknown kid. */
  predicate CleanResponse(response: Response) {
    match response
    case NoRequest(cause) => !Is(cause, ErrUnknownKeyID)
    case NoResponse(cause) => !Is(cause, ErrUnknownKeyID)
    case Responded(_, ReadFailed(cause)) => !Is(cause, ErrUnknownKeyID)
    case Responded(_, Complete(_, Undecodable(cause))) => !Is(cause, ErrUnknownKeyID)
    case Responded(_, Complete(_, Listing(_))) => true
  }

  /** A wait of `d` that is not cut short lasts at least `d`. */
  predicate Lasted(attempts: seq<Attempt>, waits: seq<Time>)
    requires |waits| < |attempts|
  {
    forall k :: 0 <= k < |waits| && !attempts[k + 1].waitCut ==>
      attempts[k].finished + waits[k] <= attempts[k + 1].started
  }

  /** The clock never goes back over the attempts made, every wait asked for lasts unless it is
      cut short, and an ended context stays ended until the outcome is recorded. */
  ghost predicate LegalFetch(config: Config, from: Time, fetch: Fetch) {
    && Supplied(config, fetch)
    && var a := fetch.attempts;
       var last := LastFrom(config, a, 0);
       && from <= a[0].started
       && (forall k :: 0 <= k <= last ==>
             a[k].started <= a[k].snapshot <= a[k].finished && CleanResponse(a[k].response))
       && (forall k :: 0 <= k < last ==> a[k].finished <= a[k + 1].started)
       && Lasted(a, Asked(config, a, 0))
       && a[last].finished <= fetch.recordedAt
       && (a[last].cancelled ==> fetch.cancelled)
       && (Cut(config, a, last) ==> fetch.cancelled)
  }

  ghost predicate LegalEvent(config: Config, s: State, e: Event) {
    && Supplied(config, e.fetch)
    && 0 < e.now <= e.returned
    && (Fetches(config, s, e) ==> LegalFetch(config, e.now, e.fetch) && e.fetch.recordedAt <= e.returned)
  }

  function EndOf(log: seq<Event>): Time {
    if log == [] then 0 else log[|log| - 1].returned
  }

  /** Calls hold the lock one after another. */
  ghost predicate LegalLog(config: Config, log: seq<Event>)
  {
    AllSupplied(config, log) &&
    (log == [] ||
      var n := |log| - 1;
      && LegalLog(config, log[..n]) && EndOf(log[..n]) <= log[n].now
      && LegalEvent(config, Replay(config, log[..n]), log[n]))
  }

  // ---- One refresh --------------------------------------------------------------------------------

  lemma MadeAttemptsAreOrdered(config: Config, from: Time, fetch: Fetch, k: nat)
    requires LegalFetch(config, from, fetch) && k <= LastFrom(config, fetch.attempts, 0)
    ensures from <= fetch.attempts[k].started
  {
    if k > 0 { MadeAttemptsAreOrdered(config, from, fetch, k - 1); }
  }

  /** The refresh goes on after its n-th attempt: the response is one a later attempt may recover
      from, the context is alive through the wait, and a backoff remains. */
  predicate GoesOn(config: Config, attempts: seq<Attempt>, n: nat)
    requires n < |attempts| == |config.retryBackoff| + 1
  {
    && Transient(attempts[n].response) && !attempts[n].cancelled
    && n < |config.retryBackoff| && !attempts[n + 1].waitCut
  }

  lemma GoesOnIff(config: Config, attempts: seq<Attempt>, n: nat)
    requires n < |attempts| == |config.retryBackoff| + 1
    ensures GoesOn(config, attempts, n) <==> !Stops(config, attempts, n)
  {
    var tried := Try(config, attempts[n].response);
    TryIff(config, attempts[n].response, if tried.Fetched? then tried.keys else map[]);
  }

  /** The retry loop: at most one attempt more than there are backoffs; it goes past an attempt
      exactly when it should, waits at least the backoff of that place, and reports the last. */
  lemma RetryLoop(config: Config, from: Time, fetch: Fetch)
    requires LegalFetch(config, from, fetch)
    ensures var a := fetch.attempts;
            var last := LastFrom(config, a, 0);
            && last <= |config.retryBackoff|
            && (forall k :: 0 <= k <= last ==> (k < last <==> GoesOn(config, a, k)))
            && (forall k :: 0 <= k < last ==> a[k].finished + config.retryBackoff[k] <= a[k + 1].started)
            && Outcome(config, fetch) == Try(config, a[last].response)
  {
    var a, last := fetch.attempts, LastFrom(config, fetch.attempts, 0);
    AskedAreBackoffs(config, a, 0);
    forall k: nat | k <= last ensures k < last <==> GoesOn(config, a, k) {
      GoesOnIff(config, a, k);
    }
    forall k: nat | k < last ensures a[k].finished + config.retryBackoff[k] <= a[k + 1].started {
      GoesOnIff(config, a, k);
      assert Asked(config, a, 0)[k] == config.retryBackoff[k];
    }
  }

  lemma {:induction false} LastIs(config: Config, attempts: seq<Attempt>, from: nat, n: nat)
    requires from <= n < |attempts| == |config.retryBackoff| + 1
    requires forall k :: from <= k < n ==> GoesOn(config, attempts, k)
    requires !GoesOn(config, attempts, n)
    ensures LastFrom(config, attempts, from) == n
    decreases n - from
  {
    GoesOnIff(config, attempts, from);
    if from < n { LastIs(config, attempts, from + 1, n); }
  }

  /** Failures a later attempt may recover from, and then a good document: the cache holds that
      document's keys, stamped with the end of the attempt that brought it. */
  lemma RetriesReachTheDocument(config: Config, s: State, fetch: Fetch, n: nat, keys: Keys)
    requires Supplied(config, fetch) && n <= |config.retryBackoff|
    requires forall k :: 0 <= k < n ==> GoesOn(config, fetch.attempts, k)
    requires Delivers(config, fetch.attempts[n].response, keys)
    ensures var at := fetch.attempts[n].finished;
            AfterFetch(config, s, fetch) == State(keys, at + config.cacheTTL, at, 0, None)
  {
    TryIff(config, fetch.attempts[n].response, keys);
    LastIs(config, fetch.attempts, 0, n);
  }

  lemma TryErrorIsClean(config: Config, response: Response)
    requires CleanResponse(response) && Try(config, response).Failed?
    ensures !Is(Try(config, response).error, ErrUnknownKeyID)
  {
    if response.Responded? && response.status == 200 && response.body.Complete? && response.body.content.Listing? {
      ReadErrorIsClean(response.body.content.keys, map[]);
    }
  }

  lemma {:induction false} ReadErrorIsClean(listed: seq<JWK>, keys: Keys)
    ensures ReadOn(listed, keys).Err? ==> !Is(ReadOn(listed, keys).error, ErrUnknownKeyID)
  {
    if listed != [] {
      var key := ToPublicKey(listed[0]);
      if key.Ok? {
        ReadErrorIsClean(listed[1..], keys[listed[0].keyID := key.value]);
      } else {
        assert !Is(key.error, ErrUnknownKeyID);
      }
    }
  }

  lemma {:induction false} ReadKidsAreNamed(listed: seq<JWK>, keys: Keys)
    requires "" !in keys && ReadOn(listed, keys).Ok?
    ensures "" !in ReadOn(listed, keys).value
  {
    if listed != [] {
      ReadKidsAreNamed(listed[1..], keys[listed[0].keyID := ToPublicKey(listed[0]).value]);
    }
  }

  // ---- The invariant ------------------------------------------------------------------------------

  /** What holds of every reachable state at time `now`. */
  predicate Inv(config: Config, s: State, now: Time) {
    && "" !in s.keys
    && (if s.lastRefresh == 0 then s.keys == map[] && s.expiry == 0
        else s.expiry == s.lastRefresh + config.cacheTTL && 0 < s.lastRefresh <= now)
    && (s.lastFailure != 0 <==> s.lastError.Some?)
    && (s.lastFailure != 0 ==> s.lastRefresh <= s.lastFailure <= now)
    && (s.lastError.Some? ==> !Is(s.lastError.value, ErrUnknownKeyID))
  }

  lemma FetchKeepsInv(config: Config, s: State, from: Time, fetch: Fetch)
    requires 0 < from && LegalFetch(config, from, fetch) && Inv(config, s, from)
    ensures Inv(config, AfterFetch(config, s, fetch), fetch.recordedAt)
    ensures Outcome(config, fetch).Failed? ==> !Is(Outcome(config, fetch).error, ErrUnknownKeyID)
    ensures from <= Final(config, fetch).started <= Final(config, fetch).snapshot
            <= Final(config, fetch).finished <= fetch.recordedAt
  {
    var last := LastFrom(config, fetch.attempts, 0);
    MadeAttemptsAreOrdered(config, from, fetch, last);
    if Outcome(config, fetch).Failed? {
      TryErrorIsClean(config, Final(config, fetch).response);
    } else {
      ReadKidsAreNamed(Final(config, fetch).response.body.content.keys, map[]);
    }
  }

  /** Every reachable state keeps the invariant: the expiry is the last success plus the TTL, a
      failure is recorded exactly when its error is, never predates the last success, and never
      wraps an unknown kid. */
  lemma {:induction false} InvHolds(config: Config, log: seq<Event>)
    requires config.Positive() && LegalLog(config, log)
    ensures Inv(config, Replay(config, log), EndOf(log))
  {
    if log != [] {
      var n := |log| - 1;
      InvHolds(config, log[..n]);
      var s, e := Replay(config, log[..n]), log[n];
      if Fetches(config, s, e) { FetchKeepsInv(config, s, e.now, e.fetch); }
    }
  }

  // ---- Availability -------------------------------------------------------------------------------

  predicate Succeeds(config: Config, s: State, e: Event) {
    Fetches(config, s, e) && Supplied(config, e.fetch) && Outcome(config, e.fetch).Fetched?
  }

  /** No refresh succeeded after the first `from` calls. */
  predicate NoSuccessSince(config: Config, log: seq<Event>, from: nat)
    requires AllSupplied(config, log)
  {
    |log| <= from ||
    (var n := |log| - 1;
     NoSuccessSince(config, log[..n], from) && !Succeeds(config, Replay(config, log[..n]), log[n]))
  }

  lemma KeepsKeys(config: Config, s: State, e: Event)
    requires Supplied(config, e.fetch) && !Succeeds(config, s, e)
    ensures var t := After(config, s, e); t.keys == s.keys && t.expiry == s.expiry && t.lastRefresh == s.lastRefresh
  {}

  lemma {:induction false} KeysOutlastFailures(config: Config, log: seq<Event>, from: nat)
    requires AllSupplied(config, log) && from <= |log| && NoSuccessSince(config, log, from)
    ensures var held := Replay(config, log[..from]);
            var s := Replay(config, log);
            s.keys == held.keys && s.expiry == held.expiry && s.lastRefresh == held.lastRefresh
  {
    if |log| == from {
      assert log[..from] == log;
    } else {
      var n := |log| - 1;
      assert log[..n][..from] == log[..from];
      KeysOutlastFailures(config, log[..n], from);
      KeepsKeys(config, Replay(config, log[..n]), log[n]);
    }
  }

  /** A held kid is answered from the cache at every time before expiry, whatever failed or
      cancelled refreshes came in between. */
  lemma HeldKidIsServed(config: Config, log: seq<Event>, from: nat, keyID: string, now: Time)
    requires AllSupplied(config, log) && from <= |log| && NoSuccessSince(config, log, from)
    requires var held := Replay(config, log[..from]);
             keyID != "" && keyID in held.keys && now < held.expiry
    ensures Decide(config, Replay(config, log), keyID, now) == Serve(Replay(config, log[..from]).keys[keyID])
  {
    KeysOutlastFailures(config, log, from);
  }

  /** The last call that fetched a document, if any did. */
  function LastSuccess(config: Config, log: seq<Event>): (i: int)
    requires AllSupplied(config, log)
    ensures -1 <= i < |log|
    ensures i >= 0 ==> Outcome(config, log[i].fetch).Fetched?
  {
    if log == [] then -1
    else
      var n := |log| - 1;
      if Succeeds(config, Replay(config, log[..n]), log[n]) then n else LastSuccess(config, log[..n])
  }

  /** The cache holds the last fetched document whole, under the time its attempt ended. */
  lemma {:induction false} HoldsLastDocument(config: Config, log: seq<Event>)
    requires AllSupplied(config, log)
    ensures var s, i := Replay(config, log), LastSuccess(config, log);
            && (i == -1 ==> s.keys == map[] && s.lastRefresh == 0)
            && (i >= 0 ==> && s.keys == Outcome(config, log[i].fetch).keys
                           && s.lastRefresh == Final(config, log[i].fetch).finished)
  {
    if log != [] {
      var n := |log| - 1;
      HoldsLastDocument(config, log[..n]);
      var s := Replay(config, log[..n]);
      if !Succeeds(config, s, log[n]) { KeepsKeys(config, s, log[n]); }
    }
  }

  /** Every key given out is the entry of the last fetched document, this call's included, under
      a stamp younger than the TTL. */
  lemma GivesLastDocumentsKey(config: Config, log: seq<Event>, e: Event)
    requires config.Positive() && e.KeyCall? && AllSupplied(config, log) && Supplied(config, e.fetch)
    requires LegalLog(config, log + [e]) && Answer(config, Replay(config, log), e).Ok?
    ensures var i := LastSuccess(config, log + [e]);
            && i >= 0
            && var fetch := (log + [e])[i].fetch;
               && e.keyID in Outcome(config, fetch).keys
               && Answer(config, Replay(config, log), e).value == Outcome(config, fetch).keys[e.keyID]
               && e.now < Final(config, fetch).finished + config.cacheTTL
  {
    LegalPrefix(config, log, e);
    InvHolds(config, log);
    var s := Replay(config, log);
    ReplayStep(config, log, e);
    HoldsLastDocument(config, log + [e]);
    assert (log + [e])[..|log|] == log;
    if Fetches(config, s, e) { FetchKeepsInv(config, s, e.now, e.fetch); }
  }

  // ---- The fetch rate -----------------------------------------------------------------------------

  /** The refresh leaves a mark: it succeeded, or failed while the context was alive. */
  predicate Recorded(config: Config, s: State, e: Event)
    requires Supplied(config, e.fetch)
  {
    Fetches(config, s, e) && (Outcome(config, e.fetch).Fetched? || !e.fetch.cancelled)
  }

  function OutcomeTime(config: Config, e: Event): Time
    requires Supplied(config, e.fetch)
  {
    if Outcome(config, e.fetch).Fetched? then Final(config, e.fetch).finished else e.fetch.recordedAt
  }

  /** When the last refresh with a recorded outcome, of either kind of call, had it. */
  function LastOutcome(config: Config, log: seq<Event>): Option<Time>
    requires AllSupplied(config, log)
  {
    if log == [] then None
    else
      var n := |log| - 1;
      if Recorded(config, Replay(config, log[..n]), log[n]) then Some(OutcomeTime(config, log[n]))
      else LastOutcome(config, log[..n])
  }

  function Least(config: Config): Time {
    var cooldown := if config.cacheTTL < config.refreshCooldown then config.cacheTTL else config.refreshCooldown;
    if cooldown < config.failureCooldown then cooldown else config.failureCooldown
  }

  lemma {:induction false} LastOutcomeIsInState(config: Config, log: seq<Event>)
    requires config.Positive() && LegalLog(config, log)
    ensures var s := Replay(config, log);
            LastOutcome(config, log) ==
              if s.lastFailure != 0 then Some(s.lastFailure)
              else if s.lastRefresh != 0 then Some(s.lastRefresh) else None
  {
    InvHolds(config, log);
    if log != [] {
      var n := |log| - 1;
      LastOutcomeIsInState(config, log[..n]);
      InvHolds(config, log[..n]);
      var s, e := Replay(config, log[..n]), log[n];
      if Fetches(config, s, e) { FetchKeepsInv(config, s, e.now, e.fetch); }
    }
  }

  /** No lookup starts a refresh within the least of the three periods after the last recorded
      outcome, a manual refresh's included. */
  lemma QuietAfterOutcome(config: Config, log: seq<Event>, keyID: string, now: Time)
    requires config.Positive() && LegalLog(config, log) && EndOf(log) <= now
    requires Decide(config, Replay(config, log), keyID, now).MustFetch?
    ensures LastOutcome(config, log).Some? ==> now >= LastOutcome(config, log).value + Least(config)
  {
    InvHolds(config, log);
    LastOutcomeIsInState(config, log);
  }

  predicate Triggered(config: Config, s: State, e: Event)
    requires Supplied(config, e.fetch)
  {
    e.KeyCall? && Recorded(config, s, e)
  }

  /** The start times of the refreshes lookups triggered, those with a recorded outcome. */
  function Starts(config: Config, log: seq<Event>): seq<Time>
    requires AllSupplied(config, log)
  {
    if log == [] then []
    else
      var n := |log| - 1;
      Starts(config, log[..n]) +
      if Triggered(config, Replay(config, log[..n]), log[n]) then [log[n].now] else []
  }

  lemma SpacedAppend(starts: seq<Time>, gap: Time, at: Time)
    requires Spaced(starts, gap) && (starts != [] ==> starts[|starts| - 1] + gap <= at)
    ensures Spaced(starts + [at], gap)
  {}

  /** A call with a recorded outcome has it no earlier than the outcome before, nor than its own
      start. */
  lemma OutcomesAdvance(config: Config, log: seq<Event>)
    requires config.Positive() && LegalLog(config, log) && log != []
    requires Recorded(config, Replay(config, log[..|log| - 1]), log[|log| - 1])
    ensures LastOutcome(config, log) == Some(OutcomeTime(config, log[|log| - 1]))
    ensures log[|log| - 1].now <= OutcomeTime(config, log[|log| - 1])
    ensures var before := LastOutcome(config, log[..|log| - 1]);
            before.Some? ==> before.value <= OutcomeTime(config, log[|log| - 1])
  {
    var n := |log| - 1;
    var s, e := Replay(config, log[..n]), log[n];
    InvHolds(config, log[..n]);
    LastOutcomeIsInState(config, log[..n]);
    FetchKeepsInv(config, s, e.now, e.fetch);
  }

  /** Starts so far are spaced, and the last of them had an outcome since. */
  predicate StartsSettled(config: Config, log: seq<Event>)
    requires AllSupplied(config, log)
  {
    var starts := Starts(config, log);
    && Spaced(starts, Least(config))
    && (starts != [] ==> LastOutcome(config, log).Some? && starts[|starts| - 1] <= LastOutcome(config, log).value)
  }

  lemma TriggeredSettles(config: Config, log: seq<Event>)
    requires config.Positive() && LegalLog(config, log) && log != []
    requires StartsSettled(config, log[..|log| - 1])
    requires Triggered(config, Replay(config, log[..|log| - 1]), log[|log| - 1])
    ensures StartsSettled(config, log)
  {
    var n := |log| - 1;
    var starts := Starts(config, log[..n]);
    OutcomesAdvance(config, log);
    QuietAfterOutcome(config, log[..n], log[n].keyID, log[n].now);
    SpacedAppend(starts, Least(config), log[n].now);
    assert Starts(config, log) == starts + [log[n].now];
  }

  lemma {:induction false} StartsAreSpaced(config: Config, log: seq<Event>)
    requires config.Positive() && LegalLog(config, log)
    ensures StartsSettled(config, log)
  {
    if log != [] {
      var n := |log| - 1;
      StartsAreSpaced(config, log[..n]);
      var s := Replay(config, log[..n]);
      if Triggered(config, s, log[n]) {
        TriggeredSettles(config, log);
      } else {
        if Recorded(config, s, log[n]) { OutcomesAdvance(config, log); }
        assert Starts(config, log) == Starts(config, log[..n]);
      }
    }
  }

  /** HTTP exchanges made by the lookup-triggered, recorded refreshes of a window. */
  function Requests(config: Config, log: seq<Event>, t: Time, width: Time): nat
    requires AllSupplied(config, log)
  {
    if log == [] then 0
    else
      var n := |log| - 1;
      Requests(config, log[..n], t, width) +
      if Triggered(config, Replay(config, log[..n]), log[n]) && t <= log[n].now <= t + width
      then LastFrom(config, log[n].fetch.attempts, 0) + 1 else 0
  }

  lemma {:induction false} RequestsPerStart(config: Config, log: seq<Event>, t: Time, width: Time)
    requires AllSupplied(config, log)
    ensures Requests(config, log, t, width) <= InWindow(Starts(config, log), t, width) * (|config.retryBackoff| + 1)
  {
    if log != [] {
      var n := |log| - 1;
      RequestsPerStart(config, log[..n], t, width);
      var starts := Starts(config, log[..n]);
      OneMore(InWindow(starts, t, width), |config.retryBackoff| + 1);
      if Triggered(config, Replay(config, log[..n]), log[n]) {
        InWindowAppend(starts, log[n].now, t, width);
        assert Starts(config, log) == starts + [log[n].now];
      } else {
        assert Starts(config, log) == starts;
      }
    }
  }

  /** The fetch rate: over any interleaving of lookups and manual refreshes, any window of length
      `width` holds at most `1 + width / m` lookup-triggered refreshes with a recorded outcome,
      `m` being the least of the TTL and the two cooldowns, and each makes a bounded number of
      requests. */
  lemma FetchRate(config: Config, log: seq<Event>, t: Time, width: Time)
    requires config.Positive() && LegalLog(config, log) && width >= 0
    ensures var count := InWindow(Starts(config, log), t, width);
            && count <= 1 + width / Least(config)
            && Requests(config, log, t, width) <= (1 + width / Least(config)) * (|config.retryBackoff| + 1)
  {
    StartsAreSpaced(config, log);
    RequestsPerStart(config, log, t, width);
    CountBound(Starts(config, log), Least(config), t, width, |config.retryBackoff| + 1);
  }

  // ---- Staleness ----------------------------------------------------------------------------------

  /** `served(t, keys)`: some instance answers a request at time `t` with a document that reads as
      these keys. */
  type Served = (Time, Keys) -> bool

  /** The document a successful attempt read was served at its snapshot, and the attempt took at
      most `bound`. */
  predicate FromServer(served: Served, bound: Time, a: Attempt, keys: Keys) {
    a.finished - a.started <= bound && served(a.snapshot, keys)
  }

  ghost predicate HonestFetch(config: Config, served: Served, bound: Time, fetch: Fetch)
    requires Supplied(config, fetch)
  {
    Outcome(config, fetch).Fetched? ==>
      FromServer(served, bound, Final(config, fetch), Outcome(config, fetch).keys)
  }

  ghost predicate Honest(config: Config, served: Served, bound: Time, log: seq<Event>) {
    forall i :: 0 <= i < |log| && Supplied(config, log[i].fetch) ==>
      HonestFetch(config, served, bound, log[i].fetch)
  }

  /** A document served at some time in the interval reads as these keys. */
  ghost predicate WasServed(served: Served, keys: Keys, from: Time, to: Time) {
    exists t :: served(t, keys) && from <= t <= to
  }

  lemma FetchReadsServer(config: Config, served: Served, bound: Time, from: Time, fetch: Fetch)
    requires 0 < from && LegalFetch(config, from, fetch) && Outcome(config, fetch).Fetched?
    requires HonestFetch(config, served, bound, fetch)
    ensures var keys, at := Outcome(config, fetch).keys, Final(config, fetch).finished;
            && from <= at <= fetch.recordedAt
            && WasServed(served, keys, from, at) && WasServed(served, keys, at - bound, at)
  {
    var a := Final(config, fetch);
    MadeAttemptsAreOrdered(config, from, fetch, LastFrom(config, fetch.attempts, 0));
    assert served(a.snapshot, Outcome(config, fetch).keys);
  }

  /** The cache always holds one whole document, read from the server at most `bound` before its
      stamp: never a mixture of two. */
  lemma {:induction false} HoldsOneDocument(config: Config, served: Served, bound: Time, log: seq<Event>)
    requires config.Positive() && LegalLog(config, log) && Honest(config, served, bound, log)
    ensures var s := Replay(config, log);
            s.lastRefresh != 0 ==> WasServed(served, s.keys, s.lastRefresh - bound, s.lastRefresh)
  {
    if log != [] {
      var n := |log| - 1;
      HoldsOneDocument(config, served, bound, log[..n]);
      var s, e := Replay(config, log[..n]), log[n];
      if Succeeds(config, s, e) { FetchReadsServer(config, served, bound, e.now, e.fetch); }
    }
  }

  function Shorter(config: Config): Time {
    if config.cacheTTL < config.refreshCooldown then config.cacheTTL else config.refreshCooldown
  }

  /** A document served in the interval gives the key under the kid, or has none under it. */
  ghost predicate WasNamed(served: Served, from: Time, to: Time, keyID: string, key: PublicKey) {
    exists t, keys :: served(t, keys) && from < t <= to && keyID in keys && keys[keyID] == key
  }

  ghost predicate Lacked(served: Served, from: Time, to: Time, keyID: string) {
    exists t, keys :: served(t, keys) && from < t <= to && keyID !in keys
  }

  lemma ReadAnswers(served: Served, keys: Keys, from: Time, to: Time, wider: Time, later: Time, keyID: string)
    requires WasServed(served, keys, from, to) && wider < from && to <= later
    ensures keyID in keys ==> WasNamed(served, wider, later, keyID, keys[keyID])
    ensures keyID !in keys ==> Lacked(served, wider, later, keyID)
  {
    var t :| served(t, keys) && from <= t <= to;
  }

  /** The answer rests on one document the server gave out: during the call, or at most `bound`
      before a stamp younger than the TTL (for an unknown kid, than the TTL and the cooldown). */
  ghost predicate Grounded(config: Config, served: Served, bound: Time, e: Event, answer: Result<PublicKey>)
    requires e.KeyCall?
  {
    && (answer.Ok? ==> WasNamed(served, e.now - config.cacheTTL - bound, e.returned, e.keyID, answer.value))
    && (answer.Err? && Is(answer.error, ErrUnknownKeyID) ==>
          Lacked(served, e.now - Shorter(config) - bound, e.returned, e.keyID))
  }

  /** Every key the cache gives out, and every kid it calls unknown, is grounded. */
  lemma AnswerRestsOnOneDocument(config: Config, served: Served, bound: Time, log: seq<Event>, e: Event)
    requires config.Positive() && bound >= 0 && e.KeyCall?
    requires LegalLog(config, log + [e]) && Honest(config, served, bound, log + [e])
    requires Supplied(config, e.fetch) && AllSupplied(config, log)
    ensures Grounded(config, served, bound, e, Answer(config, Replay(config, log), e))
  {
    LegalPrefix(config, log, e);
    HonestPrefix(config, served, bound, log, e);
    var s := Replay(config, log);
    InvHolds(config, log);
    if Fetches(config, s, e) {
      FetchedAnswer(config, served, bound, s, e);
    } else {
      if s.lastRefresh != 0 { HoldsOneDocument(config, served, bound, log); }
      CachedAnswer(config, served, bound, s, e);
    }
  }

  lemma FetchedAnswer(config: Config, served: Served, bound: Time, s: State, e: Event)
    requires config.Positive() && bound >= 0 && e.KeyCall?
    requires LegalEvent(config, s, e) && Inv(config, s, e.now) && Fetches(config, s, e)
    requires HonestFetch(config, served, bound, e.fetch)
    ensures Grounded(config, served, bound, e, Answer(config, s, e))
  {
    if Outcome(config, e.fetch).Fetched? {
      var keys, at := Outcome(config, e.fetch).keys, Final(config, e.fetch).finished;
      FetchReadsServer(config, served, bound, e.now, e.fetch);
      FreshAnswer(config, served, bound, e, keys, at);
    } else {
      FailedAnswer(config, s, e);
    }
  }

  lemma FailedAnswer(config: Config, s: State, e: Event)
    requires config.Positive() && e.KeyCall? && LegalEvent(config, s, e) && Inv(config, s, e.now)
    requires Fetches(config, s, e) && Outcome(config, e.fetch).Failed?
    ensures Answer(config, s, e).Err? && !Is(Answer(config, s, e).error, ErrUnknownKeyID)
  {
    FetchKeepsInv(config, s, e.now, e.fetch);
  }

  /** An answer taken from a document read during the call. */
  lemma FreshAnswer(config: Config, served: Served, bound: Time, e: Event, keys: Keys, at: Time)
    requires config.Positive() && bound >= 0 && e.KeyCall?
    requires WasServed(served, keys, e.now, at) && at <= e.returned
    ensures Grounded(config, served, bound, e,
                     if e.keyID in keys then Ok(keys[e.keyID]) else Err(Plain(ErrUnknownKeyID)))
  {
    ReadAnswers(served, keys, e.now, at, e.now - Shorter(config) - bound, e.returned, e.keyID);
    ReadAnswers(served, keys, e.now, at, e.now - config.cacheTTL - bound, e.returned, e.keyID);
  }

  lemma CachedAnswer(config: Config, served: Served, bound: Time, s: State, e: Event)
    requires config.Positive() && bound >= 0 && e.KeyCall? && 0 < e.now <= e.returned
    requires Supplied(config, e.fetch) && Inv(config, s, e.now) && !Fetches(config, s, e)
    requires s.lastRefresh != 0 ==> WasServed(served, s.keys, s.lastRefresh - bound, s.lastRefresh)
    ensures Grounded(config, served, bound, e, Answer(config, s, e))
  {
    var from, to := s.lastRefresh - bound, s.lastRefresh;
    if Decide(config, s, e.keyID, e.now).Serve? {
      ReadAnswers(served, s.keys, from, to, e.now - config.cacheTTL - bound, e.returned, e.keyID);
    } else if e.now < s.expiry && e.now - s.lastRefresh < config.refreshCooldown && e.keyID !in s.keys {
      ReadAnswers(served, s.keys, from, to, e.now - Shorter(config) - bound, e.returned, e.keyID);
    } else if e.keyID != "" {
      assert Answer(config, s, e) == Err(Wrapping(ErrFailureCooldown, s.lastError.value));
      assert !Is(Wrapping(ErrFailureCooldown, s.lastError.value), ErrUnknownKeyID);
    }
  }

  lemma LegalPrefix(config: Config, log: seq<Event>, e: Event)
    requires LegalLog(config, log + [e])
    ensures LegalLog(config, log) && EndOf(log) <= e.now && LegalEvent(config, Replay(config, log), e)
  {
    assert (log + [e])[..|log|] == log && (log + [e])[|log|] == e;
  }

  lemma HonestPrefix(config: Config, served: Served, bound: Time, log: seq<Event>, e: Event)
    requires Honest(config, served, bound, log + [e])
    ensures Honest(config, served, bound, log)
    ensures Supplied(config, e.fetch) ==> HonestFetch(config, served, bound, e.fetch)
  {
    forall i | 0 <= i < |log| ensures log[i] == (log + [e])[i] {}
    assert (log + [e])[|log|] == e;
  }

  /** A kid withdrawn for good at `t` is never given out by a lookup from `t + cacheTTL + bound`. */
  lemma WithdrawnKidIsForgotten(config: Config, served: Served, bound: Time, log: seq<Event>, e: Event, t: Time)
    requires config.Positive() && bound >= 0 && e.KeyCall?
    requires LegalLog(config, log + [e]) && Honest(config, served, bound, log + [e])
    requires Supplied(config, e.fetch) && AllSupplied(config, log)
    requires forall at, keys :: served(at, keys) && at >= t ==> e.keyID !in keys
    requires e.now >= t + config.cacheTTL + bound
    ensures Answer(config, Replay(config, log), e).Err?
  {
    AnswerRestsOnOneDocument(config, served, bound, log, e);
  }

  /** A kid published at `t` and kept is never called unknown from the shorter of TTL and
      cooldown plus `bound` later. */
  lemma PublishedKidIsKnown(config: Config, served: Served, bound: Time, log: seq<Event>, e: Event, t: Time)
    requires config.Positive() && bound >= 0 && e.KeyCall?
    requires LegalLog(config, log + [e]) && Honest(config, served, bound, log + [e])
    requires Supplied(config, e.fetch) && AllSupplied(config, log)
    requires forall at, keys :: served(at, keys) && at >= t ==> e.keyID in keys
    requires e.now >= t + Shorter(config) + bound
    ensures var answer := Answer(config, Replay(config, log), e);
            answer.Err? ==> !Is(answer.error, ErrUnknownKeyID)
  {
    AnswerRestsOnOneDocument(config, served, bound, log, e);
  }

  // ---- Which failures are which ---------------------------------------------------------------------

  /** The last document lacks the kid and is recent: fetched in this call, or stamped within both
      the TTL and the cooldown. */
  predicate RecentlyLacked(config: Config, s: State, e: Event)
    requires e.KeyCall? && Supplied(config, e.fetch)
  {
    || (Succeeds(config, s, e) && e.keyID !in After(config, s, e).keys)
    || (&& s.lastRefresh != 0 && e.keyID !in s.keys
        && e.now < s.lastRefresh + config.cacheTTL && e.now < s.lastRefresh + config.refreshCooldown)
  }

  lemma FetchUnknownIff(config: Config, s: State, e: Event)
    requires config.Positive() && e.KeyCall? && e.keyID != "" && Supplied(config, e.fetch)
    requires LegalEvent(config, s, e) && Inv(config, s, e.now) && Fetches(config, s, e)
    ensures var answer := Answer(config, s, e);
            && ((answer.Err? && Is(answer.error, ErrUnknownKeyID)) <==>
                  Succeeds(config, s, e) && e.keyID !in After(config, s, e).keys)
            && (answer.Err? && Is(answer.error, ErrUnknownKeyID) ==> answer.error == Plain(ErrUnknownKeyID))
  {
    FetchKeepsInv(config, s, e.now, e.fetch);
  }

  lemma CachedUnknownIff(config: Config, s: State, e: Event)
    requires config.Positive() && e.KeyCall? && e.keyID != "" && Supplied(config, e.fetch)
    requires 0 < e.now && Inv(config, s, e.now) && !Fetches(config, s, e)
    ensures var answer := Answer(config, s, e);
            && ((answer.Err? && Is(answer.error, ErrUnknownKeyID)) <==>
                  && s.lastRefresh != 0 && e.keyID !in s.keys
                  && e.now < s.lastRefresh + config.cacheTTL && e.now < s.lastRefresh + config.refreshCooldown)
            && (answer.Err? && Is(answer.error, ErrUnknownKeyID) ==> answer.error == Plain(ErrUnknownKeyID))
  {
    if s.lastError.Some? {
      assert !Is(Wrapping(ErrFailureCooldown, s.lastError.value), ErrUnknownKeyID);
    }
  }

  /** A kid is reported unknown exactly when the last document lacks it and was fetched in this
      call, or stamped within both the TTL and the cooldown. Every other failure is something
      else, the failure cooldown's included. */
  lemma UnknownIff(config: Config, log: seq<Event>, e: Event)
    requires config.Positive() && e.KeyCall? && e.keyID != ""
    requires AllSupplied(config, log) && Supplied(config, e.fetch) && LegalLog(config, log + [e])
    ensures var s := Replay(config, log);
            var answer := Answer(config, s, e);
            (answer.Err? && Is(answer.error, ErrUnknownKeyID)) <==> RecentlyLacked(config, s, e)
    ensures var answer := Answer(config, Replay(config, log), e);
            answer.Err? && Is(answer.error, ErrUnknownKeyID) ==> answer.error == Plain(ErrUnknownKeyID)
  {
    LegalPrefix(config, log, e);
    var s := Replay(config, log);
    InvHolds(config, log);
    if Fetches(config, s, e) { FetchUnknownIff(config, s, e); } else { CachedUnknownIff(config, s, e); }
  }
}
