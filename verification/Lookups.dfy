/** The key cache against a simpler account of itself: what a history of calls leaves is the last
    document and the failure recorded since, and a lookup's answer depends on nothing else. */
module Lookups {
  import opened Errors
  import opened InternalJwt
  import opened Jwk
  import opened KeyDocument
  import opened KeyCache
  import opened CacheRuns

  datatype Dated = Dated(keys: Keys, at: Time)
  datatype Failure = Failure(at: Time, error: Error)

  /** The last document fetched, and the last recorded outcome if it was a failure. */
  datatype Past = Past(document: Option<Dated>, failure: Option<Failure>)

  const NOTHING := Past(None, None)

  /** The last document is inside its TTL. */
  predicate Live(config: Config, p: Past, now: Time) {
    p.document.Some? && now < p.document.value.at + config.cacheTTL
  }

  predicate Holding(config: Config, p: Past, keyID: string, now: Time) {
    Live(config, p, now) && keyID in p.document.value.keys
  }

  /** The last document, stamped within both TTL and cooldown, lacks the kid. */
  predicate JustLacked(config: Config, p: Past, keyID: string, now: Time) {
    && Live(config, p, now) && now < p.document.value.at + config.refreshCooldown
    && keyID !in p.document.value.keys
  }

  predicate JustFailed(config: Config, p: Past, now: Time) {
    p.failure.Some? && now < p.failure.value.at + config.failureCooldown
  }

  /** When a call starts a refresh. */
  predicate Begins(config: Config, p: Past, e: Event) {
    || e.RefreshCall?
    || (&& e.keyID != "" && !Holding(config, p, e.keyID, e.now)
        && !JustLacked(config, p, e.keyID, e.now) && !JustFailed(config, p, e.now))
  }

  /** What a refresh adds to the past: a document, or a failure its caller did not cancel. */
  function Refreshed(config: Config, p: Past, fetch: Fetch): Past
    requires Supplied(config, fetch)
  {
    var last := Final(config, fetch);
    match Try(config, last.response)
    case Fetched(keys) => Past(Some(Dated(keys, last.finished)), None)
    case Failed(_, error) => if fetch.cancelled then p else p.(failure := Some(Failure(fetch.recordedAt, error)))
  }

  function PastOf(config: Config, log: seq<Event>): Past
    requires AllSupplied(config, log)
  {
    if log == [] then NOTHING
    else
      var p, e := PastOf(config, log[..|log| - 1]), log[|log| - 1];
      if Begins(config, p, e) then Refreshed(config, p, e.fetch) else p
  }

  /** The cache's fields say what the past says. */
  predicate Records(config: Config, s: State, p: Past) {
    && (match p.document
        case None => s.keys == map[] && s.lastRefresh == 0 && s.expiry == 0
        case Some(d) => s.keys == d.keys && s.lastRefresh == d.at && s.expiry == d.at + config.cacheTTL && d.at > 0)
    && (match p.failure
        case None => s.lastFailure == 0 && s.lastError == None
        case Some(f) => s.lastFailure == f.at && s.lastError == Some(f.error) && f.at > 0)
  }

  lemma BeginsWithRecords(config: Config, s: State, p: Past, e: Event)
    requires config.Positive() && Records(config, s, p) && e.now > 0
    ensures Fetches(config, s, e) <==> Begins(config, p, e)
  {}

  lemma RefreshKeepsRecords(config: Config, s: State, p: Past, from: Time, fetch: Fetch)
    requires config.Positive() && Records(config, s, p) && 0 < from
    requires LegalFetch(config, from, fetch) && Inv(config, s, from)
    ensures Records(config, AfterFetch(config, s, fetch), Refreshed(config, p, fetch))
  {
    FetchKeepsInv(config, s, from, fetch);
  }

  /** Every reachable state records exactly the past. */
  lemma {:induction false} StateRecordsPast(config: Config, log: seq<Event>)
    requires config.Positive() && LegalLog(config, log)
    ensures Records(config, Replay(config, log), PastOf(config, log))
  {
    if log != [] {
      var n := |log| - 1;
      StateRecordsPast(config, log[..n]);
      InvHolds(config, log[..n]);
      var s, p, e := Replay(config, log[..n]), PastOf(config, log[..n]), log[n];
      BeginsWithRecords(config, s, p, e);
      if Begins(config, p, e) { RefreshKeepsRecords(config, s, p, e.now, e.fetch); }
    }
  }

  /** After any history a lookup starts a refresh if and only if its kid is not empty, no live
      document names it, no recent one lacks it, and no failure was recorded less than the failure
      cooldown before. */
  lemma LookupRefreshesIff(config: Config, log: seq<Event>, e: Event)
    requires config.Positive() && e.KeyCall? && AllSupplied(config, log) && LegalLog(config, log + [e])
    ensures var p := PastOf(config, log);
            Fetches(config, Replay(config, log), e) <==>
            && e.keyID != "" && !Holding(config, p, e.keyID, e.now)
            && !JustLacked(config, p, e.keyID, e.now) && !JustFailed(config, p, e.now)
  {
    LegalPrefix(config, log, e);
    StateRecordsPast(config, log);
    BeginsWithRecords(config, Replay(config, log), PastOf(config, log), e);
  }

  /** What a lookup answers, by the past: the live document's key; an unknown kid; the recorded
      failure under a cooldown; otherwise what its own refresh brings. */
  lemma LookupAnswers(config: Config, log: seq<Event>, e: Event)
    requires config.Positive() && e.KeyCall? && AllSupplied(config, log) && Supplied(config, e.fetch)
    requires LegalLog(config, log + [e]) && e.keyID != ""
    ensures var p, answer := PastOf(config, log), Answer(config, Replay(config, log), e);
            && (Holding(config, p, e.keyID, e.now) ==> answer == Ok(p.document.value.keys[e.keyID]))
            && (JustLacked(config, p, e.keyID, e.now) ==> answer == Err(Plain(ErrUnknownKeyID)))
            && (!Holding(config, p, e.keyID, e.now) && !JustLacked(config, p, e.keyID, e.now)
                && JustFailed(config, p, e.now) ==>
                  answer == Err(Wrapping(ErrFailureCooldown, p.failure.value.error)))
            && (Begins(config, p, e) ==>
                  match Try(config, Final(config, e.fetch).response)
                  case Failed(_, error) => answer == Err(error)
                  case Fetched(keys) =>
                    answer == if e.keyID in keys then Ok(keys[e.keyID]) else Err(Plain(ErrUnknownKeyID)))
  {
    LegalPrefix(config, log, e);
    StateRecordsPast(config, log);
    BeginsWithRecords(config, Replay(config, log), PastOf(config, log), e);
  }

  /** Recovery: once the failure cooldown has passed, a lookup that no recent document already
      answers gives the key of the document its attempts bring, however many of them fail first. */
  lemma RecoversAfterCooldown(config: Config, log: seq<Event>, e: Event, n: nat, keys: Keys)
    requires config.Positive() && e.KeyCall? && AllSupplied(config, log) && Supplied(config, e.fetch)
    requires LegalLog(config, log + [e]) && e.keyID != "" && e.keyID in keys
    requires var p := PastOf(config, log);
             && (p.failure.Some? ==> e.now >= p.failure.value.at + config.failureCooldown)
             && !Holding(config, p, e.keyID, e.now) && !JustLacked(config, p, e.keyID, e.now)
    requires n <= |config.retryBackoff| && Delivers(config, e.fetch.attempts[n].response, keys)
    requires forall k :: 0 <= k < n ==> GoesOn(config, e.fetch.attempts, k)
    ensures Answer(config, Replay(config, log), e) == Ok(keys[e.keyID])
  {
    TryIff(config, e.fetch.attempts[n].response, keys);
    LastIs(config, e.fetch.attempts, 0, n);
    LookupAnswers(config, log, e);
  }
}
