/** The verification-key cache (jwks/cache.go): a mutex-guarded object whose calls are atomic.
    `Cache` is the object; the functions beside it say what each call does, and `Replay` what a
    whole history of calls leaves behind. */
module KeyCache {
  import opened Errors
  import opened InternalJwt
  import opened Jwk
  import opened KeyDocument

  const DEFAULT_CACHE_TTL: Time := 5 * MINUTE
  const DEFAULT_REFRESH_COOLDOWN: Time := 30 * SECOND
  const DEFAULT_FAILURE_COOLDOWN: Time := 5 * SECOND
  const DEFAULT_FETCH_TIMEOUT: Time := 5 * SECOND
  const DEFAULT_MAX_DOCUMENT_SIZE: int := 1048576
  const DEFAULT_RETRY_BACKOFF: seq<Time> := [100_000_000, 200_000_000]

  /** The configuration a caller hands in; `None` is a nil backoff slice. */
  datatype RawConfig = RawConfig(
    cacheTTL: Time, refreshCooldown: Time, failureCooldown: Time, fetchTimeout: Time,
    retryBackoff: Option<seq<Time>>, maxDocumentSize: int)

  datatype Config = Config(
    cacheTTL: Time, refreshCooldown: Time, failureCooldown: Time, fetchTimeout: Time,
    retryBackoff: seq<Time>, maxDocumentSize: int)
  {
    predicate Positive() {
      cacheTTL > 0 && refreshCooldown > 0 && failureCooldown > 0 && fetchTimeout > 0 && maxDocumentSize > 0
    }
  }

  function OrDefault(value: int, fallback: int): int {
    if value <= 0 then fallback else value
  }

  /** A positive setting is in force as given, any other as its default. */
  predicate Settled(given: int, fallback: int, value: int) {
    && value > 0
    && (given > 0 ==> value == given)
    && (given <= 0 ==> value == fallback)
  }

  function Effective(raw: RawConfig): (config: Config)
    ensures config.Positive()
    ensures Settled(raw.cacheTTL, DEFAULT_CACHE_TTL, config.cacheTTL)
    ensures Settled(raw.refreshCooldown, DEFAULT_REFRESH_COOLDOWN, config.refreshCooldown)
    ensures Settled(raw.failureCooldown, DEFAULT_FAILURE_COOLDOWN, config.failureCooldown)
    ensures Settled(raw.fetchTimeout, DEFAULT_FETCH_TIMEOUT, config.fetchTimeout)
    ensures Settled(raw.maxDocumentSize, DEFAULT_MAX_DOCUMENT_SIZE, config.maxDocumentSize)
    ensures config.retryBackoff == raw.retryBackoff.GetOr(DEFAULT_RETRY_BACKOFF)
  {
    Config(
      OrDefault(raw.cacheTTL, DEFAULT_CACHE_TTL),
      OrDefault(raw.refreshCooldown, DEFAULT_REFRESH_COOLDOWN),
      OrDefault(raw.failureCooldown, DEFAULT_FAILURE_COOLDOWN),
      OrDefault(raw.fetchTimeout, DEFAULT_FETCH_TIMEOUT),
      if raw.retryBackoff.None? then DEFAULT_RETRY_BACKOFF else raw.retryBackoff.value,
      OrDefault(raw.maxDocumentSize, DEFAULT_MAX_DOCUMENT_SIZE))
  }

  /** The configuration of a caller who sets nothing. */
  lemma DefaultsAre()
    ensures Effective(RawConfig(0, 0, 0, 0, None, 0))
         == Config(5 * MINUTE, 30 * SECOND, 5 * SECOND, 5 * SECOND, [SECOND / 10, SECOND / 5], 1024 * 1024)
  {}

  // ---- One attempt ----------------------------------------------------------------------------

  datatype Body = ReadFailed(cause: Error) | Complete(size: nat, content: JsonDocument)

  /** What one HTTP exchange came to. */
  datatype Response =
    | NoRequest(cause: Error)
    | NoResponse(cause: Error)
    | Responded(status: int, body: Body)

  /** One attempt as the world plays it: whether the wait before it was cut short by the context,
      when it began, when the server took the snapshot it answered with, the answer, the clock
      reading at its end, and whether the context had ended by then. */
  datatype Attempt = Attempt(
    waitCut: bool, started: Time, snapshot: Time, response: Response, finished: Time, cancelled: bool)

  datatype Tried = Fetched(keys: Keys) | Failed(retryable: bool, error: Error)

  predicate RetryableStatus(status: int) {
    status == 429 || status >= 500
  }

  function Try(config: Config, response: Response): Tried {
    match response
    case NoRequest(cause) => Failed(false, Wrapping(ErrFetch, cause))
    case NoResponse(cause) => Failed(true, Wrapping(ErrFetch, cause))
    case Responded(status, body) =>
      if status != 200 then Failed(RetryableStatus(status), Plain(ErrUnexpectedStatus))
      else match body
        case ReadFailed(cause) => Failed(true, Wrapping(ErrFetch, cause))
        case Complete(size, content) =>
          if size > config.maxDocumentSize then Failed(false, Plain(ErrDocumentTooLarge))
          else match KeysOf(content)
            case Err(e) => Failed(false, e)
            case Ok(keys) => Fetched(keys)
  }

  /** The responses a later attempt may recover from: none at all, one that breaks off, and the
      statuses by which a server says it is overloaded or at fault. */
  predicate Transient(response: Response) {
    || response.NoResponse?
    || (response.Responded? && response.status == 200 && response.body.ReadFailed?)
    || (response.Responded? && (response.status == 429 || 500 <= response.status))
  }

  /** A complete document within the size bound, every listed key readable and no kid twice, that
      holds exactly these keys. */
  predicate Delivers(config: Config, response: Response, keys: Keys) {
    && response.Responded? && response.status == 200
    && response.body.Complete? && response.body.size <= config.maxDocumentSize
    && response.body.content.Listing? && Readable(response.body.content.keys)
    && Holds(keys, map[], response.body.content.keys)
  }

  /** What an attempt comes to, by the response alone. */
  lemma TryIff(config: Config, response: Response, keys: Keys)
    ensures Try(config, response) == Fetched(keys) <==> Delivers(config, response, keys)
    ensures Try(config, response).Failed? && Try(config, response).retryable <==> Transient(response)
  {
    if response.Responded? && response.body.Complete? && response.body.content.Listing? {
      KeysOfIff(response.body.content.keys, keys);
    }
  }

  // ---- One refresh ----------------------------------------------------------------------------

  /** What the world holds ready for one refresh: an answer to every attempt it could make, the
      clock reading at which the outcome is recorded, and whether the context has ended by then. */
  datatype Fetch = Fetch(attempts: seq<Attempt>, recordedAt: Time, cancelled: bool)

  predicate Supplied(config: Config, fetch: Fetch) {
    |fetch.attempts| == |config.retryBackoff| + 1
  }

  /** The n-th attempt is the last one made. */
  predicate Stops(config: Config, attempts: seq<Attempt>, n: nat)
    requires n < |attempts|
  {
    || Try(config, attempts[n].response).Fetched?
    || !Try(config, attempts[n].response).retryable
    || attempts[n].cancelled
    || n + 1 == |attempts|
    || attempts[n + 1].waitCut
  }

  /** The index of the last attempt made, counting from the n-th. */
  function LastFrom(config: Config, attempts: seq<Attempt>, n: nat): (last: nat)
    requires n < |attempts|
    ensures n <= last < |attempts| && Stops(config, attempts, last)
    ensures forall k :: n <= k < last ==> !Stops(config, attempts, k)
    decreases |attempts| - n
  {
    if Stops(config, attempts, n) then n else LastFrom(config, attempts, n + 1)
  }

  /** The refresh would have gone on after its n-th attempt, but the wait was cut short. */
  predicate Cut(config: Config, attempts: seq<Attempt>, n: nat)
    requires n < |attempts|
  {
    && Try(config, attempts[n].response).Failed? && Try(config, attempts[n].response).retryable
    && !attempts[n].cancelled && n + 1 < |attempts| && attempts[n + 1].waitCut
  }

  /** The waits the refresh asks for after its n-th attempt: one before every further attempt it
      means to make, the last of them possibly cut short. */
  function Asked(config: Config, attempts: seq<Attempt>, n: nat): (waits: seq<Time>)
    requires n < |attempts| == |config.retryBackoff| + 1
    ensures n + |waits| < |attempts|
    decreases |attempts| - n
  {
    if Cut(config, attempts, n) then [config.retryBackoff[n]]
    else if Stops(config, attempts, n) then []
    else [config.retryBackoff[n]] + Asked(config, attempts, n + 1)
  }

  /** The backoffs in their order, up to the last attempt or the wait that was cut. */
  lemma {:induction false} AskedAreBackoffs(config: Config, attempts: seq<Attempt>, n: nat)
    requires n < |attempts| == |config.retryBackoff| + 1
    ensures var last := LastFrom(config, attempts, n);
            Asked(config, attempts, n) ==
              config.retryBackoff[n..last] + if Cut(config, attempts, last) then [config.retryBackoff[last]] else []
    decreases |attempts| - n
  {
    if !Stops(config, attempts, n) {
      AskedAreBackoffs(config, attempts, n + 1);
      var last := LastFrom(config, attempts, n);
      assert config.retryBackoff[n..last] == [config.retryBackoff[n]] + config.retryBackoff[n + 1..last];
    }
  }

  /** The attempt whose result is the refresh's. */
  function Final(config: Config, fetch: Fetch): Attempt
    requires Supplied(config, fetch)
  {
    fetch.attempts[LastFrom(config, fetch.attempts, 0)]
  }

  function Outcome(config: Config, fetch: Fetch): Tried
    requires Supplied(config, fetch)
  {
    Try(config, Final(config, fetch).response)
  }

  // ---- The state ------------------------------------------------------------------------------

  datatype State = State(
    keys: Keys, expiry: Time, lastRefresh: Time, lastFailure: Time, lastError: Option<Error>)

  const EMPTY := State(map[], 0, 0, 0, None)

  /** The state `fetchLocked` leaves. */
  function AfterFetch(config: Config, s: State, fetch: Fetch): State
    requires Supplied(config, fetch)
  {
    match Outcome(config, fetch)
    case Fetched(keys) =>
      var refreshed := Final(config, fetch).finished;
      State(keys, refreshed + config.cacheTTL, refreshed, 0, None)
    case Failed(_, error) =>
      if fetch.cancelled then s else s.(lastFailure := fetch.recordedAt, lastError := Some(error))
  }

  /** What `Key` decides on its clock reading, before any fetch. */
  datatype Decision = Serve(key: PublicKey) | Refuse(error: Error) | MustFetch

  function Decide(config: Config, s: State, keyID: string, now: Time): Decision {
    if keyID == "" then Refuse(Plain(ErrMissingKeyID))
    else if now < s.expiry && keyID in s.keys then Serve(s.keys[keyID])
    else if now < s.expiry && now - s.lastRefresh < config.refreshCooldown then Refuse(Plain(ErrUnknownKeyID))
    else if s.lastFailure != 0 && now - s.lastFailure < config.failureCooldown then
      Refuse(Wrapping(ErrFailureCooldown, s.lastError.GetOr(Plain(ErrFailureCooldown))))
    else MustFetch
  }

  // ---- Calls and histories ----------------------------------------------------------------------

  /** One call under the lock: the instant the lock is held, what the world would answer to a
      fetch, and the instant the call returns. */
  datatype Event =
    | KeyCall(keyID: string, now: Time, fetch: Fetch, returned: Time)
    | RefreshCall(now: Time, fetch: Fetch, returned: Time)

  predicate Fetches(config: Config, s: State, e: Event) {
    e.RefreshCall? || Decide(config, s, e.keyID, e.now).MustFetch?
  }

  function After(config: Config, s: State, e: Event): State
    requires Supplied(config, e.fetch)
  {
    if Fetches(config, s, e) then AfterFetch(config, s, e.fetch) else s
  }

  /** The answer of a `Key` call. */
  function Answer(config: Config, s: State, e: Event): Result<PublicKey>
    requires e.KeyCall? && Supplied(config, e.fetch)
  {
    match Decide(config, s, e.keyID, e.now)
    case Serve(key) => Ok(key)
    case Refuse(error) => Err(error)
    case MustFetch =>
      match Outcome(config, e.fetch)
      case Failed(_, error) => Err(error)
      case Fetched(keys) => if e.keyID in keys then Ok(keys[e.keyID]) else Err(Plain(ErrUnknownKeyID))
  }

  predicate AllSupplied(config: Config, log: seq<Event>) {
    forall i :: 0 <= i < |log| ==> Supplied(config, log[i].fetch)
  }

  function Replay(config: Config, log: seq<Event>): State
    requires AllSupplied(config, log)
  {
    if log == [] then EMPTY
    else After(config, Replay(config, log[..|log| - 1]), log[|log| - 1])
  }

  lemma ReplayStep(config: Config, log: seq<Event>, e: Event)
    requires AllSupplied(config, log) && Supplied(config, e.fetch)
    ensures AllSupplied(config, log + [e])
    ensures Replay(config, log + [e]) == After(config, Replay(config, log), e)
  {
    assert (log + [e])[..|log|] == log;
  }

  // ---- The object -------------------------------------------------------------------------------

  class Cache {
    const config: Config
    var keys: Keys
    var expiry: Time
    var lastRefresh: Time
    var lastFailure: Time
    var lastError: Option<Error>
    /** Every call made so far. */
    ghost var log: seq<Event>

    ghost function Now(): State
      reads this
    {
      State(keys, expiry, lastRefresh, lastFailure, lastError)
    }

    /** The fields are what the recorded calls leave behind. */
    ghost predicate Valid()
      reads this
    {
      config.Positive() && AllSupplied(config, log) && Now() == Replay(config, log)
    }

    constructor (raw: RawConfig)
      ensures Valid() && log == [] && config == Effective(raw)
    {
      config := Effective(raw);
      keys, expiry, lastRefresh, lastFailure, lastError := map[], 0, 0, 0, None;
      log := [];
    }

    /** One fetch; only a document that parses changes anything. */
    method RefreshOnce(attempt: Attempt) returns (retryable: bool, err: Option<Error>)
      modifies `keys, `expiry, `lastRefresh
      ensures match Try(config, attempt.response)
              case Fetched(fetched) =>
                && err == None && keys == fetched && lastRefresh == attempt.finished
                && expiry == attempt.finished + config.cacheTTL
              case Failed(again, error) =>
                && err == Some(error) && retryable == again
                && keys == old(keys) && expiry == old(expiry) && lastRefresh == old(lastRefresh)
    {
      var response := attempt.response;
      if response.NoRequest? { return false, Some(Wrapping(ErrFetch, response.cause)); }
      if response.NoResponse? { return true, Some(Wrapping(ErrFetch, response.cause)); }
      if response.status != 200 {
        return RetryableStatus(response.status), Some(Plain(ErrUnexpectedStatus));
      }
      if response.body.ReadFailed? { return true, Some(Wrapping(ErrFetch, response.body.cause)); }
      if response.body.size > config.maxDocumentSize { return false, Some(Plain(ErrDocumentTooLarge)); }
      var parsed := ParseKeys(response.body.content);
      if parsed.Err? { return false, Some(parsed.error); }
      var refreshed := attempt.finished;
      keys := parsed.value;
      expiry := refreshed + config.cacheTTL;
      lastRefresh := refreshed;
      return false, None;
    }

    /** The retry loop: it ends with the first attempt that `Stops` and reports that one. `waits`
        are the durations it passed to `sleep`. */
    method RefreshKeys(fetch: Fetch) returns (err: Option<Error>, made: nat, waits: seq<Time>)
      requires Supplied(config, fetch)
      modifies `keys, `expiry, `lastRefresh
      ensures made == LastFrom(config, fetch.attempts, 0) + 1
      ensures waits == Asked(config, fetch.attempts, 0)
      ensures waits == config.retryBackoff[..made - 1] +
                       if Cut(config, fetch.attempts, made - 1) then [config.retryBackoff[made - 1]] else []
      ensures match Outcome(config, fetch)
              case Fetched(fetched) =>
                var refreshed := Final(config, fetch).finished;
                && err == None && keys == fetched && lastRefresh == refreshed
                && expiry == refreshed + config.cacheTTL
              case Failed(_, error) =>
                && err == Some(error)
                && keys == old(keys) && expiry == old(expiry) && lastRefresh == old(lastRefresh)
    {
      var attempts := fetch.attempts;
      err, made, waits := None, 0, [];
      var retryable := true;
      AskedAreBackoffs(config, attempts, 0);
      while made < |config.retryBackoff| + 1
        invariant 0 <= made <= |attempts|
        invariant keys == old(keys) && expiry == old(expiry) && lastRefresh == old(lastRefresh)
        invariant waits == if made == 0 then [] else config.retryBackoff[..made - 1]
        invariant made == 0 ==> LastFrom(config, attempts, 0) == LastFrom(config, attempts, made)
        invariant made > 0 ==>
                    && Try(config, attempts[made - 1].response).Failed?
                    && Try(config, attempts[made - 1].response).retryable
                    && !attempts[made - 1].cancelled
                    && err == Some(Try(config, attempts[made - 1].response).error)
                    && LastFrom(config, attempts, 0) == LastFrom(config, attempts, made - 1)
      {
        if made > 0 {
          waits := waits + [config.retryBackoff[made - 1]];
          if attempts[made].waitCut {
            return;
          }
        }
        retryable, err := RefreshOnce(attempts[made]);
        made := made + 1;
        if err.None? {
          return;
        }
        if !retryable || attempts[made - 1].cancelled {
          return;
        }
      }
    }

    method FetchLocked(fetch: Fetch) returns (err: Option<Error>)
      requires Supplied(config, fetch)
      modifies `keys, `expiry, `lastRefresh, `lastFailure, `lastError
      ensures Now() == AfterFetch(config, old(Now()), fetch)
      ensures match Outcome(config, fetch)
              case Fetched(_) => err == None
              case Failed(_, error) => err == Some(error)
    {
      var made, waits;
      err, made, waits := RefreshKeys(fetch);
      if err.None? {
        lastFailure := 0;
        lastError := None;
        return;
      }
      if fetch.cancelled {
        return;
      }
      lastFailure := fetch.recordedAt;
      lastError := err;
    }

    method Key(keyID: string, now: Time, fetch: Fetch, ghost returned: Time) returns (result: Result<PublicKey>)
      requires Valid() && Supplied(config, fetch)
      modifies this
      ensures Valid() && log == old(log) + [KeyCall(keyID, now, fetch, returned)]
      ensures Now() == After(config, old(Now()), KeyCall(keyID, now, fetch, returned))
      ensures result == Answer(config, old(Now()), KeyCall(keyID, now, fetch, returned))
    {
      ghost var e := KeyCall(keyID, now, fetch, returned);
      ReplayStep(config, log, e);
      log := log + [e];
      if keyID == "" {
        return Err(Plain(ErrMissingKeyID));
      }
      if now < expiry {
        if keyID in keys {
          return Ok(keys[keyID]);
        }
        if now - lastRefresh < config.refreshCooldown {
          return Err(Plain(ErrUnknownKeyID));
        }
      }
      if lastFailure != 0 && now - lastFailure < config.failureCooldown {
        return Err(Wrapping(ErrFailureCooldown, lastError.GetOr(Plain(ErrFailureCooldown))));
      }
      var err := FetchLocked(fetch);
      if err.Some? {
        return Err(err.value);
      }
      if keyID !in keys {
        return Err(Plain(ErrUnknownKeyID));
      }
      return Ok(keys[keyID]);
    }

    method Refresh(ghost now: Time, fetch: Fetch, ghost returned: Time) returns (err: Option<Error>)
      requires Valid() && Supplied(config, fetch)
      modifies this
      ensures Valid() && log == old(log) + [RefreshCall(now, fetch, returned)]
      ensures Now() == AfterFetch(config, old(Now()), fetch)
      ensures err.None? <==> Outcome(config, fetch).Fetched?
      ensures err.Some? ==> err.value == Outcome(config, fetch).error
    {
      ghost var e := RefreshCall(now, fetch, returned);
      ReplayStep(config, log, e);
      log := log + [e];
      err := FetchLocked(fetch);
    }
  }
}
