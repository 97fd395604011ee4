/** The reloading key provider (issuer/keys.go): keys on disk under fixed kids, re-read once an
    interval has passed, the last good set kept when a re-read fails. */
module FileKeys {
  import opened Errors
  import opened InternalJwt
  import opened Jwk
  import opened Signer
  import opened Spacing

  const DEFAULT_REFRESH_INTERVAL: Time := MINUTE

  datatype KeyFile = KeyFile(path: string, keyID: string)

  datatype Config = Config(signing: KeyFile, published: seq<KeyFile>, refreshInterval: Time)

  /** The configuration in force: a non-positive interval is the default one. */
  function Effective(raw: Config): (config: Config)
    ensures config.refreshInterval > 0
    ensures raw.refreshInterval > 0 ==> config == raw
    ensures config.signing == raw.signing && config.published == raw.published
    ensures raw.refreshInterval <= 0 ==> config.refreshInterval == MINUTE
  {
    raw.(refreshInterval := if raw.refreshInterval <= 0 then DEFAULT_REFRESH_INTERVAL else raw.refreshInterval)
  }

  /** What reading and parsing each configured file gave during one load. */
  datatype Disk = Disk(signing: Result<PrivateKey>, published: seq<Result<PublicKey>>)

  predicate Answers(config: Config, disk: Disk) {
    |disk.published| == |config.published|
  }

  /** The x509 parser hands out only points on their curve. */
  predicate Sound(disk: Disk) {
    && (disk.signing.Ok? && disk.signing.value.public.curve == P256 ==> Usable(disk.signing.value.public))
    && forall i :: 0 <= i < |disk.published| ==>
         disk.published[i].Ok? && disk.published[i].value.curve == P256 ==> Usable(disk.published[i].value)
  }

  function ReadPrivate(file: KeyFile, read: Result<PrivateKey>): Result<PrivateKey> {
    if file.path == "" then Err(Plain(ErrMissingKeyFilePath))
    else if read.Ok? && read.value.public.curve != P256 then Err(Plain(ErrUnsupportedCurve))
    else read
  }

  function ReadPublic(file: KeyFile, read: Result<PublicKey>): Result<PublicKey> {
    if file.path == "" then Err(Plain(ErrMissingKeyFilePath))
    else if read.Ok? && read.value.curve != P256 then Err(Plain(ErrUnsupportedCurve))
    else read
  }

  function LoadRest(files: seq<KeyFile>, answers: seq<Result<PublicKey>>, seen: set<string>): Result<seq<PublishedKey>>
    requires |files| == |answers|
  {
    if files == [] then Ok([])
    else if files[0].keyID == "" then Err(Plain(ErrMissingPublishedKeyID))
    else if files[0].keyID in seen then Err(Plain(ErrDuplicateKeyID))
    else match ReadPublic(files[0], answers[0])
      case Err(e) => Err(e)
      case Ok(key) =>
        Prepended([PublishedKey(files[0].keyID, Some(key))],
                  LoadRest(files[1..], answers[1..], seen + {files[0].keyID}))
  }

  function Prepended(loaded: seq<PublishedKey>, rest: Result<seq<PublishedKey>>): Result<seq<PublishedKey>> {
    match rest case Err(e) => Err(e) case Ok(more) => Ok(loaded + more)
  }

  function Loaded(config: Config, disk: Disk): Result<KeySet>
    requires Answers(config, disk)
  {
    if config.signing.keyID == "" then Err(Plain(ErrMissingSigningKeyID))
    else match ReadPrivate(config.signing, disk.signing)
      case Err(e) => Err(e)
      case Ok(key) =>
        match LoadRest(config.published, disk.published, {config.signing.keyID})
        case Err(e) => Err(e)
        case Ok(published) => Ok(KeySet(SigningKey(config.signing.keyID, Some(key)), published))
  }

  lemma LoadStep(loaded: seq<PublishedKey>, files: seq<KeyFile>, answers: seq<Result<PublicKey>>, seen: set<string>)
    requires |files| == |answers| && files != []
    requires files[0].keyID != "" && files[0].keyID !in seen && ReadPublic(files[0], answers[0]).Ok?
    ensures var key := PublishedKey(files[0].keyID, Some(ReadPublic(files[0], answers[0]).value));
            Prepended(loaded, LoadRest(files, answers, seen))
              == Prepended(loaded + [key], LoadRest(files[1..], answers[1..], seen + {files[0].keyID}))
  {
    var key := PublishedKey(files[0].keyID, Some(ReadPublic(files[0], answers[0]).value));
    var rest := LoadRest(files[1..], answers[1..], seen + {files[0].keyID});
    if rest.Ok? { assert loaded + ([key] + rest.value) == loaded + [key] + rest.value; }
  }

  /** `load`: the loop over the published files. */
  method Load(config: Config, disk: Disk) returns (keys: Result<KeySet>)
    requires Answers(config, disk)
    ensures keys == Loaded(config, disk)
  {
    if config.signing.keyID == "" {
      return Err(Plain(ErrMissingSigningKeyID));
    }
    var signingKey := ReadPrivate(config.signing, disk.signing);
    if signingKey.Err? {
      return Err(signingKey.error);
    }
    var published := [];
    var seen := {config.signing.keyID};
    var i := 0;
    ghost var all := LoadRest(config.published, disk.published, seen);
    assert config.published[i..] == config.published && disk.published[i..] == disk.published;
    assert all.Ok? ==> published + all.value == all.value;
    while i < |config.published|
      invariant 0 <= i <= |config.published|
      invariant LoadRest(config.published, disk.published, {config.signing.keyID})
             == Prepended(published, LoadRest(config.published[i..], disk.published[i..], seen))
    {
      var file := config.published[i];
      ghost var files, answers := config.published[i..], disk.published[i..];
      assert files[1..] == config.published[i + 1..] && answers[1..] == disk.published[i + 1..];
      if file.keyID == "" {
        return Err(Plain(ErrMissingPublishedKeyID));
      }
      if file.keyID in seen {
        return Err(Plain(ErrDuplicateKeyID));
      }
      var key := ReadPublic(file, disk.published[i]);
      if key.Err? {
        return Err(key.error);
      }
      LoadStep(published, files, answers, seen);
      seen := seen + {file.keyID};
      published := published + [PublishedKey(file.keyID, Some(key.value))];
      i := i + 1;
    }
    assert published + [] == published;
    return Ok(KeySet(SigningKey(config.signing.keyID, Some(signingKey.value)), published));
  }

  // ---- Calls and histories ----------------------------------------------------------------------

  /** One call of `Current`: its clock reading, and what the files would read as. */
  datatype Call = Call(now: Time, disk: Disk)

  datatype State = State(keys: KeySet, loadedAt: Time)

  predicate Reloads(config: Config, s: State, call: Call) {
    call.now - s.loadedAt >= config.refreshInterval
  }

  function Step(config: Config, s: State, call: Call): State
    requires Answers(config, call.disk)
  {
    if !Reloads(config, s, call) then s
    else match Loaded(config, call.disk)
      case Err(_) => s.(loadedAt := call.now)
      case Ok(keys) => State(keys, call.now)
  }

  predicate AllAnswer(config: Config, log: seq<Call>) {
    forall i :: 0 <= i < |log| ==> Answers(config, log[i].disk)
  }

  /** The state after construction from `first` and a history of calls. */
  function Replay(config: Config, first: State, log: seq<Call>): State
    requires AllAnswer(config, log)
  {
    if log == [] then first
    else Step(config, Replay(config, first, log[..|log| - 1]), log[|log| - 1])
  }

  // ---- The object -------------------------------------------------------------------------------

  class FileKeyProvider {
    const config: Config
    var signing: SigningKey
    var published: array<PublishedKey>
    var loadedAt: Time
    /** The state construction left, and every call since. */
    ghost const first: State
    ghost var log: seq<Call>

    ghost function Now(): State
      reads this, published
    {
      State(KeySet(signing, published[..]), loadedAt)
    }

    ghost predicate Valid()
      reads this, published
    {
      config.refreshInterval > 0 && AllAnswer(config, log) && Now() == Replay(config, first, log)
    }

    constructor (config: Config, keys: KeySet, loadedAt: Time)
      requires config.refreshInterval > 0
      ensures Valid() && fresh(published) && log == []
      ensures this.config == config && first == Now() == State(keys, loadedAt)
    {
      this.config := config;
      signing := keys.signing;
      var slice := new PublishedKey[|keys.published|](i requires 0 <= i < |keys.published| => keys.published[i]);
      published := slice;
      this.loadedAt := loadedAt;
      first := State(keys, loadedAt);
      log := [];
      new;
      assert published[..] == keys.published;
    }

    /** `NewFileKeyProvider`: it exists only after one successful load. */
    static method New(raw: Config, disk: Disk, now: Time) returns (provider: FileKeyProvider?, err: Option<Error>)
      requires Answers(raw, disk)
      ensures var config := Effective(raw);
              && Answers(config, disk)
              && (provider != null <==> err.None?) && (provider != null <==> Loaded(config, disk).Ok?)
              && (err.Some? ==> Loaded(config, disk) == Err(err.value))
              && (provider != null ==>
                    && fresh(provider) && fresh(provider.published) && provider.Valid() && provider.config == config
                    && provider.Now() == provider.first == State(Loaded(config, disk).value, now) && provider.log == [])
    {
      var config := Effective(raw);
      var keys := Load(config, disk);
      if keys.Err? {
        return null, Some(keys.error);
      }
      provider := new FileKeyProvider(config, keys.value, now);
      err := None;
    }

    /** `Current`: it never fails, and its slice belongs to the caller alone. */
    method Current(now: Time, disk: Disk) returns (signingKey: SigningKey, slice: array<PublishedKey>)
      requires Valid() && Answers(config, disk)
      modifies this
      ensures Valid() && log == old(log) + [Call(now, disk)]
      ensures Now() == Step(config, old(Now()), Call(now, disk))
      ensures published == old(published) || fresh(published)
      ensures fresh(slice) && slice != published
      ensures KeySet(signingKey, slice[..]) == Now().keys
    {
      assert (log + [Call(now, disk)])[..|log|] == log;
      log := log + [Call(now, disk)];
      if now - loadedAt >= config.refreshInterval {
        var keys := Load(config, disk);
        if keys.Ok? {
          var loaded := keys.value.published;
          signing := keys.value.signing;
          published := new PublishedKey[|loaded|](i requires 0 <= i < |loaded| => loaded[i]);
          assert published[..] == loaded;
        }
        loadedAt := now;
      }
      signingKey := signing;
      slice := CloneOf(published);
    }
  }

  /** `slices.Clone`. */
  method CloneOf(a: array<PublishedKey>) returns (copy: array<PublishedKey>)
    ensures fresh(copy) && copy[..] == a[..]
  {
    copy := new PublishedKey[a.Length](i requires 0 <= i < a.Length reads a => a[i]);
  }

  /** Whatever a caller writes into the slice it got, at whichever places and however often, the
      next caller gets what it would have got anyway. */
  method CallerCannotDisturb(provider: FileKeyProvider, now: Time, disk: Disk,
                             writes: seq<(nat, PublishedKey)>, later: Time, laterDisk: Disk)
    returns (keys: KeySet)
    requires provider.Valid() && Answers(provider.config, disk) && Answers(provider.config, laterDisk)
    modifies provider
    ensures provider.Valid()
    ensures var s := Step(provider.config, old(provider.Now()), Call(now, disk));
            keys == Step(provider.config, s, Call(later, laterDisk)).keys
  {
    var signingKey, slice := provider.Current(now, disk);
    ghost var before := provider.Now();
    for i := 0 to |writes|
      invariant provider.Valid() && slice != provider.published && provider.Now() == before
    {
      var (at, key) := writes[i];
      if at < slice.Length {
        slice[at] := key;
      }
    }
    signingKey, slice := provider.Current(later, laterDisk);
    return KeySet(signingKey, slice[..]);
  }

  // ---- Over runs --------------------------------------------------------------------------------

  /** The kids of a key set, the signing kid first. */
  function Kids(k: KeySet): seq<string> {
    seq(|Named(k)|, i requires 0 <= i < |Named(k)| => Named(k)[i].keyID)
  }

  function ConfiguredKids(config: Config): seq<string> {
    [config.signing.keyID]
    + seq(|config.published|, i requires 0 <= i < |config.published| => config.published[i].keyID)
  }

  lemma {:induction false} LoadRestCorrect(files: seq<KeyFile>, answers: seq<Result<PublicKey>>, seen: set<string>)
    requires |files| == |answers| && LoadRest(files, answers, seen).Ok?
    ensures var r := LoadRest(files, answers, seen).value;
            && |r| == |files|
            && (forall i :: 0 <= i < |r| ==>
                  && r[i].keyID == files[i].keyID && r[i].keyID != "" && r[i].keyID !in seen
                  && answers[i].Ok? && r[i].key == Some(answers[i].value) && answers[i].value.curve == P256)
            && DistinctKids(r)
  {
    if files != [] {
      LoadRestCorrect(files[1..], answers[1..], seen + {files[0].keyID});
      var r := LoadRest(files, answers, seen).value;
      var rest := LoadRest(files[1..], answers[1..], seen + {files[0].keyID}).value;
      assert forall i :: 0 < i < |r| ==> r[i] == rest[i - 1];
    }
  }

  lemma LoadedNames(config: Config, disk: Disk)
    requires Answers(config, disk) && Loaded(config, disk).Ok?
    ensures var all := Named(Loaded(config, disk).value);
            && |all| == |config.published| + 1 && DistinctKids(all)
            && disk.signing.Ok? && disk.signing.value.public.curve == P256
            && all[0] == PublishedKey(config.signing.keyID, Some(disk.signing.value.public)) && all[0].keyID != ""
            && forall i :: 0 <= i < |config.published| ==>
                 && disk.published[i].Ok? && disk.published[i].value.curve == P256
                 && all[i + 1] == PublishedKey(config.published[i].keyID, Some(disk.published[i].value))
                 && all[i + 1].keyID != ""
  {
    var k := Loaded(config, disk).value;
    LoadRestCorrect(config.published, disk.published, {config.signing.keyID});
    var all := Named(k);
    assert forall i :: 0 <= i < |k.published| ==> all[i + 1] == k.published[i];
    forall i, j | 0 <= i < j < |all| ensures all[i].keyID != all[j].keyID {
      assert all[j] == k.published[j - 1];
      if i > 0 { assert all[i] == k.published[i - 1]; }
    }
  }

  lemma LoadedKids(config: Config, disk: Disk)
    requires Answers(config, disk) && Loaded(config, disk).Ok?
    ensures Kids(Loaded(config, disk).value) == ConfiguredKids(config)
  {
    LoadedNames(config, disk);
    var all, kids := Named(Loaded(config, disk).value), ConfiguredKids(config);
    forall i | 0 <= i < |all| ensures all[i].keyID == kids[i] {
      if i > 0 {
        var j := i - 1;
        assert all[j + 1].keyID == config.published[j].keyID == kids[j + 1];
      }
    }
  }

  /** A successful load can always be published: distinct non-empty kids, usable keys. And its
      kids are the configured ones, whatever the files held. */
  lemma LoadedIsPublishable(config: Config, disk: Disk)
    requires Answers(config, disk) && Sound(disk) && Loaded(config, disk).Ok?
    ensures var k := Loaded(config, disk).value;
            Publishable(Named(k)) && Document(Ok(k)).Ok? && Kids(k) == ConfiguredKids(config)
  {
    LoadedKids(config, disk);
    LoadedNames(config, disk);
    var all := Named(Loaded(config, disk).value);
    forall i | 0 <= i < |all| ensures Nameable(all[i]) {
      if i > 0 {
        var j := i - 1;
        assert Usable(disk.published[j].value);
        assert Nameable(all[j + 1]);
      }
    }
    DocumentCorrect(Loaded(config, disk).value);
  }

  predicate AllSound(log: seq<Call>) {
    forall i :: 0 <= i < |log| ==> Sound(log[i].disk)
  }

  /** Construction succeeded, on files read soundly. */
  predicate Opened(config: Config, first: State, disk: Disk) {
    Answers(config, disk) && Sound(disk) && Loaded(config, disk) == Ok(first.keys)
  }

  /** The clock readings of the load attempts, construction first, failed ones included. */
  function LoadTimes(config: Config, first: State, log: seq<Call>): (times: seq<Time>)
    requires AllAnswer(config, log)
    ensures times != []
  {
    if log == [] then [first.loadedAt]
    else
      var n := |log| - 1;
      LoadTimes(config, first, log[..n]) +
      if Reloads(config, Replay(config, first, log[..n]), log[n]) then [log[n].now] else []
  }

  /** Load attempts, failed ones included, lie at least one interval apart. */
  lemma {:induction false} LoadsAreSpaced(config: Config, first: State, log: seq<Call>)
    requires AllAnswer(config, log)
    ensures var times := LoadTimes(config, first, log);
            && Spaced(times, config.refreshInterval)
            && times[|times| - 1] == Replay(config, first, log).loadedAt
  {
    if log != [] { LoadsAreSpaced(config, first, log[..|log| - 1]); }
  }

  /** Every load attempt after the call numbered `at` failed. */
  predicate FailedSince(config: Config, first: State, log: seq<Call>, at: int)
    requires AllAnswer(config, log) && -1 <= at < |log|
  {
    at == |log| - 1 ||
    (var n := |log| - 1;
     && FailedSince(config, first, log[..n], at)
     && (Reloads(config, Replay(config, first, log[..n]), log[n]) ==> Loaded(config, log[n].disk).Err?))
  }

  /** These are the keys of one whole successful load: construction's (`at == -1`), or that of the
      call numbered `at`. */
  predicate KeysOfLoad(config: Config, first: State, log: seq<Call>, at: int, keys: KeySet)
    requires AllAnswer(config, log) && -1 <= at < |log|
  {
    if at == -1 then keys == first.keys
    else Reloads(config, Replay(config, first, log[..at]), log[at]) && Loaded(config, log[at].disk) == Ok(keys)
  }

  /** The last successful load: -1 for construction's, or the number of the call that made it. */
  function LastGood(config: Config, first: State, log: seq<Call>): (at: int)
    requires AllAnswer(config, log)
    ensures -1 <= at < |log|
  {
    if log == [] then -1
    else
      var n := |log| - 1;
      if Reloads(config, Replay(config, first, log[..n]), log[n]) && Loaded(config, log[n].disk).Ok? then n
      else LastGood(config, first, log[..n])
  }

  /** `Current` always hands out the last whole successful load: no later attempt succeeded. */
  lemma {:induction false} HandsOutLastGood(config: Config, first: State, log: seq<Call>)
    requires AllAnswer(config, log)
    ensures var at := LastGood(config, first, log);
            && KeysOfLoad(config, first, log, at, Replay(config, first, log).keys)
            && FailedSince(config, first, log, at)
  {
    if log != [] {
      var n, at := |log| - 1, LastGood(config, first, log);
      HandsOutLastGood(config, first, log[..n]);
      if at < n {
        LoadStands(config, first, log, at, Replay(config, first, log[..n]).keys);
      }
    }
  }

  lemma LoadStands(config: Config, first: State, log: seq<Call>, at: int, keys: KeySet)
    requires AllAnswer(config, log) && log != [] && -1 <= at < |log| - 1
    requires KeysOfLoad(config, first, log[..|log| - 1], at, keys)
    ensures KeysOfLoad(config, first, log, at, keys)
  {
    if at >= 0 { assert log[..|log| - 1][..at] == log[..at]; }
  }

  /** With this provider the issuer never fails to publish, over any run. */
  lemma PublishingNeverFails(config: Config, first: State, disk: Disk, log: seq<Call>)
    requires AllAnswer(config, log) && AllSound(log) && Opened(config, first, disk)
    ensures var k := Replay(config, first, log).keys;
            Document(Ok(k)).Ok? && Kids(k) == ConfiguredKids(config)
  {
    HandsOutLastGood(config, first, log);
    var at := LastGood(config, first, log);
    LoadedIsPublishable(config, if at == -1 then disk else log[at].disk);
  }

  function LoadTime(first: State, log: seq<Call>, at: int): Time
    requires -1 <= at < |log|
  {
    if at == -1 then first.loadedAt else log[at].now
  }

  ghost predicate NoRereadFails(config: Config, first: State, log: seq<Call>)
    requires AllAnswer(config, log)
  {
    forall j :: 0 <= j < |log| && Reloads(config, Replay(config, first, log[..j]), log[j]) ==>
      Loaded(config, log[j].disk).Ok?
  }

  /** When no re-read fails, the keys a call hands out were read less than one interval before. */
  lemma {:induction false} LagWithinInterval(config: Config, first: State, log: seq<Call>)
    requires config.refreshInterval > 0 && AllAnswer(config, log) && NoRereadFails(config, first, log)
    ensures LoadTime(first, log, LastGood(config, first, log)) == Replay(config, first, log).loadedAt
    ensures log != [] ==>
              log[|log| - 1].now - LoadTime(first, log, LastGood(config, first, log)) < config.refreshInterval
  {
    if log != [] {
      var n := |log| - 1;
      forall j | 0 <= j < n ensures log[..n][..j] == log[..j] && log[..n][j] == log[j] {}
      LagWithinInterval(config, first, log[..n]);
      assert log[..n] == log[..n];
    }
  }

  /** A kid does not name one key for good under this provider: the kids are fixed by the
      configuration, so replacing a file changes the key under its kid. Two loads name the same
      key by every kid exactly when the files read the same. */
  lemma KidsKeepTheirKeysIff(config: Config, a: Disk, b: Disk)
    requires Answers(config, a) && Answers(config, b)
    requires Loaded(config, a).Ok? && Loaded(config, b).Ok?
    ensures Kids(Loaded(config, a).value) == Kids(Loaded(config, b).value)
    ensures Named(Loaded(config, a).value) == Named(Loaded(config, b).value) <==> a == b
  {
    LoadedKids(config, a);
    LoadedKids(config, b);
    LoadedNames(config, a);
    LoadedNames(config, b);
    var m, n := Named(Loaded(config, a).value), Named(Loaded(config, b).value);
    if m == n {
      assert a.signing.value == b.signing.value;
      forall i | 0 <= i < |a.published| ensures a.published[i] == b.published[i] {
        assert m[i + 1] == n[i + 1];
      }
    }
  }

  // ---- When a load succeeds -----------------------------------------------------------------------

  /** The file is named by a path and a kid, and reads as a key on P-256. */
  predicate Reads(file: KeyFile, answer: Result<PublicKey>) {
    file.path != "" && file.keyID != "" && answer.Ok? && answer.value.curve == P256
  }

  predicate AllRead(files: seq<KeyFile>, answers: seq<Result<PublicKey>>)
    requires |files| == |answers|
  {
    forall i :: 0 <= i < |files| ==> Reads(files[i], answers[i])
  }

  predicate KidsApart(files: seq<KeyFile>, seen: set<string>) {
    && (forall i :: 0 <= i < |files| ==> files[i].keyID !in seen)
    && forall i, j :: 0 <= i < j < |files| ==> files[i].keyID != files[j].keyID
  }

  lemma {:induction false} LoadRestIff(files: seq<KeyFile>, answers: seq<Result<PublicKey>>, seen: set<string>)
    requires |files| == |answers|
    ensures LoadRest(files, answers, seen).Ok? <==> AllRead(files, answers) && KidsApart(files, seen)
  {
    if files != [] {
      LoadRestIff(files[1..], answers[1..], seen + {files[0].keyID});
      AllReadSplit(files, answers);
      KidsApartSplit(files, seen);
    }
  }

  lemma AllReadSplit(files: seq<KeyFile>, answers: seq<Result<PublicKey>>)
    requires |files| == |answers| && files != []
    ensures AllRead(files, answers) <==> Reads(files[0], answers[0]) && AllRead(files[1..], answers[1..])
  {
    assert forall i :: 0 < i < |files| ==> files[i] == files[1..][i - 1] && answers[i] == answers[1..][i - 1];
    assert forall i :: 0 <= i < |files[1..]| ==> files[1..][i] == files[i + 1] && answers[1..][i] == answers[i + 1];
  }

  lemma KidsApartSplit(files: seq<KeyFile>, seen: set<string>)
    requires files != []
    ensures KidsApart(files, seen) <==>
            files[0].keyID !in seen && KidsApart(files[1..], seen + {files[0].keyID})
  {
    var rest := files[1..];
    assert forall i :: 0 < i < |files| ==> files[i] == rest[i - 1];
    assert forall i :: 0 <= i < |rest| ==> rest[i] == files[i + 1];
  }

  /** A load succeeds exactly when every file has a path and a kid, no kid twice, and every file
      reads as a key on P-256. */
  lemma LoadedIff(config: Config, disk: Disk)
    requires Answers(config, disk)
    ensures Loaded(config, disk).Ok? <==>
            && config.signing.keyID != "" && config.signing.path != ""
            && disk.signing.Ok? && disk.signing.value.public.curve == P256
            && AllRead(config.published, disk.published) && KidsApart(config.published, {config.signing.keyID})
  {
    LoadRestIff(config.published, disk.published, {config.signing.keyID});
  }
}
