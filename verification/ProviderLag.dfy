/** The file provider across a rollout. Its kids are fixed when it is built, so a rotation reaches
    the gateway by instances rebuilt with a new configuration. Whatever an instance hands out was
    the deployed set a bounded time ago: the lag the rotation theorems speak of. */
module ProviderLag {
  import opened Errors
  import opened InternalJwt
  import opened Jwk
  import opened KeyDocument
  import opened KeyCache
  import opened CacheRuns
  import opened Rotation
  import Signer
  import Issuer
  import Verifier
  import F = FileKeys

  /** What the file of each path reads as at each time. */
  datatype Store = Store(
    signing: (string, Time) -> Result<PrivateKey>, published: (string, Time) -> Result<PublicKey>)

  /** One load: the signing file read at the first time, the published files at the others. */
  function ReadAt(store: Store, config: F.Config, first: Time, others: seq<Time>): F.Disk
    requires |others| == |config.published|
  {
    F.Disk(
      store.signing(config.signing.path, first),
      seq(|others|, i requires 0 <= i < |others| => store.published(config.published[i].path, others[i])))
  }

  /** All files of a configuration at one instant. */
  function DiskAt(store: Store, config: F.Config, at: Time): F.Disk {
    ReadAt(store, config, at, seq(|config.published|, _ => at))
  }

  /** No file of the configuration changes in the interval. */
  ghost predicate Undisturbed(store: Store, config: F.Config, from: Time, to: Time) {
    forall t :: from <= t <= to ==> DiskAt(store, config, t) == DiskAt(store, config, from)
  }

  /** The files of a load, read one after another in the interval. */
  predicate Within(first: Time, others: seq<Time>, from: Time, to: Time) {
    from <= first <= to && forall i :: 0 <= i < |others| ==> from <= others[i] <= to
  }

  /** Read one after another, files that do not change meanwhile read as at one instant. */
  lemma LoadIsOneInstant(store: Store, config: F.Config, first: Time, others: seq<Time>, from: Time, to: Time)
    requires |others| == |config.published|
    requires Within(first, others, from, to) && Undisturbed(store, config, from, to)
    ensures ReadAt(store, config, first, others) == DiskAt(store, config, from)
  {
    var disk, once := ReadAt(store, config, first, others), DiskAt(store, config, from);
    assert disk.signing == DiskAt(store, config, first).signing;
    forall i | 0 <= i < |others| ensures disk.published[i] == once.published[i] {
      assert disk.published[i] == DiskAt(store, config, others[i]).published[i];
    }
    assert disk.published == once.published;
  }

  // ---- What is deployed -----------------------------------------------------------------------------

  /** The configuration the operator has in force at each time, its interval as the provider
      applies it. */
  type Schedule = Time -> F.Config

  /** The deployed set is the one the files of the configuration in force load as. */
  ghost predicate Deploys(schedule: Schedule, store: Store, deployed: Deployment) {
    forall l :: F.Loaded(schedule(l), DiskAt(store, schedule(l), l)) == Ok(deployed(l))
  }

  /** The files of a configuration no longer in force stay as they were while instances of it may
      still run. */
  ghost predicate LeftAlone(schedule: Schedule, store: Store, rollout: Time) {
    forall l, t :: l <= t <= l + rollout && schedule(t) != schedule(l) ==>
      DiskAt(store, schedule(l), t) == DiskAt(store, schedule(l), l)
  }

  /** An instance built at one time still serves at another: its configuration was in force all
      the while, but for the last `rollout`. */
  ghost predicate MayServe(schedule: Schedule, rollout: Time, built: Time, at: Time) {
    forall l :: built <= l <= at - rollout ==> schedule(l) == schedule(built)
  }

  // ---- One instance -----------------------------------------------------------------------------------

  /** One call of the provider: when it would read each file, and when it returned. */
  datatype Visit = Visit(now: Time, first: Time, others: seq<Time>, returned: Time)

  function CallOf(store: Store, config: F.Config, v: Visit): F.Call
    requires |v.others| == |config.published|
  {
    F.Call(v.now, ReadAt(store, config, v.first, v.others))
  }

  predicate AllVisit(config: F.Config, run: seq<Visit>) {
    forall i :: 0 <= i < |run| ==> |run[i].others| == |config.published|
  }

  /** The calls of `Current`, as the provider's own history records them. */
  function Calls(store: Store, config: F.Config, run: seq<Visit>): (calls: seq<F.Call>)
    requires AllVisit(config, run)
    ensures |calls| == |run| && F.AllAnswer(config, calls)
  {
    seq(|run|, i requires 0 <= i < |run| => CallOf(store, config, run[i]))
  }

  /** What the provider hands out after these calls. */
  function HandedOut(store: Store, config: F.Config, first: F.State, run: seq<Visit>): F.State
    requires AllVisit(config, run)
  {
    F.Replay(config, first, Calls(store, config, run))
  }

  function EndOf(first: F.State, run: seq<Visit>): Time {
    if run == [] then first.loadedAt else run[|run| - 1].returned
  }

  /** The provider was built from files read between `built` and its stamp, which construction takes
      after reading; its calls follow one after another and each lasts at most `took`. No file is
      replaced while a call reloads. */
  ghost predicate Follows(store: Store, config: F.Config, took: Time, built: Time, first: F.State, run: seq<Visit>)
    requires AllVisit(config, run)
  {
    if run == [] then
      && built <= first.loadedAt <= built + took
      && F.Loaded(config, DiskAt(store, config, built)) == Ok(first.keys)
    else
      var n, v := |run| - 1, run[|run| - 1];
      && Follows(store, config, took, built, first, run[..n])
      && EndOf(first, run[..n]) <= v.now <= v.returned <= v.now + took
      && (F.Reloads(config, HandedOut(store, config, first, run[..n]), CallOf(store, config, v)) ==>
            Within(v.first, v.others, v.now, v.returned) && Undisturbed(store, config, v.now, v.returned))
  }

  /** The instant whose files the keys in use were read from. */
  ghost predicate LoadedAt(store: Store, config: F.Config, took: Time, built: Time, s: F.State, now: Time, at: Time) {
    && s.loadedAt - took <= at <= now && built <= at && s.loadedAt <= now
    && F.Loaded(config, DiskAt(store, config, at)) == Ok(s.keys)
  }

  /** When every re-read succeeds, the keys in use are those the files of one instant load as, less
      than one interval and two calls' time back. */
  ghost predicate Fresh(store: Store, config: F.Config, took: Time, built: Time, s: F.State, now: Time) {
    exists at :: LoadedAt(store, config, took, built, s, now, at)
  }

  ghost predicate NoLoadFails(store: Store, config: F.Config, run: seq<Visit>) {
    forall i :: 0 <= i < |run| ==> F.Loaded(config, DiskAt(store, config, run[i].now)).Ok?
  }

  lemma VisitKeepsFresh(store: Store, config: F.Config, took: Time, built: Time, s: F.State, before: Time, v: Visit)
    requires |v.others| == |config.published| && took >= 0
    requires Fresh(store, config, took, built, s, before) && built <= before <= v.now <= v.returned
    requires F.Reloads(config, s, CallOf(store, config, v)) ==>
               Within(v.first, v.others, v.now, v.returned) && Undisturbed(store, config, v.now, v.returned)
    requires F.Loaded(config, DiskAt(store, config, v.now)).Ok?
    ensures Fresh(store, config, took, built, F.Step(config, s, CallOf(store, config, v)), v.returned)
  {
    var t := F.Step(config, s, CallOf(store, config, v));
    if F.Reloads(config, s, CallOf(store, config, v)) {
      LoadIsOneInstant(store, config, v.first, v.others, v.now, v.returned);
      assert LoadedAt(store, config, took, built, t, v.returned, v.now);
    } else {
      var at :| LoadedAt(store, config, took, built, s, before, at);
      assert LoadedAt(store, config, took, built, t, v.returned, at);
    }
  }

  lemma {:induction false} StaysFresh(store: Store, config: F.Config, took: Time, built: Time,
                                      first: F.State, run: seq<Visit>)
    requires AllVisit(config, run) && took >= 0 && config.refreshInterval > 0
    requires Follows(store, config, took, built, first, run) && NoLoadFails(store, config, run)
    ensures built <= EndOf(first, run)
    ensures Fresh(store, config, took, built, HandedOut(store, config, first, run), EndOf(first, run))
    ensures run != [] ==>
              EndOf(first, run) - HandedOut(store, config, first, run).loadedAt < config.refreshInterval + took
  {
    if run == [] {
      assert LoadedAt(store, config, took, built, first, first.loadedAt, built);
    } else {
      var n := |run| - 1;
      StaysFresh(store, config, took, built, first, run[..n]);
      assert Calls(store, config, run)[..n] == Calls(store, config, run[..n]);
      VisitKeepsFresh(store, config, took, built, HandedOut(store, config, first, run[..n]),
                      EndOf(first, run[..n]), run[n]);
    }
  }

  // ---- The lag ----------------------------------------------------------------------------------------

  /** The last time the configuration of `built` was in force, up to `at`. */
  lemma LastInForce(schedule: Schedule, rollout: Time, built: Time, at: Time, until: Time) returns (m: Time)
    requires built <= at <= until && rollout >= 0 && MayServe(schedule, rollout, built, until)
    ensures built <= m <= at && at - rollout <= m && schedule(m) == schedule(built)
  {
    m := if at - rollout <= built then built else at - rollout;
  }

  /** Files read while an instance may still serve load as a set that was deployed at most the
      rollout before. */
  lemma LingeringReadsDeployed(schedule: Schedule, store: Store, deployed: Deployment, rollout: Time,
                               built: Time, at: Time, until: Time)
    returns (l: Time)
    requires Deploys(schedule, store, deployed) && LeftAlone(schedule, store, rollout)
    requires built <= at <= until && rollout >= 0 && MayServe(schedule, rollout, built, until)
    ensures at - rollout <= l <= at
    ensures F.Loaded(schedule(built), DiskAt(store, schedule(built), at)) == Ok(deployed(l))
  {
    if schedule(at) == schedule(built) {
      l := at;
    } else {
      l := LastInForce(schedule, rollout, built, at, until);
    }
  }

  /** Whatever an instance hands out, while it may serve, is the set deployed at most one rollout,
      one interval and two calls' time before. */
  lemma HandsOutDeployed(schedule: Schedule, store: Store, deployed: Deployment, rollout: Time, took: Time,
                         built: Time, first: F.State, run: seq<Visit>)
    returns (l: Time)
    requires rollout >= 0 && took >= 0 && schedule(built).refreshInterval > 0
    requires Deploys(schedule, store, deployed) && LeftAlone(schedule, store, rollout)
    requires run != [] && AllVisit(schedule(built), run)
    requires Follows(store, schedule(built), took, built, first, run)
    requires MayServe(schedule, rollout, built, EndOf(first, run))
    ensures HandedOut(store, schedule(built), first, run).keys == deployed(l)
    ensures l <= EndOf(first, run) <= l + rollout + schedule(built).refreshInterval + 2 * took
  {
    var config, now := schedule(built), EndOf(first, run);
    LoadsSucceed(schedule, store, deployed, rollout, took, built, first, run);
    StaysFresh(store, config, took, built, first, run);
    var s := HandedOut(store, config, first, run);
    var at :| LoadedAt(store, config, took, built, s, now, at);
    l := LingeringReadsDeployed(schedule, store, deployed, rollout, built, at, now);
  }

  lemma {:induction false} VisitsAreOrdered(store: Store, config: F.Config, took: Time, built: Time,
                                            first: F.State, run: seq<Visit>, i: nat)
    requires AllVisit(config, run) && Follows(store, config, took, built, first, run) && i < |run|
    ensures built <= run[i].now <= EndOf(first, run)
    decreases |run|
  {
    var n := |run| - 1;
    if i < n {
      VisitsAreOrdered(store, config, took, built, first, run[..n], i);
    } else if n > 0 {
      VisitsAreOrdered(store, config, took, built, first, run[..n], n - 1);
    }
  }

  lemma LoadsSucceed(schedule: Schedule, store: Store, deployed: Deployment, rollout: Time, took: Time,
                     built: Time, first: F.State, run: seq<Visit>)
    requires rollout >= 0 && Deploys(schedule, store, deployed) && LeftAlone(schedule, store, rollout)
    requires AllVisit(schedule(built), run) && Follows(store, schedule(built), took, built, first, run)
    requires MayServe(schedule, rollout, built, EndOf(first, run))
    ensures NoLoadFails(store, schedule(built), run)
  {
    forall i | 0 <= i < |run| ensures F.Loaded(schedule(built), DiskAt(store, schedule(built), run[i].now)).Ok? {
      VisitsAreOrdered(store, schedule(built), took, built, first, run, i);
      var l := LingeringReadsDeployed(schedule, store, deployed, rollout, built, run[i].now, EndOf(first, run));
    }
  }

  /** So what an instance signs and publishes by the time a call returns is what the rotation
      theorems allow it, with that lag. */
  lemma LagIsBounded(schedule: Schedule, store: Store, deployed: Deployment, rollout: Time, took: Time, lag: Time,
                     built: Time, first: F.State, run: seq<Visit>, keys: Keys)
    requires rollout >= 0 && took >= 0 && schedule(built).refreshInterval > 0
    requires Deploys(schedule, store, deployed) && LeftAlone(schedule, store, rollout)
    requires run != [] && AllVisit(schedule(built), run)
    requires Follows(store, schedule(built), took, built, first, run)
    requires MayServe(schedule, rollout, built, EndOf(first, run))
    requires lag >= rollout + schedule(built).refreshInterval + 2 * took
    ensures var k, now := HandedOut(store, schedule(built), first, run).keys, EndOf(first, run);
            && MaySign(deployed, lag, now, k.signing.keyID)
            && (Publishes(k, keys) ==> ServedBy(deployed, lag)(now, keys))
  {
    var l := HandsOutDeployed(schedule, store, deployed, rollout, took, built, first, run);
    var k, now := HandedOut(store, schedule(built), first, run).keys, EndOf(first, run);
    assert now - lag <= l <= now && deployed(l).signing.keyID == k.signing.keyID;
  }

  /** With the default interval, the documented waits cover every rollout, call time and clock skew
      that together stay within three and a half minutes, and no more. */
  lemma DocumentedRollout(r: Rotation, rollout: Time, took: Time, skew: Time, raw: RawConfig)
    requires rollout >= 0 && took >= 0 && skew >= 0 && raw.cacheTTL == 0 && raw.refreshCooldown == 0
    requires r.switched == r.added + DOCUMENTED_WAIT
    requires r.removed == r.switched + Issuer.DEFAULT_TTL + DEFAULT_CACHE_TTL
    ensures var lag := rollout + F.DEFAULT_REFRESH_INTERVAL + 2 * took;
            var before := lag + Shorter(Effective(raw)) + DEFAULT_FETCH_TIMEOUT;
            var after := lag + Issuer.DEFAULT_TTL + Verifier.DEFAULT_LEEWAY + skew;
            WaitsOut(r.Incoming(), before, after) && WaitsOut(r.Outgoing(), before, after) <==>
            rollout + 2 * took + skew <= 210 * SECOND
  {
    DocumentedWaitsSuffice(r, rollout + F.DEFAULT_REFRESH_INTERVAL + 2 * took, skew, raw);
  }

  // ---- A rotation by configuration ----------------------------------------------------------------------

  /** The configurations of a rotation: the leaving file alone, the coming one published beside it,
      the roles exchanged, the coming file alone. */
  function RotatingSchedule(r: Rotation, leaving: F.KeyFile, coming: F.KeyFile, interval: Time): Schedule {
    (l: Time) =>
      if l < r.added then F.Config(leaving, [], interval)
      else if l < r.switched then F.Config(leaving, [coming], interval)
      else if l < r.removed then F.Config(coming, [leaving], interval)
      else F.Config(coming, [], interval)
  }

  /** Two files that never change. */
  function TwoFiles(leaving: F.KeyFile, outgoing: PrivateKey, incoming: PrivateKey): Store {
    Store(
      (path: string, at: Time) => Ok(if path == leaving.path then outgoing else incoming),
      (path: string, at: Time) => Ok(if path == leaving.path then outgoing.public else incoming.public))
  }

  function RotatingSets(r: Rotation, outgoing: Signer.SigningKey, incoming: Signer.SigningKey): Deployment
    requires outgoing.key.Some? && incoming.key.Some?
  {
    (l: Time) =>
      var retired := Signer.PublishedKey(outgoing.keyID, Some(outgoing.key.value.public));
      var coming := Signer.PublishedKey(incoming.keyID, Some(incoming.key.value.public));
      if l < r.added then Signer.KeySet(outgoing, [])
      else if l < r.switched then Signer.KeySet(outgoing, [coming])
      else if l < r.removed then Signer.KeySet(incoming, [retired])
      else Signer.KeySet(incoming, [])
  }

  lemma TwoFilesLoad(leaving: F.KeyFile, coming: F.KeyFile, outgoing: PrivateKey, incoming: PrivateKey,
                     r: Rotation, interval: Time, l: Time)
    requires leaving.path != "" && coming.path != "" && leaving.path != coming.path
    requires leaving.keyID != "" && coming.keyID != "" && leaving.keyID != coming.keyID
    requires outgoing.public.curve == P256 && incoming.public.curve == P256
    ensures var schedule := RotatingSchedule(r, leaving, coming, interval);
            var store := TwoFiles(leaving, outgoing, incoming);
            var deployed := RotatingSets(r, Signer.SigningKey(leaving.keyID, Some(outgoing)),
                                         Signer.SigningKey(coming.keyID, Some(incoming)));
            F.Loaded(schedule(l), DiskAt(store, schedule(l), l)) == Ok(deployed(l))
  {
    var store := TwoFiles(leaving, outgoing, incoming);
    var config := RotatingSchedule(r, leaving, coming, interval)(l);
    var disk := DiskAt(store, config, l);
    if config.published != [] {
      var file := config.published[0];
      var answer := store.published(file.path, l);
      assert config.published == [file] && disk.published == [answer];
      OneFileLoads(file, answer, {config.signing.keyID});
    }
  }

  lemma OneFileLoads(file: F.KeyFile, answer: Result<PublicKey>, seen: set<string>)
    requires file.keyID != "" && file.keyID !in seen && file.path != ""
    requires answer.Ok? && answer.value.curve == P256
    ensures F.LoadRest([file], [answer], seen) == Ok([Signer.PublishedKey(file.keyID, Some(answer.value))])
  {
    var loaded := [Signer.PublishedKey(file.keyID, Some(answer.value))];
    assert [file][1..] == [] && [answer][1..] == [];
    assert F.LoadRest([], [], seen + {file.keyID}) == Ok([]) && loaded + [] == loaded;
  }

  lemma SetOfTwo(k: Signer.KeySet, a: Signer.PublishedKey, b: Signer.PublishedKey, keyID: string, key: PublicKey)
    requires Signer.Named(k) == [a] || Signer.Named(k) == [a, b]
    requires a.keyID != b.keyID
    ensures a == Signer.PublishedKey(keyID, Some(key)) ==> Carries(k, keyID, key)
    ensures b == Signer.PublishedKey(keyID, Some(key)) && |Signer.Named(k)| == 2 ==> Carries(k, keyID, key)
  {
    var named := Signer.Named(k);
    if a == Signer.PublishedKey(keyID, Some(key)) { assert named[0] == a; }
    if b == Signer.PublishedKey(keyID, Some(key)) && |named| == 2 { assert named[1] == b; }
  }

  lemma RotatingSet(r: Rotation, outgoing: Signer.SigningKey, incoming: Signer.SigningKey, l: Time)
    requires outgoing.key.Some? && incoming.key.Some? && outgoing.keyID != incoming.keyID
    requires r.added <= r.switched <= r.removed
    ensures var k := RotatingSets(r, outgoing, incoming)(l);
            && (r.added <= l ==> Carries(k, incoming.keyID, incoming.key.value.public))
            && (l < r.removed ==> Carries(k, outgoing.keyID, outgoing.key.value.public))
            && k.signing == (if l < r.switched then outgoing else incoming)
            && forall i :: 0 <= i < |Signer.Named(k)| ==>
                 || Signer.Named(k)[i] == Signer.PublishedKey(outgoing.keyID, Some(outgoing.key.value.public))
                 || Signer.Named(k)[i] == Signer.PublishedKey(incoming.keyID, Some(incoming.key.value.public))
  {
    var k := RotatingSets(r, outgoing, incoming)(l);
    var retired := Signer.PublishedKey(outgoing.keyID, Some(outgoing.key.value.public));
    var coming := Signer.PublishedKey(incoming.keyID, Some(incoming.key.value.public));
    var (a, b) := if l < r.switched then (retired, coming) else (coming, retired);
    SetOfTwo(k, a, b, incoming.keyID, incoming.key.value.public);
    SetOfTwo(k, a, b, outgoing.keyID, outgoing.key.value.public);
  }

  lemma SetsRotate(r: Rotation, outgoing: Signer.SigningKey, incoming: Signer.SigningKey)
    requires outgoing.key.Some? && incoming.key.Some? && outgoing.keyID != incoming.keyID
    requires r.added <= r.switched <= r.removed
    ensures Rotates(RotatingSets(r, outgoing, incoming), r, outgoing, incoming)
    ensures OneKeyPerKid(RotatingSets(r, outgoing, incoming), outgoing.keyID, outgoing.key.value.public)
    ensures OneKeyPerKid(RotatingSets(r, outgoing, incoming), incoming.keyID, incoming.key.value.public)
  {
    forall l { RotatingSet(r, outgoing, incoming, l); }
  }

  /** Every rotation schedule is one that rebuilding instances with new configurations follows: the
      deployed sets are what the files load as, and they rotate. */
  lemma RolloutRotates(leaving: F.KeyFile, coming: F.KeyFile, outgoing: PrivateKey, incoming: PrivateKey,
                       r: Rotation, interval: Time, rollout: Time)
    requires leaving.path != "" && coming.path != "" && leaving.path != coming.path
    requires leaving.keyID != "" && coming.keyID != "" && leaving.keyID != coming.keyID
    requires outgoing.public.curve == P256 && incoming.public.curve == P256
    requires r.added <= r.switched <= r.removed
    ensures var schedule := RotatingSchedule(r, leaving, coming, interval);
            var store := TwoFiles(leaving, outgoing, incoming);
            var retiring := Signer.SigningKey(leaving.keyID, Some(outgoing));
            var entering := Signer.SigningKey(coming.keyID, Some(incoming));
            var deployed := RotatingSets(r, retiring, entering);
            && Deploys(schedule, store, deployed) && LeftAlone(schedule, store, rollout)
            && Rotates(deployed, r, retiring, entering)
            && OneKeyPerKid(deployed, retiring.keyID, outgoing.public)
            && OneKeyPerKid(deployed, entering.keyID, incoming.public)
  {
    forall l { TwoFilesLoad(leaving, coming, outgoing, incoming, r, interval, l); }
    SetsRotate(r, Signer.SigningKey(leaving.keyID, Some(outgoing)), Signer.SigningKey(coming.keyID, Some(incoming)));
    var store := TwoFiles(leaving, outgoing, incoming);
    forall config: F.Config, l, t ensures DiskAt(store, config, l) == DiskAt(store, config, t) {
      assert DiskAt(store, config, l).published == DiskAt(store, config, t).published;
    }
  }

  /** Without a new configuration there is no rotation: the kids an instance hands out are those it
      was built with. */
  lemma OneConfigurationNeverRotates(config: F.Config, store: Store, deployed: Deployment, r: Rotation,
                                     outgoing: Signer.SigningKey, incoming: Signer.SigningKey)
    requires outgoing.key.Some? && incoming.key.Some?
    requires Deploys(_ => config, store, deployed)
    ensures !Rotates(deployed, r, outgoing, incoming)
  {
    var before, later := r.switched - 1, r.switched;
    assert F.Loaded(config, DiskAt(store, config, before)) == Ok(deployed(before));
    assert F.Loaded(config, DiskAt(store, config, later)) == Ok(deployed(later));
    assert deployed(before).signing.keyID == config.signing.keyID == deployed(later).signing.keyID;
  }
}
