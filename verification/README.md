# Verification of internal JWT handling

A Dafny model of how the Service Gateway issues internal JWTs, publishes its verification keys, and
how the services behind it cache those keys, verify the tokens and authorize calls with them. Most
results are about runs rather than single calls: every reachable state of the key cache, chains of
re-issues of any length, logs of interleaved issues, and key rotation across the gateway and the
caches.

Run `dafny verify dfyconfig.toml` to check the whole project.

## How it is laid out

| file | what it models |
|---|---|
| `Errors`, `Text`, `Spacing` | results and the tree of wrapped sentinels `errors.Is` searches; the string helpers of Go's library; counting events that keep a distance |
| `InternalJwt`, `Wire` | the claim set, the shared binding rule, whole-second dates; the JSON form, the token and its signature |
| `Base64Url`, `Field`, `Jwk` | unpadded base64url, arithmetic modulo a prime, P-256 points and their JWK form |
| `Issuer`, `Signer`, `FileKeys` | the three issuing functions; signing and publishing; the reloading key provider |
| `KeyDocument`, `KeyCache` | reading a published document; the key cache as an object |
| `Verifier`, `Interceptor` | token verification; the authorization decision |
| `TokenChain`, `AuditTrail`, `CacheRuns`, `Lookups`, `NonInterference`, `Rotation`, `RotationBounds`, `ProviderLag`, `EndToEnd` | the theorems that span the parts |
| `Refusals` | every refusal names a cause the input meets |
| `Differences` | concrete inputs at which the code departs from what is written or might be expected |

## Conventions

- A time is an integer count of nanoseconds since Go's zero `time.Time`; `NumericDate` truncates down
  to a whole second (section 2 of RFC 7519). Durations are unbounded integers: the saturation of
  `Time.Sub` makes no difference to a comparison with a duration that fits its type.
- What the program cannot determine is a parameter. Clock readings, HTTP exchanges, file reads, the
  context's end and fresh UUIDs are handed to each call, one for each place the code may ask, and are
  ignored where it does not ask. The theorems about runs say which worlds they range over:
  `CacheRuns.LegalLog` (the clock does not go back, calls hold the lock one after another, a wait
  that is not cut short lasts what was asked, an ended context stays ended, library errors are not this
  module's sentinels) and `CacheRuns.Honest` (a fetched document was served by some instance during the
  attempt, which lasts at most a bound). The clock is above the zero time, as a zero `lastRefresh` or
  `lastFailure` means "never".
- The cache holds its mutex across the fetch, so concurrent calls are a sequence of atomic ones; a
  lookup's time is the clock reading it takes under the lock. `Cache` and `FileKeyProvider` carry a
  ghost log of their calls, and `Valid()` says the fields are what replaying the log leaves, so the
  lemmas about histories are about the objects.
- Signatures are ideal: one checks under a key exactly when it was made with that key over that header
  and payload. A private key is identified with its public key. The check that a point lies on P-256 is
  the curve equation itself, computed by additions modulo the prime: `Field.OnCurveIsTheEquation` says
  that is the equation between integers, and `Jwk.BasePointIsUsable` that the group's generator meets it.
- The documented rotation is the periodic one of the gateway's own document, to which
  docs/internal_jwt.md:33 defers: the new key joins the published set, signs fifteen minutes later, and
  the old key leaves one token TTL plus one cache TTL after that. A gateway
  instance works with a key set that was in force at most a lag ago; how long is a parameter.
- A file provider's kids are fixed when it is built, so it takes part in a rotation only by being rebuilt
  with a new configuration (`ProviderLag.OneConfigurationNeverRotates`). The lag is then the rollout, for
  which an instance of a configuration no longer in force may still serve, and one refresh interval and
  the time two calls take (`ProviderLag.LagIsBounded`). This supposes that what is deployed can be loaded,
  that no key file is replaced while a load reads the files one after another, and that the files of a
  configuration left behind stay until its instances are gone. `ProviderLag.RolloutRotates` has a
  deployment of that kind for every rotation.
- The rotation theorems date keys and served documents by true time, and a cache's calls by its own clock.
  The gateway's and the verifier's clock run ahead by any amounts; the theorems take a bound on their
  difference.
- An error is a sentinel, an opaque library error, or two errors wrapped together; messages are
  dropped.

## Where the code differs from what is written about it

- docs/internal_jwt.md:85 says a service token does not carry `src_exp`. The verifier does not look
  (verifier/claims.go:43-74): `Verifier.ServiceTokenMayCarrySourceExpiry` says it makes no difference, and
  `Differences.SourceExpiryOnServiceTokenVerifies` has a token. No issuing function sets it.
- "A kid must name one key" (issuer/keys.go:173) holds within one load only. The file provider fixes each
  path's kid, so a re-read can change the key under it: `Differences.KidChangesItsKey` has two readings of
  one file, and `FileKeys.KidsKeepTheirKeysIff` says exactly when it does not. Rotation safety takes the
  property as an assumption on what is deployed.

Two properties hold on fewer inputs than one might expect, though no document promises more:

- Adding a scope turns acceptance into rejection for exactly one kind of token, the machine-origin
  service token (`NonInterference.AddingScopes`, with a call in `Differences.AddedScopeRejects`).
  That agrees with docs/internal_jwt.md:133, which allows such a token no scope.
- Issued tokens are all valid at the instant they are issued exactly when the verifier's leeway is at
  least a second less a nanosecond (`TokenChain.AcceptedAtIssueIff`, with a conversion in
  `TokenChain.LateConversionIsRefused`). In general `TokenChain.IssueThenVerify` gives the exact window.

## Model

| member | source | states |
|---|---|---|
| `CacheRuns.InvHolds` | jwks/cache.go:79-90 | in every reachable state the expiry is the last success plus the TTL, a failure time is set exactly when its error is, a recorded failure never predates the last success, and the recorded error never wraps an unknown kid |
| `CacheRuns.HeldKidIsServed` | jwks/cache.go:150-153 | a held kid is answered without a fetch at every time before expiry, whatever failed or cancelled refreshes came between |
| `CacheRuns.HoldsLastDocument` | jwks/cache.go:282-292 | after any history the cache holds the last fetched document whole, stamped with the end of its attempt, or nothing |
| `CacheRuns.GivesLastDocumentsKey` | jwks/cache.go:148-173 | every key given out is the entry of the last fetched document, this call's included, under a stamp younger than the TTL |
| `CacheRuns.HoldsOneDocument` | jwks/cache.go:287-290 | the cached keys are one document the server gave out at most one attempt's duration before the stamp |
| `CacheRuns.AnswerRestsOnOneDocument` | jwks/cache.go:140-174 | every key given out and every kid called unknown rests on one served document, taken during the call or within TTL (for an unknown kid also cooldown) plus one attempt before it |
| `CacheRuns.WithdrawnKidIsForgotten` | jwks/cache.go:150-173 | a kid withdrawn at T is never given out by a lookup from T + cacheTTL + attempt duration |
| `CacheRuns.PublishedKidIsKnown` | jwks/cache.go:150-173 | a kid published at T and kept is never called unknown from T + min(cacheTTL, refreshCooldown) + attempt duration |
| `CacheRuns.QuietAfterOutcome` | jwks/cache.go:150-162 | no lookup starts a refresh within the least of TTL and both cooldowns after the last recorded outcome, a manual refresh's included |
| `CacheRuns.FetchRate` | jwks/cache.go:140-236 | over any interleaving of lookups and manual refreshes, a window of length W holds at most 1 + W/m lookup-triggered refreshes with a recorded outcome and at most that many times len(retryBackoff)+1 requests |
| `CacheRuns.RetryLoop` | jwks/cache.go:213-236 | one refresh makes at most len(retryBackoff)+1 attempts, goes past one exactly when its response is one a later attempt may recover from, the context is alive and a backoff remains, leaves at least the backoff of that place before the next, and reports its last |
| `CacheRuns.RetriesReachTheDocument` | jwks/cache.go:213-293 | such failures followed by a good document leave that document's keys, stamped with the end of its attempt |
| `CacheRuns.UnknownIff` | jwks/cache.go:150-173 | a kid is reported unknown exactly when the last document lacks it and is fetched in this call or stamped within both TTL and cooldown |
| `Lookups.StateRecordsPast` | jwks/cache.go:140-236 | every reachable state is the last document fetched and the failure recorded since, as a simpler account of the history has them that knows no fields |
| `Lookups.LookupRefreshesIff` | jwks/cache.go:144-162 | after any history a lookup starts a refresh exactly when its kid is not empty, no document inside its TTL names it, no document inside TTL and cooldown lacks it, and no failure was recorded less than the failure cooldown before |
| `Lookups.LookupAnswers` | jwks/cache.go:140-174 | by that account a lookup answers with the live document's key, an unknown kid, the recorded failure under its cooldown, or what its own refresh brings, each exactly when |
| `Lookups.RecoversAfterCooldown` | jwks/cache.go:160-173 | once the failure cooldown has passed, a lookup no recent document answers gives the key of the document its attempts bring, however many fail first |
| `KeyCache.Cache.constructor` | jwks/cache.go:103-136 | an empty cache under the configuration with every non-positive setting replaced by its default |
| `KeyCache.Effective` | jwks/cache.go:118-126 | a positive setting is in force as given and any other as its default, so every duration and the size bound is positive; only a nil backoff is replaced |
| `KeyCache.DefaultsAre` | jwks/cache.go:24-33 | the configuration of a caller who sets nothing, in figures |
| `KeyCache.LastFrom` | jwks/cache.go:216-233 | the attempt a refresh ends with is the first that may not be followed by another |
| `KeyCache.AskedAreBackoffs` | jwks/cache.go:216-221 | the waits a refresh asks for are the backoffs up to its last attempt, and the next one when that wait was cut short |
| `KeyCache.TryIff` | jwks/cache.go:240-293 | an attempt gives keys exactly for a complete 200 within the size bound whose keys all read with no kid twice, and fails retryably exactly for no response, one that breaks off, a 429 or a status of 500 and above |
| `KeyCache.Cache.RefreshOnce` | jwks/cache.go:240-293 | one fetch changes keys, expiry and stamp together and only on a document that parses; its failure is retryable exactly for transport errors, 429 and 5xx |
| `KeyCache.Cache.RefreshKeys` | jwks/cache.go:213-236 | the loop passes to `sleep` the backoffs in order, one before every further attempt, ends with the first attempt that stops it, changes the keys only if that one succeeded, and returns its error otherwise |
| `KeyCache.Cache.FetchLocked` | jwks/cache.go:185-210 | a success clears the failure, a failure under a live context records it at the time the fetch gave up, one under an ended context records nothing |
| `KeyCache.Cache.Key` | jwks/cache.go:140-174 | one lookup, as a step of the history the run theorems speak about |
| `KeyCache.Cache.Refresh` | jwks/cache.go:177-182 | a manual refresh fetches whatever the cooldowns say, as a step of the same history |
| `KeyDocument.ParseKeys` | jwks/cache.go:296-319 | the parse loop computes the key map of the document or its first error |
| `KeyDocument.KeysOfCorrect` | jwks/cache.go:296-319 | a document is accepted exactly when every key in it is and no kid repeats, and the map then holds exactly the listed keys |
| `KeyDocument.KeysOfIff` | jwks/cache.go:296-319 | a document reads as these keys exactly when every key in it is readable, no kid repeats, and they are the listed ones |
| `KeyDocument.PublishThenParse` | issuer/signer.go:79-118 | whatever document the issuer publishes, the cache accepts and reads as exactly the signing key plus every published key, no kid lost or repeated |
| `Signer.Publish` | issuer/signer.go:80-118 | the publishing loop computes the document of the key set or its first error |
| `Signer.DocumentCorrect` | issuer/signer.go:80-118 | publishing is refused exactly when a key cannot be named or a kid repeats; otherwise the document lists the signing key and every published key in order under their kids |
| `Base64Url.RoundTrip` | jwk.go:83-84 | unpadded base64url decodes to the same bytes, for bytes of any length, and is canonical |
| `Base64Url.ReencodeIffCanonical` | jwk.go:134-145 | text the lenient decoder accepts is re-encoded to itself exactly when it had no line breaks and zero tail bits |
| `Base64Url.DecodesIff` | jwk.go:134-137 | text decodes exactly when, line breaks aside, it is of the alphabet and leaves no single symbol over |
| `Base64Url.NewlinesAreSkipped` | jwk.go:134-137 | a line break anywhere changes nothing |
| `Base64Url.KnownText` | jwk.go:83-84 | the example of section 9 of RFC 4648 in the alphabet of its section 5 |
| `Field.OnCurveIsTheEquation` | jwk.go:119-130 | the check on a decoded point, made by additions modulo the prime, is the curve equation between integers |
| `Jwk.RoundTrip` | jwk.go:55-131 | for every non-empty kid and P-256 key the JWK reads back as that key, each coordinate in 43 canonical characters |
| `Jwk.Redescribe` | jwk.go:55-145 | describing an accepted JWK's key again names the same key and gives the same JWK exactly when its coordinates were canonical |
| `Jwk.PublicKeyIff` | jwk.go:88-131 | a JWK describes exactly the point on P-256 whose coordinates are the 32 octets each text decodes to, under the four names a verifier insists on and a kid |
| `Jwk.NewJWKIs` | jwk.go:55-86 | the JWK of a key carries its kid, those names, and its own x and y in that order |
| `Jwk.OctetAt` | jwk.go:71-84 | a coordinate is written big-endian |
| `FileKeys.Load` | issuer/keys.go:155-191 | the load loop computes the key set of the files read or its first error |
| `FileKeys.LoadedIff` | issuer/keys.go:155-191 | a load succeeds exactly when every file has a path and a kid, no kid twice, and every file reads as a key on P-256 |
| `FileKeys.Effective` | issuer/keys.go:90-94 | a positive interval is kept, any other becomes a minute |
| `FileKeys.FileKeyProvider.New` | issuer/keys.go:90-115 | a provider exists exactly after one successful load, with the default interval for a non-positive one |
| `FileKeys.FileKeyProvider.constructor` | issuer/keys.go:96-114 | the provider starts with the loaded keys and an empty history |
| `FileKeys.FileKeyProvider.Current` | issuer/keys.go:118-153 | a call re-reads once the interval has passed, keeps the old keys if that fails, and returns a slice of the caller's own |
| `FileKeys.CallerCannotDisturb` | issuer/keys.go:148-153 | whatever a caller writes into its slice, anywhere and however often, the next call returns what it would have returned anyway |
| `FileKeys.HandsOutLastGood` | issuer/keys.go:118-146 | after any history the keys handed out are those of the last whole successful load |
| `FileKeys.LoadsAreSpaced` | issuer/keys.go:122-143 | load attempts, failed ones included, lie at least one interval apart |
| `FileKeys.LagWithinInterval` | issuer/keys.go:118-146 | when no re-read fails, the keys handed out were stamped less than one interval before |
| `ProviderLag.LagIsBounded` | issuer/keys.go:90-146 | across a rollout of new configurations, whatever an instance signs and publishes while it may serve is what the rotation theorems allow with a lag of the rollout, one interval and two calls' time, construction's late stamp included |
| `ProviderLag.HandsOutDeployed` | issuer/keys.go:118-146 | the keys an instance hands out are the set that was deployed at some instant at most that lag before |
| `ProviderLag.LoadIsOneInstant` | issuer/keys.go:155-191 | files read one after another, none replaced meanwhile, read as at one instant |
| `ProviderLag.OneConfigurationNeverRotates` | issuer/keys.go:96-104 | with one configuration for all time no deployment rotates |
| `ProviderLag.RolloutRotates` | issuer/keys.go:90-115 | every rotation schedule is followed by rebuilding instances over two files that never change: the sets they load rotate, and each kid names one key |
| `FileKeys.LoadedIsPublishable` | issuer/keys.go:155-191 | a successful load has distinct non-empty kids, the configured ones, and usable keys, so it can be published |
| `FileKeys.PublishingNeverFails` | issuer/signer.go:80-118 | with the file provider the issuer never fails to publish, over any run |
| `FileKeys.KidsKeepTheirKeysIff` | issuer/keys.go:78-79 | two loads have the same kids always, and the same key under every kid exactly when the files read the same |
| `Differences.KidChangesItsKey` | issuer/keys.go:155-191 | two sound readings of one configuration, both loaded, with different keys under the same kid |
| `Wire.RoundTrip` | issuer/claims.go:27-79 | every claim set of one audience survives the wire form but for sub-second digits, and exactly when its dates are whole seconds |
| `Wire.EmptyMembersAreAbsent` | issuer/claims.go:27-44 | a member is in the payload exactly when its claim is not empty, for every `omitempty` member, and the other four always are |
| `Wire.PayloadIs` | issuer/claims.go:27-79 | each member's form: `aud` one string, dates whole-second numbers, all else strings, each the claim of that name |
| `Wire.ReadDatesAreWhole` | claims.go:20-53 | dates read from any payload are whole seconds |
| `Wire.NullIsAbsent` | claims.go:20-53 | a null member reads as an absent one |
| `Wire.AudienceForms` | claims.go:20-53 | one audience reads alike as a string and as a list of one |
| `Issuer.EntryLifetime` | issuer/external.go:51-63 | an entry token has nbf = iat <= exp <= src_exp for every positive TTL, and exp is the earlier of the two ends |
| `Issuer.EntryEnds` | issuer/external.go:55-60 | an entry token ends with its external token, or with the full TTL if that comes first |
| `Issuer.ServiceLifetime` | issuer/service.go:56-99 | a service token lives the full TTL from its own issue, however little its context had left |
| `Issuer.ExpiryAfterIssue` | issuer/signer.go:42-50 | an issued token ends after the instant of issue, less at most a second short of a nanosecond that truncation drops |
| `Issuer.DerivedShape` | issuer/signer.go:36-51 | every issued claim set names the issuer, one non-empty destination, the fresh jti and whole-second dates |
| `Issuer.ConversionIff` | issuer/external.go:80-117 | which external tokens are converted |
| `Issuer.UserReissueIff` | issuer/service.go:122-180 | which contexts a re-issue for a user accepts, verified or not |
| `Issuer.MachineIssueIff` | issuer/service.go:182-215 | which contexts an issue for a machine accepts, and that it may do without |
| `Issuer.IssueIff` | issuer/issuer.go:126-138 | whatever is derived is issued exactly when the key set has a named 256-bit signing key |
| `InternalJwt.BindingSurvivesReissue` | claims.go:55-86 | the tenant and event binding any token use allows, a service token may carry |
| `InternalJwt.BindingIff` | claims.go:55-86 | the bindings each token use may carry |
| `Verifier.ValidClaimsAreTheThreeKinds` | verifier/claims.go:10-93 | the claim checks accept exactly the entry tokens, the user-origin and the machine-origin service tokens addressed to the audience alone |
| `Verifier.AcceptedIff` | verifier/verifier.go:138-174 | verification returns claims exactly for an ES256 token under the key its kid resolves to, in time, from the issuer, and of one of the three kinds |
| `Verifier.KeyForIff` | verifier/verifier.go:178-227 | the header leads to a key exactly with a JWT type in any case and a non-empty kid the resolver has a key for |
| `Verifier.UnresolvedIff` | verifier/verifier.go:189-203 | a lookup fails as a resolution exactly when the resolver is asked and has neither a key nor the word that there is no such kid |
| `Verifier.ResolutionReportedIff` | verifier/verifier.go:145-151 | a failed key resolution is reported exactly when the lookup is reached and fails so; no other check is taken for one or hides one |
| `Verifier.ServiceTokenMayCarrySourceExpiry` | verifier/claims.go:43-74 | whether a service token carries `src_exp` makes no difference to its claims being accepted |
| `Differences.SourceExpiryOnServiceTokenVerifies` | verifier/claims.go:43-74 | a service token with `src_exp` that verifies |
| `TokenChain.DerivedKind` | issuer/service.go:48-106 | each issuing function produces its own one of the three kinds |
| `TokenChain.ConversionAgreesWithVerifier` | issuer/external.go:41-117 | the two sides' rules agree: a conversion is refused exactly when its source has ended, it names no destination, asks for a service token, or would yield claims the verifier refuses |
| `TokenChain.ConversionSaysWhatItsSourceSaid` | issuer/external.go:62-76 | a verifier reads from a converted token the external token's subject, client, scope, use, jti, binding and truncated expiry, and nothing it did not say |
| `TokenChain.IssuedToken` | issuer/issuer.go:126-138 | an issued token carries the derived claims whole under the current signing key and its kid |
| `TokenChain.IssueThenVerify` | verifier/verifier.go:120-174 | whatever any issuing function issues is accepted for its destination at exactly the clock readings in [iat - leeway, exp + leeway), with exactly the issued claims |
| `TokenChain.AcceptedAtIssue` | issuer/signer.go:42-50 | with a second of leeway less a nanosecond every token is accepted at its own issuing instant |
| `TokenChain.LateConversionIsRefused` | issuer/external.go:51-60 | with any less, a conversion two nanoseconds before the end of its source's last second is issued and refused at once |
| `TokenChain.AcceptedAtIssueIff` | verifier/verifier.go:120-127 | every token issued is accepted at its own issuing instant if and only if the leeway is at least a second less a nanosecond |
| `TokenChain.OriginDichotomy` | issuer/service.go:122-215 | a verified token presented in time by the service it names is accepted as context by exactly one of the two re-issues, and after exp by neither |
| `TokenChain.VerifiedAsIssued` | verifier/context.go:22-28 | presented to the context verifier, a token verifies only as the claims issued, for the presenter its aud names |
| `TokenChain.ReissueSeesIssuedClaims` | issuer/issuer.go:99-118 | a hop that succeeds derives from exactly the claims issued to its presenter, and re-issues as a machine exactly a machine's token |
| `TokenChain.UserChain` | issuer/service.go:45-75 | over any number of hops txn never changes, scope and binding stay the external token's, origin_sub is its subject, src_jti is the previous jti, sub = client_id = the previous aud, no hop becomes a machine's, each token lives its full TTL from its own issue, and exp <= src_exp + n*ttl |
| `TokenChain.MachineChain` | issuer/service.go:77-120 | a machine's chain keeps only txn, never gains an origin, a scope or a binding, and each token lives its full TTL |
| `TokenChain.HopSucceedsIff` | issuer/issuer.go:99-138 | a hop with an issued token succeeds exactly when the token names its presenter, is verified inside its window and re-issued before exp, is a machine's exactly when asked for as one, and there are a destination and a signing key |
| `TokenChain.HopTokenLivesItsTerm` | issuer/service.go:56-60 | its token is accepted for its destination at exactly the clock readings of its own full term, past its context's end too |
| `AuditTrail.TrailReachesTheConversion` | issuer/service.go:48-75 | in any log of interleaved issues, walking src_jti back from a user-origin token passes strictly earlier tokens, each the only one named, and ends at one external conversion with the same txn and scope whose sub is origin_sub and which carries what its external token said, the jti included |
| `AuditTrail.ParentIsNamed` | issuer/service.go:69-71 | src_jti of a user-origin token names exactly one logged token, its context |
| `AuditTrail.TxnNamesTheChain` | issuer/external.go:46-49 | two issued tokens share a txn exactly when they belong to one processing chain, so a user's and a machine's token never do |
| `AuditTrail.TrailEndsAtOrigin` | issuer/service.go:108-120 | the end of the src_jti walk is the token whose issue minted the txn |
| `AuditTrail.PresentedWasIssued` | issuer/issuer.go:99-118 | a context the gateway verified is the claim set of a token issued before, when no signature is forged |
| `AuditTrail.GenuineLogIsValid` | verifier/context.go:22-28 | so the audit results hold of the gateway's own log, whatever callers present |
| `Interceptor.MissingScopes` | interceptor/interceptor.go:302-313 | the loop returns the required scopes not granted, in order |
| `Interceptor.UngrantedCorrect` | interceptor/interceptor.go:302-313 | nothing is missing exactly when every required scope is among the granted words |
| `Interceptor.UngrantedInOrder` | interceptor/interceptor.go:306-311 | and they are listed in the order required |
| `Interceptor.AcceptedUsesAre` | interceptor/interceptor.go:253-300 | a use is accepted exactly when the policy names it, or names none and the procedure's setting does, or neither names any and it is the level's: the service-wide uses where set and applicable, else the default |
| `Interceptor.BearerTokenIff` | verifier/bearer.go:20-35 | a header yields a token exactly when it is the scheme in any case, one space, and a non-empty token without white space |
| `Interceptor.Interceptor.CheckCall` | interceptor/interceptor.go:203-241 | the check asks the verifier at most once |
| `Interceptor.Interceptor.VerifyHeader` | interceptor/interceptor.go:244-251 | the verifier is asked exactly about the token of a header that parses |
| `Interceptor.Interceptor.Report` | interceptor/interceptor.go:276-282 | a rejection reaches the reporter when there is one |
| `Interceptor.Interceptor.Authorize` | interceptor/interceptor.go:179-200 | every rejection is reported once with its own error and no acceptance is; the verifier is asked at most once, never about a public, unnamed or unknown-level procedure |
| `Interceptor.AuthorizedIff` | interceptor/interceptor.go:179-273 | the handler runs exactly for a named public procedure, or one of a known level whose caller presents a parsing header, a verifying token of an accepted use, and every required scope unless it is a service token |
| `Interceptor.RejectionCode` | interceptor/interceptor.go:179-241 | exactly which rejections are internal, unavailable, permission denied, and so unauthenticated |
| `Interceptor.AllowedWith` | interceptor/interceptor.go:190-240 | the handler sees the claims that verified, and none for a public procedure |
| `Interceptor.RejectedWith` | interceptor/interceptor.go:179-241 | the error of every rejection says why and keeps the verifier's own |
| `NonInterference.AuditClaimsDoNotInterfere` | interceptor/interceptor.go:223-240 | changing only the values of txn, origin_sub, src_jti and src_exp, or the spelling of scopes, or any scope of a user-origin service token, changes neither acceptance nor code |
| `NonInterference.SpellingsOfOneScope` | interceptor/interceptor.go:302-309 | any two lists of the same words, in any order and with any white space before, between and after, are the same scope |
| `NonInterference.AddingScopes` | interceptor/interceptor.go:228-238 | adding scopes keeps acceptance for every token but a machine-origin service token, and never for that |
| `Differences.AddedScopeRejects` | verifier/claims.go:76-93 | a machine's call that is accepted, and rejected once a scope is added |
| `NonInterference.ProcedureSettingStaysLocal` | interceptor/interceptor.go:105-117 | a token-use setting for one procedure changes no decision on another |
| `NonInterference.ServiceWideSettingYields` | interceptor/interceptor.go:95-103 | the service-wide setting changes nothing on an internal procedure or one with its own setting |
| `Text.FieldsRoundTrip` | interceptor/interceptor.go:303-303 | any list of words, written with any white space before, between and after, is read back unchanged |
| `Text.FieldsAreTheWords` | interceptor/interceptor.go:303-303 | a scope's words are exactly the stretches without white space that are bounded by it or by the text's edge, each once and in order of position |
| `Text.OneWord` | interceptor/interceptor.go:303-303 | a text that is one word gives that word |
| `Rotation.RotationSafety` | issuer/signer.go:53-118 | if a kid names one key and the two waits are kept, every lookup for a token inside exp + leeway gives exactly the signing key or a fetch failure, in any reachable cache state, with gateway and verifier clocks that differ by the skew |
| `Rotation.RotationKeepsBoth` | issuer/signer.go:53-118 | the documented rotation gives both keys lives the safety theorem applies to |
| `Rotation.DocumentedWaitsSuffice` | jwks/cache.go:24-30 | with these defaults the fifteen minutes before the switch and the token TTL plus cache TTL after it satisfy the theorem's bounds exactly when provider lag and clock skew together are at most 270 s |
| `ProviderLag.DocumentedRollout` | issuer/keys.go:72-73 | with the default refresh interval they cover exactly the rollouts, call times (twice) and skews that make at most 210 s together |
| `RotationBounds.WaitsAreExact` | jwks/cache.go:150-173 | how long the waits must be, to the nanosecond, for a verifier's clock any amount ahead and tokens that live at all, later ones no shorter: no run refuses a live token as signed by an unknown key if and only if the first signature follows the last set without the key by provider lag, one attempt and the shorter of TTL and cooldown together, and the key stays until the last token it can have signed has left its window |
| `RotationBounds.WaitsUnderSkewAreExact` | jwks/cache.go:150-173 | for tokens of the full TTL, no run with any two clocks within the skew refuses a live one if and only if the bounds of `RotationSafety` are kept, to the nanosecond, the skew's share included |
| `RotationBounds.FullLifeIsProper` | issuer/signer.go:42-50 | the windows of tokens issued for the full TTL are of that kind when TTL and leeway exceed the difference of the clocks by a second or more |
| `RotationBounds.SignsWhileDeployed` | issuer/signer.go:80-118 | a key signs only while it is in the published set |
| `RotationBounds.ScheduleLives` | issuer/signer.go:80-118 | every schedule that signs only while deployed is one some deployment follows, so the exact waits speak about real rotations |
| `EndToEnd.LookupThroughCache` | verifier/verifier.go:178-227 | with the cache as resolver and a typ header of JWT in any case, a lookup error is a failed resolution exactly when no recent document lacks the kid |
| `EndToEnd.FailureClassification` | verifier/verifier.go:189-203 | through cache, verifier and interceptor, a caller is told unauthenticated when a recent document lacks the kid and unavailable for every other lookup failure |
| `EndToEnd.GenuineTokenSurvivesRotation` | issuer/issuer.go:90-138 | across a rotation that keeps the waits, and with clocks that differ by no more than the leeway, a genuine token presented in time is accepted with its claims whole, or the keys cannot be fetched; it is never refused as invalid, even if it was dated before the switch and signed after it |
| `EndToEnd.GenuineCallSurvivesRotation` | interceptor/interceptor.go:203-241 | a call with such a token is decided as for the token's own claims or is unavailable, never unauthenticated for its key |
| `EndToEnd.DocumentedRotationIsSafe` | jwks/cache.go:24-30 | the same for the documented rotation, the default configuration and either key, for every provider lag and clock skew up to 270 s together |
| `Refusals.ConversionRefusal` | issuer/external.go:41-117 | an error of a conversion names a fault the input has |
| `Refusals.UserRefusal` | issuer/service.go:122-180 | so does one of a re-issue for a user |
| `Refusals.MachineRefusal` | issuer/service.go:182-215 | and one of an issue for a machine |
| `Refusals.DatesRefusal` | verifier/verifier.go:120-127 | a token is reported as ended or not yet valid exactly when it is |
| `Refusals.IssuerRefusal` | verifier/verifier.go:120-127 | a wrong issuer is reported exactly when it is one, and a missing one or exp likewise |
| `Refusals.ClaimsRefusal` | verifier/claims.go:10-93 | an error about the claims of a parsed token names a fault they have |
| `Refusals.SignatureRefusal` | verifier/verifier.go:145-151 | a signature that does not check is reported as that and as an invalid token |
| `Refusals.LookupRefusal` | verifier/verifier.go:145-203 | a failed resolution is never reported as an invalid token, and an unknown kid always is |
| `Refusals.ValidatorRefusal` | verifier/verifier.go:138-151 | faults of dates and issuer are an invalid token's, each found in the error |
| `Refusals.AlgorithmRefusal` | verifier/verifier.go:120-151 | any algorithm but ES256 is refused as an invalid token, with the library's error for its kind |
| `Refusals.JwkRefusal` | jwk.go:88-145 | an error about a JWK names a fault it has |
| `Refusals.AttemptRefusal` | jwks/cache.go:240-319 | an error of an attempt names what was wrong with its response or document, and keeps the cause |

## Left out

- HTTP requests, response draining, URL validation and JSON text in jwks/cache.go: an attempt is its outcome, a body its size and decoded key list.
- Log records, and the reporter's own effects beyond being called.
- Error messages, and the joined list form of golang-jwt errors beyond which sentinels they hold.
- PEM and x509 parsing: a file read is an oracle that gives a key or an error, and gives only points on their curve.
- ECDSA itself: signatures are ideal, and signing fails only on a curve that is not 256 bits wide.
- UUID generation: fresh non-empty values; its error path is not modelled.
- `issuer.New`, `verifier.New`, `interceptor.New` and the option functions: their guarantees (`Valid()`) are assumed of the values they build.
- The JWT compact form: a token is its header, payload and signature; text that does not decode is one case.
- golang-jwt float precision of dates: dates are exact. A date written as a quoted number, which `NumericDate` reads too, counts as undecodable; no issuing function writes one.
- jwtgen and cmd/jwtgen: test-token tooling that bypasses the rules on purpose.
- Streaming calls, headers beyond `Authorization`, and the handler's context.
- The edge policy, DPoP, introspection and listeners described in docs/, which this repository does not implement.
