# Vaultless: verified models of its stateful protocols

Vaultless is a messaging backend in Rust. Most of it is HTTP and SQL plumbing; its difficult parts are
a handful of protocols over Redis, Postgres, in-process channels and one atomic word. This project
models those protocols in Dafny and proves what they keep over whole runs. Redis keys are maps, lists
and sorted sets with expiry times, Postgres tables are maps, and one Redis command, one script or one
SQL transaction is one step. Code that changes state is a class whose methods are proved equal to
specification functions; the properties are lemmas about runs of those functions.

| file | what it models |
|---|---|
| `RateLimiter.dfy`, `RateLimiterSeeded.dfy` | the sliding-window rate limiter and its script, for any random draws and for those it really gets |
| `IntegrityLimits.dfy`, `IntegrityExpiry.dfy` | the fixed-window attempt counter and lockout of integrity verification, and counters that lose their expiry |
| `Bits.dfy`, `BreakerWord.dfy` | the packed word of the circuit breaker |
| `CircuitBreaker.dfy` | the circuit breaker in sequential runs with guards outstanding |
| `BreakerInterleaving.dfy` | the same code as separate loads and stores of any number of threads |
| `RevocationCache.dfy`, `RevocationMarks.dfy`, `RevocationCoherence.dfy`, `RevocationReads.dfy` | session revocation across nodes: caches, Redis marks and how long they hold, pub/sub, and what a call has read |
| `MessageFlusher.dfy`, `MessageRows.dfy`, `MessageConservation.dfy`, `MessageRevival.dfy` | instant messages on their way to the table, the rows that batches add, take and mark, and those that come back |
| `Delivery.dfy`, `DeliveryCounts.dfy`, `DeliveryFetch.dfy` | counting and metering a delivery under concurrent fetches, and exactly how often |
| `Fetch.dfy` | a whole fetch: what is handed on, trimmed, and answered |
| `Inbox.dfy`, `InboxRuns.dfy` | the inbox list: rebuilding, appending, trimming, and what it holds over time |
| `InboxRebuild.dfy`, `InboxTwice.dfy`, `InboxSkips.dfy`, `InboxRebuildRuns.dfy` | rebuilds interleaved command by command: when an id is appended twice or left out |
| `UsageFlush.dfy`, `UsageCycles.dfy`, `UsageMoves.dfy`, `UsageFlusher.dfy` | usage counters from Redis to Postgres step by step, whole cycles as steps and what they move, and the cost estimate |
| `UsageLedger.dfy`, `UsageRuns.dfy` | where every counted unit is, in all runs, and runs that lose or repeat one |
| `MetricKeys.dfy`, `MetricKeyFlush.dfy`, `UuidText.dfy` | the text of usage-metric keys and of UUIDs, and what the flush makes of it |
| `RefreshTokens.dfy`, `RefreshSpawned.dfy`, `RefreshOwners.dfy` | refresh-token rotation over cache and table, with the table written by spawned tasks, and whose tokens they are |
| `SessionTokens.dfy` | session claims and key rotation |
| `Timeline.dfy`, `Wrappers.dfy` | counting over logs of times; Option, Result and other small things |

`dafny verify dfyconfig.toml` checks all of it.

## What the proofs found

Properties the code does not have are stated as such, each with a concrete run and the exact condition.

- Rate limiter: the window bound fails for requests in second zero of the epoch only, because the window
  start saturates there (`BoundedIff`).
- Rate limiter: what the limit bounds is the admissions that add a member, and a random draw that repeats adds
  none. Scripts draw the same number in every call, so that is the seconds that have an admission
  (`SecondsAreBounded`): for a limit of one no draw matters (`DrawsDoNotMatterUpToOne`), for two or more a second
  admits any number of requests (`SecondIsUnbounded`).
- Integrity lockout: a comment promises an error when the counter cannot be read, but the code takes a failed
  GET for zero failures. A locked client is let through exactly then (`RefusedWhileLockedIff`,
  `FailedReadLetsThrough`), and the counter passes the maximum by no more than such reads (`FailuresAreBounded`).
- Integrity lockout: INCR and the EXPIRE of the first hit are two commands. An identity is locked out for ever if and
  only if the counter was made by a hit whose EXPIRE did not take effect, a lost answer to INCR included, and has
  reached the maximum (`StaysIff`, `LockedForEverIff`); one such hit is enough (`LostExpireLocks`).
- Circuit breaker: with a threshold above four, four failed probes leave it half-open for ever although
  every guard reported; the message service uses five (`StuckIff`, vaultless-core/src/models/message/instant_message.rs:26-28).
  The limit of an episode (`EpisodeGuards`) is one of sequential calls: any number of threads that load the same
  open word are all let through, and a new breaker comes to that (`HerdIsReached`). When guards may be dropped without
  a report it can get stuck at any threshold (`DroppedProbesStick`).
- Circuit breaker: an open breaker holds the second of the last failure cut to 32 bits, so from 2106 on it lets the next
  request through at once (`ProbesAfterTimeout`); and a clock set back behind that second wraps the unsigned
  subtraction of a release build, with the same result (`ClockSetBackProbes`).
- The comment beside that breaker speaks of five failures within 30 seconds; the code counts the failures since
  the last success, however far apart, and 30 seconds is how long it then stays open (`TripsExactlyAtThreshold`,
  `RejectsUntilTimeout`).
- Revocation: a cache miss reads Redis and inserts in two steps, and a revocation in between leaves a node
  accepting a revoked session after every invalidation has arrived, until the entry expires
  (`RaceBreaksCoherence`); this is the only way (`StepCoherentIff`).
- Message flusher: a failed flush loses its batch, since the buffer is emptied first; the deleter keeps its
  tasks when it cannot connect, so its buffer has no bound then (`BacklogGrows`). The shutdown arm of both
  loops cannot be reached, because the ticker never ends. The purger looks for delivered rows outside
  groups, and nothing in the pipeline makes one (`PurgerFindsNothing`).
- A message whose delete has been applied can come back to the table if and only if it was still in the channel,
  the buffer or an emergency write (`DeletedComesBackIff`), and it comes back undelivered (`ComesBackUndelivered`).
- Delivery: it is metered exactly once if and only if the fetch that set its flag knew it, and either returned with
  no metering reply lost or gave up with one lost (`MeteredExactly`). It can be metered three times
  (`MeteredThrice`), and returned unmetered when the reply to the counting script is lost (`ReturnedUnmetered`).
- Fetch: it answers with its messages if and only if both trims are answered and leave fewer than 8000 ids
  (`SucceedsIff`); otherwise what it has counted, metered and queued for deletion is not given to anyone
  (`DiscardedFetch`). When it does answer, every id it asked for is gone from the inbox, those included whose
  counting failed (`SuccessTakesAll`, `UncountedIsGone`), although the comments leave such messages for later. The
  table has no column for the signature that the check of the SQL path asks for, so a message that has left Redis
  is trimmed and never handed on (`StoredIsNotHandedOn`).
- Inbox: every trim gives the list ten minutes and no send renews them, so the list can vanish with ids nobody has
  fetched (`ExpiryTakesUnfetched`); it holds all of those if and only if no expiry, flush, failed trim or cap took
  one (`HoldsAllUnfetchedIff`).
- Inbox: Redis refuses to unpack 8000 values or more, and a script that stops keeps its DEL, so a trim keeps what it
  filters if and only if that is at most 7999 ids (`TrimKeepsIff`). The cap lies above, so fetching one message of a
  reachable inbox loses all others (`BigTrimLosesAll`, `BigTrimIsReachable`).
- Inbox: it keeps 10 001 ids, one more than the rebuild, because the end of LTRIM is inclusive, and when full it
  drops the newest (`FullInboxDropsTheNewest`).
- Inbox: the rebuild's lock lives five seconds however long the rebuild takes, and stays when LLEN fails. Two rebuilds
  of which one outlives its lock repeat the whole table (`LateRebuildRepeats`). Of rebuilds within their lock, over any
  changes of the table, none leads to an id twice if and only if no page meets the list when it is read
  (`PagesApartIff`), or, seen from the changes, if and only if none leaves a listed row at or after the offset of the next
  query (`NoneTwiceIff`): a new row before the offset does when it moves a listed one there, a new row after it when
  it is listed itself (`InsertionClashesIff`). Both happen (`ShiftedRowRepeats`, `GrowingTableRepeats`); rows that only
  leave never do it (`PunctualRebuildsLeaveNoneTwice`).
- Inbox: rows that leave do something else. A rebuild in time ends with all rows up to the limit if and only if no
  change leaves an unread row before the offset (`ReadsAllIff`): a row that leaves from before it does, unless none
  is left behind it, and so does a new one before it (`LeaveSkipsIff`, `InsertSkipsIff`, `LeavingRowSkips`).
- Usage flush: the shutdown flush also takes the current hour, and an increment during it can be deleted
  uncounted (`FinalFlushCanLose`); a commit whose reply is lost is added again by the next cycle
  (`UnansweredCommitCountsTwice`). For all runs, the table and Redis differ from what was counted by exactly the
  increments deleted unread and the commits left in Redis (`EveryRunBalances`), and, as corollaries,
  there are none of the one or of the other if and only if no event is of that kind (`NothingLostIff`,
  `NothingDoubledIff`).
- Metric keys: no key that `New` prints is accepted by the parser, whose prefix stops before `_hour` or
  `_minute` (`NoKeyParses`), so a flush cycle changes nothing, whatever was counted (`PrintedKeysAreNeverFlushed`).
  The flush is therefore modelled on keys as pairs of API key and hour. The parser takes signs, so texts that are never
  printed are periods to it (`SignsAreTaken`).
- Refresh tokens: detecting reuse revokes the family's rows, but the newest token is still taken while the
  cache holds it (`ReuseStopsTheFamilyIff`), and such a family goes on without end (`RevokedFamilyGoesOn`); the expiry
  date is never asked (`SucceedsIff`, `ExpiredTokenIsTaken`).
- Refresh tokens: rotations are written by spawned tasks. A token is never taken twice if and only if the cache forgets
  no taken token whose row is open, and no row of a forgotten one lands (`TakenOnceIff`): a rotation slower than a
  minute breaks it (`SlowRotationTakesTwice`), and so do one that fails (`FailedRotationTakesTwice`), an eviction
  (`EvictionTakesTwice`), and two that land in the wrong order, for good (`WrongOrderTakesTwice`).

## Assumptions

- Redis and the application read one clock, in whole seconds, that does not go back in runs.
- Random values (message ids, token hashes and families) are fresh; the draws of the rate limiter are arbitrary.
- `usize`, `i64` and `u64` counters stay in range, except in the breaker's packed word, its call counter and the
  rate limiter's saturating window start, which are modelled with their widths. Runs of the breaker count failures
  without limit; they are runs of the word while fewer than 2^30 are reported (`CountsFit`), and `PackFullCount`
  says what the word holds after that.
- Signature checks, token encryption and hashing are ideal; whether pub/sub is healthy is arbitrary.
- A scan of the tracked usage keys may return any keys, in any order and repeatedly.
- An increment of a usage counter takes effect whole or not at all; cycles of the flush do not overlap.

## Model

| member | source | states |
|---|---|---|
| RateLimiter.Limiter.CheckRateLimit | vaultless-api/src/services/rate_limiter.rs:29-125 | one call leaves the sorted set and gives the answer that the script and the result branch define, whatever member is drawn |
| RateLimiter.DecidesByTheLog | vaultless-api/src/services/rate_limiter.rs:40-108 | for any draws, pruning and key expiry never change a decision: admitted exactly when fewer than the limit of all earlier admissions that added a member lie in the window; `remaining` is what is left and never negative; an admission announces the end of its window and no retry time |
| RateLimiter.NewDrawsCountAll | vaultless-api/src/services/rate_limiter.rs:64-66 | when every draw is new these are all admissions |
| RateLimiter.KeyOutlivesWindow | vaultless-api/src/services/rate_limiter.rs:64-85 | in every run the key lasts a minute longer than the window of the last admission, and no denial renews it |
| RateLimiter.WindowsAreBounded | vaultless-api/src/services/rate_limiter.rs:49-85 | for any draws, in every run every window, wherever it ends, holds at most `limit` admissions that added a member |
| RateLimiter.RetryTimeIsExact | vaultless-api/src/services/rate_limiter.rs:66-108 | for any draws, a denial's reset time lies in (now, now + window]; every request before it is denied and the first one at or after it is admitted |
| RateLimiter.BoundedIff | vaultless-api/src/services/rate_limiter.rs:45-45 | the window bound holds of all runs from second `from` on exactly when `from` is at least one, or the window is zero, or nothing is admitted |
| RateLimiter.ZerosAllAdmitted | vaultless-api/src/services/rate_limiter.rs:45-85 | at second zero every request is admitted, however many there are |
| RateLimiterSeeded.DecidesBySeconds | vaultless-api/src/services/rate_limiter.rs:64-66 | with the one member a second that the script draws, a request is admitted exactly when fewer than `limit` different seconds of its window have an admission |
| RateLimiterSeeded.SecondsAreBounded | vaultless-api/src/services/rate_limiter.rs:49-72 | in every run the admissions of every window, wherever it ends, fall into at most `limit` different seconds |
| RateLimiterSeeded.DrawsDoNotMatterUpToOne | vaultless-api/src/services/rate_limiter.rs:64-66 | for a limit of one or less, state and admissions of a run are the same for any draws |
| RateLimiterSeeded.SecondIsUnbounded | vaultless-api/src/services/rate_limiter.rs:64-66 | for a limit of two or more, any number of requests of one second is admitted and counted as one |
| IntegrityLimits.IntegrityService.VerifyIntegrity | vaultless-core/src/models/app_model/integrity/service.rs:56-266 | lockout check, platform check, failure tracking and attempt check in the order of the code, with the state and verdict each leaves; a lockout read that fails counts as no failures |
| IntegrityLimits.AttemptsAreBounded | vaultless-core/src/models/app_model/integrity/service.rs:301-342 | any half-open interval of 3600 seconds holds at most 2 max - 1 admitted attempts, in every run |
| IntegrityLimits.BoundIsReached | vaultless-core/src/models/app_model/integrity/service.rs:298-342 | that bound is attained for every positive maximum |
| IntegrityLimits.TrustedIsAttempt | vaultless-core/src/models/app_model/integrity/service.rs:96-262 | what a trusted request does to its platform's counter is exactly one attempt |
| IntegrityLimits.VerdictOf | vaultless-core/src/models/app_model/integrity/service.rs:96-262 | past the lockout check: a platform not allowed, an attestation that cannot be made and one attempt too many are each refused with their own error, the unauthenticated mode is accepted without a proof, a trusted proof exactly while attempts are left; the first two and the unauthenticated mode, and they alone, leave the counters as they were |
| IntegrityLimits.FailuresAreCounted | vaultless-core/src/models/app_model/integrity/service.rs:345-381 | in every run the failure counter is the number of failures tracked since its window opened |
| IntegrityLimits.FailuresAreBounded | vaultless-core/src/models/app_model/integrity/service.rs:96-262 | in every run the counter is at most the maximum plus the lockout reads that failed in its window |
| IntegrityLimits.LockoutStartsAtTheLimit | vaultless-core/src/models/app_model/integrity/service.rs:228-262 | a tracked failure is answered with a lockout if and only if it brings its window to the maximum or past it; it never goes past it when the lockout read was answered |
| IntegrityLimits.RefusedWhileLockedIff | vaultless-core/src/models/app_model/integrity/service.rs:385-419 | once the maximum is reached and whatever comes between, a request before the counter expires is turned away unchanged if and only if the read of the counter does not fail; afterwards none is, with a connection; one let through is judged as if there were no lock |
| IntegrityLimits.FailedReadLetsThrough | vaultless-core/src/models/app_model/integrity/service.rs:403-410 | a run: a locked client is accepted, or counted past the maximum, on a failed read and refused on an answered one |
| IntegrityExpiry.StaysIff | vaultless-core/src/models/app_model/integrity/service.rs:321-332 | in every run of hits whose INCR and EXPIRE may each fail, the counter is without an expiry if and only if a hit that made it was not followed by an EXPIRE that took effect |
| IntegrityExpiry.WholeIsHit | vaultless-core/src/models/app_model/integrity/service.rs:321-332 | when neither command fails, the two are the one hit of `IntegrityLimits` |
| IntegrityExpiry.LockedForEverIff | vaultless-core/src/models/app_model/integrity/service.rs:362-376 | the counter is at the maximum or above at all later times, whatever comes, if and only if it is without an expiry and has reached it |
| IntegrityExpiry.LostExpireLocks | vaultless-core/src/models/app_model/integrity/service.rs:362-376 | for every maximum, a run of failures that locks for ever after one lost EXPIRE |
| BreakerWord.PackedSum | vaultless-core/src/circuit_breaker.rs:130-137 | the shifts and ors lay the three fields side by side |
| BreakerWord.PackThenUnpack | vaultless-core/src/circuit_breaker.rs:130-154 | a word decodes to what was packed, the time cut to 32 bits, for counts below 2^30 |
| BreakerWord.RoundTripIff | vaultless-core/src/circuit_breaker.rs:130-154 | the round trip is exact if and only if count and time fit their fields |
| BreakerWord.PackFullCount | vaultless-core/src/circuit_breaker.rs:130-154 | a count of 2^30 reads back as zero, and sets the lower bit of the state |
| CircuitBreaker.CircuitBreaker.constructor | vaultless-core/src/circuit_breaker.rs:25-33 | a new breaker is closed and empty |
| CircuitBreaker.CircuitBreaker.TransitionToHalfOpen | vaultless-core/src/circuit_breaker.rs:118-127 | half-open at the present time with no failures and no calls |
| CircuitBreaker.CircuitBreaker.AllowRequest | vaultless-core/src/circuit_breaker.rs:36-71 | the word, call counter and verdict of a request in each state |
| CircuitBreaker.CircuitBreaker.RecordSuccess | vaultless-core/src/circuit_breaker.rs:73-91 | the word and call counter after a success |
| CircuitBreaker.CircuitBreaker.RecordFailure | vaultless-core/src/circuit_breaker.rs:93-116 | the word after a failure, open at the threshold; also at the count that no longer fits its bits |
| CircuitBreaker.CountsFit | vaultless-core/src/circuit_breaker.rs:93-154 | with fewer than 2^30 failures reported, every count of a run fits the word, so the runs below are those of the class |
| CircuitBreaker.OpenIffThreshold | vaultless-core/src/circuit_breaker.rs:73-127 | in every run: open if and only if the failures since the last reset have reached the threshold, and the last failure is not ahead of the clock |
| CircuitBreaker.TripsExactlyAtThreshold | vaultless-core/src/circuit_breaker.rs:93-116 | from closed it opens at the failure that completes the threshold and at no other |
| CircuitBreaker.OpenHoldsLastFailure | vaultless-core/src/circuit_breaker.rs:93-116 | in every run an open breaker holds the second of the last failure reported in the run, cut to 32 bits |
| CircuitBreaker.RejectsUntilTimeout | vaultless-core/src/circuit_breaker.rs:42-59 | in every run, while the clock (below 2^32) has not passed the second of the last reported failure by more than the timeout, an open breaker stays open and issues no guard, whatever guards report |
| CircuitBreaker.ProbesAfterTimeout | vaultless-core/src/circuit_breaker.rs:42-59 | in every run a request to an open breaker passes exactly when more than the timeout has passed since the second of the last reported failure (from 2^32 on, since what 32 bits keep of it), and then starts a fresh half-open episode |
| CircuitBreaker.ClockSetBackProbes | vaultless-core/src/circuit_breaker.rs:42-59 | with the clock behind the last failure the subtraction wraps, and the request passes for every timeout short of 2^64 less the step back |
| CircuitBreaker.EpisodeGuards | vaultless-core/src/circuit_breaker.rs:50-69 | a half-open episode issues one guard and one more for each of the next three requests, no more |
| CircuitBreaker.SpentIsFinal | vaultless-core/src/circuit_breaker.rs:60-69 | half-open with its calls spent and no guard out, it never leaves that state and issues nothing |
| CircuitBreaker.LeavesHalfOpenIff | vaultless-core/src/circuit_breaker.rs:60-116 | half-open, some continuation leaves the state if and only if it is not spent in that way |
| CircuitBreaker.ProbesFail | vaultless-core/src/circuit_breaker.rs:60-116 | four failed probes reopen it or leave it spent, depending on the threshold |
| CircuitBreaker.StuckIff | vaultless-core/src/circuit_breaker.rs:25-127 | with all guards reporting, a run can end stuck half-open if and only if the threshold exceeds four |
| CircuitBreaker.DroppedProbesStick | vaultless-core/src/circuit_breaker.rs:36-127 | for every threshold a run in which guards dropped without a report leave it stuck half-open |
| BreakerInterleaving.EveryStoreIsSound | vaultless-core/src/circuit_breaker.rs:36-154 | under any interleaving of loads and stores, below 2^30 failures and 2^32 seconds, every stored word decodes to what was packed and is open exactly at the threshold, and no timeout check underflows |
| BreakerInterleaving.FailureStores | vaultless-core/src/circuit_breaker.rs:93-116 | under any interleaving, what a failure report stores is worked out from the word shared when the report was made and the clock at the access in which this thread read it: count one higher, open at the threshold, otherwise in the state it was in |
| BreakerInterleaving.HerdIsGuarded | vaultless-core/src/circuit_breaker.rs:42-59 | any number of threads that load the same open word past its timeout all end with a guard |
| BreakerInterleaving.HerdIsReached | vaultless-core/src/circuit_breaker.rs:36-116 | from a new breaker a run brings any number of threads to that point, and all get a guard |
| BreakerInterleaving.AloneFailure | vaultless-core/src/circuit_breaker.rs:93-116 | the accesses of a failure report, uninterrupted, make up the sequential call |
| BreakerInterleaving.AloneSuccess | vaultless-core/src/circuit_breaker.rs:73-91 | the accesses of a success report, uninterrupted, make up the sequential call |
| BreakerInterleaving.AloneAllow | vaultless-core/src/circuit_breaker.rs:36-71 | the accesses of a request, uninterrupted, make up the sequential call |
| BreakerInterleaving.AloneDrop | vaultless-core/src/circuit_breaker.rs:162-175 | a guard dropped without a report touches neither word and no other thread |
| RevocationCache.HybridSessionVerifier.VerifyFast | vaultless-core/src/models/session/hybrid_verifier.rs:105-154 | the verdict and the cache after a hit, a hit checked against Redis and a miss; an error without a change of the cache when Redis is asked and does not answer |
| RevocationCache.HybridSessionVerifier.VerifySecure | vaultless-core/src/models/session/hybrid_verifier.rs:157-168 | accepted exactly when Redis answers and holds no mark, and an error when it does not answer |
| RevocationCache.HybridSessionVerifier.RevokeSession | vaultless-core/src/models/session/hybrid_verifier.rs:171-198 | the mark, the local invalidation and the message to publish, up to the first command that is refused, fails, or loses its answer; once acknowledged, the session is marked for exactly its remaining lifetime from this second, and no other is touched |
| RevocationMarks.RevokedIff | vaultless-core/src/models/session/hybrid_verifier.rs:157-198 | in every run of the cluster a session is marked, and so refused by the secure check, if and only if it has been revoked and the lifetime given with the last revocation, counted from its second, has not passed |
| RevocationMarks.SinceIsBeginning | vaultless-core/src/models/session/hybrid_verifier.rs:171-198 | in every run the beginning of a mark, from which staleness is counted, is the second of the revocation since which the session has been marked without a gap |
| RevocationCache.StepKeepsFresh | vaultless-core/src/models/session/hybrid_verifier.rs:105-198 | the staleness invariant is kept by every step of every node, message loss and eviction included |
| RevocationCache.StalenessIsBounded | vaultless-core/src/models/session/hybrid_verifier.rs:63-198 | with any number of nodes and any losses, no node accepts a session at or after its revocation plus cache lifetime plus the delay of a call |
| RevocationCache.StalenessBoundIsReached | vaultless-core/src/models/session/hybrid_verifier.rs:105-198 | an acceptance one second before that bound is possible |
| RevocationCoherence.StepCoherentIff | vaultless-core/src/models/session/hybrid_verifier.rs:143-198 | without losses a step breaks coherence if and only if a miss inserts a verdict already overtaken by a revocation the node was told of |
| RevocationCoherence.PromptRunsAreCoherent | vaultless-core/src/models/session/hybrid_verifier.rs:105-298 | with read and insert as one step and no losses, a node caching a revoked session as valid still has its invalidation to come |
| RevocationCoherence.QuietFastIsSecure | vaultless-core/src/models/session/hybrid_verifier.rs:105-168 | when such a cluster is quiet, the fast check accepts nothing the secure check rejects |
| RevocationReads.UnhealthyAcceptsAfterRedis | vaultless-core/src/models/session/hybrid_verifier.rs:112-141 | in every run with the fallback on, an acceptance by a call begun while pub/sub was unhealthy comes after an event of the same call that read Redis, no more than the delay before, at a state without the mark |
| RevocationReads.AcceptsAfterRead | vaultless-core/src/models/session/hybrid_verifier.rs:105-154 | in every run, any acceptance that is not a trusted cache hit rests on such a read of its own call |
| RevocationCoherence.UninterruptedVerify | vaultless-core/src/models/session/hybrid_verifier.rs:105-154 | the steps of a call that nothing interrupts are the whole call |
| RevocationCoherence.UnmarkedIsAccepted | vaultless-core/src/models/session/hybrid_verifier.rs:112-141 | while pub/sub is unhealthy, a session cached as valid and not marked is accepted and stays cached |
| RevocationCoherence.ForgottenIsAsked | vaultless-core/src/models/session/hybrid_verifier.rs:105-298 | after an invalidation or an eviction the fast check answers as the secure one |
| RevocationCoherence.UninterruptedRevoke | vaultless-core/src/models/session/hybrid_verifier.rs:171-198 | the steps of a revocation that nothing interrupts are the whole revocation: mark, own cache, and a message to every subscribed node or, when PUBLISH fails, to none |
| RevocationCoherence.SubscribersAreTold | vaultless-core/src/models/session/hybrid_verifier.rs:63-298 | a node that has subscribed gets a message of a revocation published then, one that has disconnected gets none |
| RevocationCoherence.RaceBreaksCoherence | vaultless-core/src/models/session/hybrid_verifier.rs:143-153 | a run without losses after which a quiet cluster accepts fast what it rejects securely |
| MessageFlusher.FlusherTask.FlushBuffer | vaultless-core/src/models/message/helper.rs:177-265 | the buffer is emptied whatever happens; the rows go in, existing ids left alone, unless the transaction fails; an error also after the commit when Redis is lost |
| MessageFlusher.FlusherTask.Loop | vaultless-core/src/models/message/background_process.rs:111-141 | the select loop is the fold of its wakeups, and the buffer is below the batch size at every turn |
| MessageFlusher.DeleterTask.DeleteBuffer | vaultless-core/src/models/message/helper.rs:270-323 | tasks are kept when there is no connection and taken otherwise; applied, rows outside groups go and unread group rows become delivered |
| MessageRows.AppliedBatchIff | vaultless-core/src/models/message/helper.rs:286-323 | an applied delete batch takes exactly the rows outside groups that it names as such and marks as delivered exactly the group rows that it names as such and that have no delivery time; every other row stays as it was |
| MessageRows.UnappliedBatch | vaultless-core/src/models/message/helper.rs:278-323 | a batch that is rolled back or finds no connection leaves the table as it was, and only the latter keeps its tasks |
| MessageRows.FlushInserts | vaultless-core/src/models/message/helper.rs:185-224 | a flush that commits gives each message of the buffer an undelivered row of its kind and leaves all rows there were |
| MessageRows.SingleStatements | vaultless-core/src/models/message/instant_message1.rs:509-545 | a delete past the full channel takes the one row it names unless that is a group's, a read stamps one row, and no other row changes |
| MessageRows.FlushesWhenFull | vaultless-core/src/models/message/background_process.rs:111-141 | receiving a message makes the flusher flush if and only if that fills its batch of 2000 |
| MessageRows.DeletesWhenFull | vaultless-core/src/models/message/background_process.rs:147-177 | a task received makes the deleter run its batch if and only if it then holds 1000 or more |
| MessageRows.FullChannels | vaultless-core/src/models/message/instant_message.rs:168-215 | a message goes past its channel into an emergency write, and a delete past its own, if and only if that holds 20 000, or 10 000 |
| MessageRows.RowsAreTheirMessages | vaultless-core/src/models/message/helper.rs:185-323 | in every run a row is of the kind its message was sent as, and no row of a group message is ever deleted |
| MessageFlusher.RunsInOrder | vaultless-core/src/models/message/background_process.rs:111-177 | in every run, what a channel took is, in order, the attempted batches, the buffer and the channel; batches and buffers keep to their sizes even when every flush fails |
| MessageConservation.EveryMessageIsInOnePlace | vaultless-core/src/models/message/instant_message.rs:168-215 | in every run a sent message is in exactly one of channel, buffer, failed batch, table, deleted rows, running or failed emergency write, and an unsent one in none |
| MessageConservation.NoInsertConflicts | vaultless-core/src/models/message/helper.rs:185-224 | what is about to be inserted has no row yet, so ON CONFLICT never drops a message |
| MessageConservation.SentIsKept | vaultless-core/src/models/message/background_process.rs:119-133 | when every insert commits, each sent message waits, is in the table, or was deleted from it |
| MessageConservation.PurgerFindsNothing | vaultless-core/src/models/message/background_process.rs:183-235 | the purge query selects nothing in any reachable state |
| MessageRevival.DeletedComesBackIff | vaultless-core/src/models/message/helper.rs:270-323 | after an applied delete task for a sent message, some continuation has it in the table again if and only if it was then in channel, buffer or emergency write |
| MessageRevival.ComesBackUndelivered | vaultless-core/src/models/message/helper.rs:185-224 | the flush that brings it back inserts it as undelivered |
| MessageConservation.BacklogIsBounded | vaultless-core/src/models/message/background_process.rs:147-177 | the deleter's buffer exceeds its batch size by no more than the failed connections since its last successful tick |
| MessageConservation.BacklogGrows | vaultless-core/src/models/message/helper.rs:278-284 | while connections fail it holds every task queued, without bound |
| Delivery.FlagsAreApart | vaultless-core/src/models/message/instant_message1.rs:15-22 | over all interleavings, two settings of one message's counted flag are at least its lifetime apart |
| Delivery.MeteredOncePerLifetime | vaultless-core/src/models/message/instant_message.rs:414-473 | two fetches of a message reach the metering step at least a flag's lifetime apart, on either path, retries and lost replies included |
| Delivery.LostReplyIsNotMetered | vaultless-core/src/models/message/instant_message1.rs:568-594 | after a setting whose reply was lost, no fetch meters the message in that lifetime |
| Delivery.ReturnedIsCounted | vaultless-core/src/models/message/instant_message.rs:414-543 | in every run, what is returned from Redis has a valid signature where its sender asks for one, and what is returned from the table has a signature, empty or valid where its sender asks; its flag was alive when it was counted, and a winner has metered it |
| Delivery.GivesUpAfterFailures | vaultless-core/src/models/message/instant_message.rs:414-543 | the converse: in every run a fetch whose message has what its path asks for gives up only after three unanswered tries |
| Delivery.UnsignedIsNotReturned | vaultless-core/src/models/message/helper.rs:66-80 | a message without a signature is never returned on the SQL path |
| Delivery.MeteredAtMostThrice | vaultless-core/src/models/message/instant_message1.rs:597-621 | the metric of a message is at most three per flag that a fetch knows it set |
| Delivery.MeteredOnce | vaultless-core/src/models/message/instant_message1.rs:597-621 | without lost metering replies it is at most one, and exactly one for a returned winner |
| DeliveryCounts.MeteredExactly | vaultless-core/src/models/message/instant_message1.rs:568-621 | in every interleaving, a delivery is metered once per lost reply of its metering and once more if its fetch returned it, and never if its fetch did not learn that it set the flag; so exactly once if and only if it returned with no reply lost, or gave up with one lost |
| DeliveryCounts.MeteredThrice | vaultless-core/src/models/message/instant_message1.rs:597-621 | a run in which one delivery is returned and metered three times |
| DeliveryCounts.ReturnedUnmetered | vaultless-core/src/models/message/instant_message1.rs:568-594 | a run in which a delivery is returned and never metered |
| DeliveryFetch.InstantMessages.CountDeliveryOnceAtomic | vaultless-core/src/models/message/instant_message1.rs:240-252 | the script's effect and answer, or its effect without an answer |
| DeliveryFetch.InstantMessages.CountDeliveryOnceWithRetry | vaultless-core/src/models/message/instant_message1.rs:568-594 | the loop is its tries in order, stops at the first answer and fails after three errors |
| DeliveryFetch.InstantMessages.IncrementReceivedWithRetry | vaultless-core/src/models/message/instant_message1.rs:597-621 | the metering loop likewise |
| DeliveryFetch.InstantMessages.Deliver | vaultless-core/src/models/message/instant_message.rs:414-473 | verify, count, meter if newly counted; the message is handed on if and only if it has what its path asks for, one of three tries to count it is answered and, when that newly set the flag, one of three tries to meter it is |
| DeliveryFetch.FetchedReturnsIff | vaultless-core/src/models/message/instant_message.rs:414-473 | the same of the specification, for both paths: exactly which messages with which replies are handed on, a lost try that set the flag counting as having been there |
| DeliveryFetch.AloneFetch | vaultless-core/src/models/message/instant_message.rs:414-473 | in the interleaved machine a fetch left alone does what the code does |
| Fetch.MessageFetch.FetchMessages | vaultless-core/src/models/message/instant_message.rs:384-586 | a fetch hands on the hits one by one, queues those and the invalid ones for deletion, trims hits and misses, gives its messages only when both trims are answered and complete, and hands on nothing from the table; whatever it gives was found in Redis and has the valid signature it asks for |
| Fetch.HitIsHandedOnIff | vaultless-core/src/models/message/instant_message.rs:414-473 | exactly when a hit is handed on, and when it is queued for deletion: handed on, or failing its check with its copy removed |
| Fetch.HandedAreGood | vaultless-core/src/models/message/instant_message.rs:384-473 | everything handed on in a fetch was found in Redis and has the valid signature it asks for |
| Fetch.SucceedsIff | vaultless-core/src/models/message/instant_message.rs:482-556 | it gives its messages if and only if each trim that is made is answered and leaves fewer than 8000 ids |
| Fetch.SuccessTakesAll | vaultless-core/src/models/message/instant_message.rs:482-556 | then the inbox is what it was less all ids asked for, handed on or not |
| Fetch.UnansweredTrimTakes | vaultless-core/src/models/message/instant_message.rs:482-556 | a trim whose answer is lost fails the fetch and takes the ids all the same, one that does not arrive only fails it |
| Fetch.StoredIsNotHandedOn | vaultless-core/src/models/message/helper.rs:66-73 | messages as the table gives them, without a signature, change no counter and are not handed on |
| Fetch.DiscardedFetch | vaultless-core/src/models/message/instant_message.rs:480-488 | a run in which a message is counted, metered and queued for deletion and the fetch answers with an error, the inbox gone |
| Fetch.UncountedIsGone | vaultless-core/src/models/message/instant_message.rs:422-488 | a run in which a message that could not be counted is not handed on and gone from the inbox |
| Inbox.RecipientInbox.RebuildPaginated | vaultless-core/src/models/message/instant_message1.rs:25-116 | the page loop ends and appends the first ids in order up to whole pages reaching the limit, with the expiry set; a failing query leaves the pages before it and no expiry |
| Inbox.RecipientInbox.Rebuild | vaultless-core/src/models/message/instant_message1.rs:258-320 | the first ids up to the limit, and the expiry, or nothing for no rows or a failing query; a script without an answer may have taken effect |
| Inbox.RecipientInbox.RebuildSafe | vaultless-core/src/models/message/instant_message1.rs:119-170 | rebuilds only an empty inbox under the lock; gives the lock back on success and on a failing query, and keeps it when LLEN fails or the answer to the SET is lost |
| Inbox.RecipientInbox.Append | vaultless-core/src/models/message/instant_message.rs:164-166 | the id goes to the end and the list is cut to its first 10 001 items |
| Inbox.RecipientInbox.TrimBatch | vaultless-core/src/models/message/instant_message1.rs:355-432 | the filtered list, the number removed and the renewed expiry, the lifetime's text counting as an id; the list lost and an error from 8000 kept items on |
| Inbox.RecipientInbox.TrimBatchLarge | vaultless-core/src/models/message/instant_message1.rs:435-506 | the same without that extra id, with the temporary set cleared |
| Inbox.RebuildsAgreeIff | vaultless-core/src/models/message/instant_message1.rs:25-320 | for any page size and limit they agree if and only if the limit is not reached or is a whole number of pages |
| Inbox.WithoutSelects | vaultless-core/src/models/message/instant_message1.rs:386-402 | the filter keeps exactly the items not removed, in their order |
| Inbox.TrimKeepsIff | vaultless-core/src/models/message/instant_message1.rs:386-402 | a trim leaves the filtered list, for ten minutes, if and only if that has at most 7999 items, and otherwise nothing |
| Inbox.TrimsAgreeIff | vaultless-core/src/models/message/instant_message1.rs:374-484 | the scripts end alike if and only if the lifetime's text is asked for or is no item, or both stop |
| Inbox.TrimsAgreeOnIds | vaultless-core/src/models/message/instant_message1.rs:374-484 | on lists of printed ids both scripts remove exactly the given ids |
| Inbox.FullInboxDropsTheNewest | vaultless-core/src/models/message/instant_message.rs:164-166 | the id goes to the end exactly when the list holds at most 10 000 ids, and a send leaves the list as it was exactly when it holds 10 001 |
| InboxRuns.InboxIsFifo | vaultless-core/src/models/message/instant_message1.rs:355-506 | in every run of pushes, cuts, trims, flushes, rebuilds and passing time, the list is what was pushed, in order, less what was trimmed, flushed or cut off, since it last expired, was lost to a trim or was rebuilt |
| InboxRuns.PushThenCut | vaultless-core/src/models/message/instant_message.rs:164-166 | a push and the cut after it are one send |
| InboxRuns.KeptTenMinutes | vaultless-core/src/models/message/instant_message1.rs:355-432 | in every run the list goes ten minutes after its last trim or rebuild, whatever is sent, and without one it has no expiry |
| InboxRuns.HoldsAllUnfetchedIff | vaultless-core/src/models/message/instant_message.rs:164-166 | in every run it is all that was rebuilt and pushed since the last rebuild less what was trimmed, if and only if every id taken by an expiry, a flush, a failed trim or the cap was trimmed as well |
| InboxRuns.ExpiryTakesUnfetched | vaultless-core/src/models/message/instant_message1.rs:398-398 | a run in which an id nobody fetched is gone with the expiry |
| InboxRuns.BigTrimLosesAll | vaultless-core/src/models/message/instant_message1.rs:386-402 | of more than 8000 pushed ids, a trim of the first leaves none |
| InboxRuns.BigTrimIsReachable | vaultless-core/src/models/message/instant_message1.rs:386-402 | there are runs with that many printed ids |
| InboxRebuild.Finishes | vaultless-core/src/models/message/instant_message1.rs:25-170 | a rebuild left alone comes to its end, having appended the rows from its offset to the limit and nothing else |
| InboxRebuild.ShortRebuilds | vaultless-core/src/models/message/instant_message1.rs:119-170 | a lost answer to the SET leaves the lock and no rebuild, a failing LLEN ends the rebuild with the lock held, and a list that is not empty ends it with the lock given back if the DEL arrives |
| InboxRebuild.BrokenRebuilds | vaultless-core/src/models/message/instant_message1.rs:119-170 | a push that fails ends the rebuild with the lock given back, one that dies leaves the lock to run out, and neither takes back what was pushed |
| InboxTwice.PagesApartIff | vaultless-core/src/models/message/instant_message1.rs:25-170 | rebuilds that send each command while their own lock lives, over any table changes and interleavings: at all times no id is in the list twice, or will be when the page read is pushed, if and only if every page read is apart from the list and no send is of a listed id or one of that page |
| InboxTwice.NoneTwiceIff | vaultless-core/src/models/message/instant_message1.rs:25-170 | the same rebuilds: no id is in the list twice, or will be when the rebuild goes on alone, if and only if no change of the table leaves a listed or read row at or after the offset of the next query, and no send is of an id listed or due |
| InboxTwice.InsertionClashesIff | vaultless-core/src/models/message/instant_message1.rs:37-46 | a row inserted into the table does so if and only if it comes before that offset and the row it moves there is listed or read, or comes at or after it and is so itself |
| InboxTwice.PunctualRebuildsLeaveNoneTwice | vaultless-core/src/models/message/instant_message1.rs:119-170 | over a table that only loses rows, with sends of new ids, no id is ever in the list twice |
| InboxSkips.ReadsAllIff | vaultless-core/src/models/message/instant_message1.rs:25-116 | the same rebuilds over any table changes: at all times the rebuild, going on alone, ends with all rows up to the limit appended if and only if no change leaves a row before the offset that was not read |
| InboxSkips.LeaveSkipsIff | vaultless-core/src/models/message/instant_message1.rs:37-46 | rows that leave make it skip one if and only if one of them stood before the offset and a row behind it stays |
| InboxSkips.InsertSkipsIff | vaultless-core/src/models/message/instant_message1.rs:37-46 | a new row is skipped if and only if it comes before the offset and was not read |
| InboxRebuildRuns.LateRebuildRepeats | vaultless-core/src/models/message/instant_message1.rs:127-165 | a run in which a rebuild outlives its lock and the table is in the list twice |
| InboxRebuildRuns.GrowingTableRepeats | vaultless-core/src/models/message/instant_message1.rs:119-170 | a run in time in which a message sent and flushed between LLEN and the query is in the list twice |
| InboxRebuildRuns.ShiftedRowRepeats | vaultless-core/src/models/message/instant_message1.rs:37-46 | for every table of 1000 rows or more, a run in time in which an older row arrives after the first page and the last id of that page is appended again |
| InboxRebuildRuns.LeavingRowSkips | vaultless-core/src/models/message/instant_message1.rs:37-46 | for every table of 1001 rows, a run in time that ends without the last of them, still in the table |
| UsageLedger.EveryRunBalances | vaultless-core/src/models/usage/usage.rs:281-998 | in every run, final flushes, lost replies and crashes included, table plus Redis is what was counted, less the increments made between the last read of a key and its delete, plus what was committed and not deleted: for good, or while the deletes are going on |
| UsageLedger.NothingLostIff | vaultless-core/src/models/usage/usage.rs:960-983 | nothing is deleted uncounted if and only if no delete comes after an increment of the counter that was not read |
| UsageLedger.NothingDoubledIff | vaultless-core/src/models/usage/usage.rs:945-998 | nothing is counted twice if and only if no commit without an answer, no crash and no undelivered delete leaves in Redis some of the counter that was committed |
| UsageLedger.RegularRunsConserve | vaultless-core/src/models/usage/usage.rs:710-998 | so in runs of regular cycles with answered commits, increments in their own hour and deletes that arrive, table plus Redis is what was counted, plus what a commit has still to delete |
| UsageLedger.CommitAddsLastRead | vaultless-core/src/models/usage/usage.rs:890-952 | in every run a commit adds to a row what was read of its key last, however often the scan returned the key; of several entries only the last can have counters |
| UsageRuns.FinalFlushCanLose | vaultless-core/src/models/usage/usage.rs:741-776 | a run of the shutdown flush in which one of two increments ends up in neither store |
| UsageRuns.UnansweredCommitCountsTwice | vaultless-core/src/models/usage/usage.rs:945-958 | a run in which the one increment is in the table and in Redis, to be added again |
| UsageFlush.BatchFits | vaultless-core/src/models/usage/usage.rs:822-890 | a batch never exceeds its maximum size, so it is one chunk and one transaction |
| UsageFlush.CostIsClose | vaultless-core/src/models/usage/usage.rs:578-585 | in every run a row's stored cost is within half a cent per flush of the exact one, at a tenth of a cent a message, a cent a million bytes and a hundredth of a cent a proof, and its stored bytes are those sent plus those received |
| UsageFlush.CostBoundIsReached | vaultless-core/src/models/usage/usage.rs:903-947 | that error is attained for every number of flushes |
| UsageFlusher.Flusher.IncrementFields | vaultless-core/src/models/usage/usage.rs:281-305 | the field-by-field increments add up to one increment of the key by their total |
| UsageFlusher.Flusher.ReadKey | vaultless-core/src/models/usage/usage.rs:773-820 | a key at or past the cutoff is passed over; otherwise it is marked and its counters join the batch, or not when a command times out |
| UsageFlusher.Flusher.FlushBatchToPg | vaultless-core/src/models/usage/usage.rs:873-998 | commit and deletes of a whole batch are `FlushWhole`; reported as flushed exactly when the batch is empty or its commit acknowledged |
| UsageFlusher.Flusher.FlushRedisToPg | vaultless-core/src/models/usage/usage.rs:710-845 | a whole cycle is `WholeCycle`: recovery, scans, a flush whenever the batch is full and one at the end; it reports success exactly when the scan does not fail and the last batch is empty or acknowledged |
| UsageCycles.FlushIsSteps | vaultless-core/src/models/usage/usage.rs:873-998 | a whole batch is the machine's flush step and, when the commit is acknowledged, one delete step for each of its entries |
| UsageCycles.CycleIsSteps | vaultless-core/src/models/usage/usage.rs:710-845 | a whole cycle is the machine's recovery, start, scan, flush and delete steps one after the other, so every law about runs holds of it |
| UsageMoves.FlushMoves | vaultless-core/src/models/usage/usage.rs:873-998 | after an acknowledged flush of what Redis holds, with deletes that arrive, every key of the batch is gone from Redis and exactly what it held is added to its row, which is made only if there was something; every other key is as it was in both stores |
| UsageMoves.FailedFlushKeeps | vaultless-core/src/models/usage/usage.rs:873-998 | a flush that does not commit leaves both stores as they were |
| UsageMoves.CycleMoves | vaultless-core/src/models/usage/usage.rs:710-998 | a cycle that nothing interrupts or fails moves exactly the keys that it reads and whose hour began before the present one, or within a day from now at shutdown, and leaves all others |
| UsageMoves.AcknowledgedIff | vaultless-core/src/models/usage/usage.rs:890-958 | a commit is acknowledged exactly when no two entries with counters share a key and it is answered or there is nothing to commit |
| UsageMoves.ScanMarks | vaultless-core/src/models/usage/usage.rs:773-820 | what scanning one key changes: its mark, unless that does not arrive, and the batch when it is read; never its counters, and nothing of a key of the present hour |
| UsageMoves.RecoverClears | vaultless-core/src/models/usage/usage.rs:645-740 | recovery takes the mark off every orphan still there and changes nothing else |
| MetricKeys.NewEqualIff | vaultless-core/src/models/usage/usage.rs:145-195 | two printed keys are equal if and only if API key, granularity and truncated time are, for all years |
| MetricKeys.ParseInverts | vaultless-core/src/models/usage/usage.rs:201-229 | the parser takes back API key and hour from the form it expects, for every calendar hour of four-digit years |
| MetricKeys.NoKeyParses | vaultless-core/src/models/usage/usage.rs:201-252 | it takes no key that is printed, and the conversion reports invalid components |
| MetricKeys.PeriodFields | vaultless-core/src/models/usage/usage.rs:145-195 | a printed period shows year, month, day, hour and minute in their places |
| MetricKeys.KeyParts | vaultless-core/src/models/usage/usage.rs:145-195 | the parts of a printed key and their separators |
| MetricKeys.PrintParsed | vaultless-core/src/models/usage/usage.rs:201-229 | a period that is taken is the start of a calendar hour, and of ten digits it is the hour that prints as them |
| MetricKeys.SignsAreTaken | vaultless-core/src/models/usage/usage.rs:201-229 | the numbers of a period may carry a sign |
| MetricKeys.ErrorOf | vaultless-core/src/models/usage/usage.rs:232-252 | the conversion succeeds exactly on what parses, and which error it gives otherwise |
| MetricKeyFlush.PrintedKeysAreNeverFlushed | vaultless-core/src/models/usage/usage.rs:773-845 | a whole cycle over keys as they are printed leaves both stores as they were, whatever was counted in them |
| UuidText.ParsePrint | vaultless-core/src/models/usage/usage.rs:212-212 | parsing a UUID takes back what printing gives |
| UuidText.ParsesIff | vaultless-core/src/models/usage/usage.rs:212-212 | a text parses to a UUID if and only if it is one of its four forms, with digits of either case |
| RefreshTokens.RefreshTokenTable.Rotate | vaultless-core/src/models/user.rs:562-601 | the old row used, and a new one of its user and family linked to it |
| RefreshTokens.RenewalBounds | vaultless-core/src/models/user.rs:580-582 | a rotated token gets a day or more, and never a date past its parent's unless that day needs it |
| RefreshOwners.RenewedByDays | vaultless-core/src/models/user.rs:580-582 | a rotated token runs out a whole number of days from now: as many as its parent has left, but at least one |
| RefreshTokens.TokenService.CreateTokenPair | vaultless-api/src/services/token.rs:81-184 | cache entry and row of a new family |
| RefreshTokens.TokenService.RefreshToken | vaultless-api/src/services/token.rs:247-426 | the answer, and cache and table after a reuse, a rotation and each refusal |
| RefreshTokens.StepKeepsInv | vaultless-api/src/services/token.rs:247-382 | every call, eviction and expiry keeps the families chains, the cache in agreement with the table, and exactly the rotated tokens used |
| RefreshOwners.FamilyKeepsUser | vaultless-api/src/services/token.rs:247-382 | in every run each row and each cache entry belongs to the user that its family was created for |
| RefreshOwners.RotationLinks | vaultless-core/src/models/user.rs:562-601 | in every run a success links the new token, unused and of the same user and family, to the old one, marks that used, and changes no other row |
| RefreshOwners.RotationCaches | vaultless-api/src/services/token.rs:329-382 | the cache then holds the new token for thirty days, and for a minute that the old one is used |
| RefreshOwners.CreationGives | vaultless-api/src/services/token.rs:81-184 | a new family begins with an unused token of the user that is taken, and lives for thirty days in cache and table |
| RefreshOwners.ReuseForgets | vaultless-api/src/services/token.rs:286-305 | detecting a reuse drops the presented token, and it alone, from the cache |
| RefreshTokens.FamiliesAreChains | vaultless-core/src/models/user.rs:562-601 | in every run each family is one chain of parents in which only the last token is unused |
| RefreshTokens.OneUnusedPerFamily | vaultless-core/src/models/user.rs:562-601 | two unused tokens of a family are the same token |
| RefreshTokens.EachTokenSucceedsOnce | vaultless-api/src/services/token.rs:251-382 | no token is rotated twice, across cache hits, cache expiry and fallback to the table |
| RefreshTokens.SucceedsIff | vaultless-api/src/services/token.rs:251-314 | exactly which tokens are taken: unused, and cached or not revoked; no expiry date is asked |
| RefreshTokens.ExpiredTokenIsTaken | vaultless-api/src/services/token.rs:251-314 | a token never presented is taken any time after its expiry date |
| RefreshTokens.ReuseRevokesTheFamily | vaultless-api/src/services/token.rs:286-305 | presenting a used token is always answered as theft and revokes every row of its family and no other |
| RefreshTokens.ReuseStopsTheFamilyIff | vaultless-api/src/services/token.rs:286-309 | afterwards the family's unused token is refused if and only if the cache does not hold it |
| RefreshTokens.CachedTokenOutlivesReuse | vaultless-api/src/services/token.rs:251-305 | a run in which a revoked family goes on being rotated |
| RefreshTokens.RevokedFamilyGoesOn | vaultless-api/src/services/token.rs:251-382 | a family whose newest token is cached goes on for any number of rotations, its rows revoked or not, each making an unrevoked token |
| RefreshSpawned.TakenOnceIff | vaultless-api/src/services/token.rs:329-382 | with the table written by tasks that land later, in any order, or fail: no taken token would ever be taken again if and only if the cache forgets none whose row is open, and no row of a forgotten one lands |
| RefreshSpawned.RefusedIsOnce | vaultless-api/src/services/token.rs:286-382 | then no token is taken twice |
| RefreshSpawned.NotRefusedIsTwice | vaultless-api/src/services/token.rs:286-382 | and otherwise one more presentation takes one twice |
| RefreshSpawned.SlowRotationTakesTwice | vaultless-api/src/services/token.rs:339-365 | a run in which a rotation lands after the minute of the cache and the token is taken twice |
| RefreshSpawned.WrongOrderTakesTwice | vaultless-api/src/services/token.rs:348-365 | a run in which two rotations land in the wrong order, and with all tasks done a token is taken twice |
| RefreshSpawned.FailedRotationTakesTwice | vaultless-api/src/services/token.rs:348-365 | a run in which a rotation's task fails and, with no task left, the token is taken twice |
| RefreshSpawned.EvictionTakesTwice | vaultless-api/src/services/token.rs:329-365 | a run in which the cache evicts the mark before the rotation lands and the token is taken twice |
| RefreshSpawned.PromptRefresh | vaultless-api/src/services/token.rs:286-382 | a call whose task lands at once is the call of `RefreshTokens` |
| RefreshSpawned.PromptCreation | vaultless-api/src/services/token.rs:81-184 | likewise for the creation of a family |
| RefreshOwners.LineKeepsUser | vaultless-api/src/services/token.rs:247-382 | however the tasks land, each row, cache entry and task of a token has the user and the family of the call that began the token's line |
| SessionTokens.FillClaims | vaultless-core/src/models/session/paseto_session.rs:125-153 | the claims object holds one claim per field, optional fields only when present |
| SessionTokens.CreateSessionToken | vaultless-core/src/models/session/paseto_session.rs:120-161 | the claims under their names, sealed with the key given |
| SessionTokens.ClaimedNamed | vaultless-core/src/models/session/claims_keys.rs:1-15 | reading each claim by its name gives back all claims: no two share one |
| SessionTokens.RequiredNames | vaultless-core/src/models/session/claims_keys.rs:1-15 | a created token says the client, the token id, the application, the platform and the version under their names on the wire |
| SessionTokens.NumberNames | vaultless-core/src/models/session/claims_keys.rs:1-15 | and its three times and its score |
| SessionTokens.OptionalNames | vaultless-core/src/models/session/claims_keys.rs:7-15 | and tier, secret and public key under theirs when the data has them, and not otherwise |
| SessionTokens.ExtractInverts | vaultless-core/src/models/session/paseto_session.rs:172-242 | every field comes back, for all combinations of optional fields and all scores |
| SessionTokens.ExtractIff | vaultless-core/src/models/session/paseto_session.rs:172-242 | of any claims at all: data comes out if and only if subject and application read as UUIDs and there is a token id; what stands in for a missing platform, version or score |
| SessionTokens.VerifiesIff | vaultless-core/src/models/session/paseto_session.rs:71-242 | a created token gives back its data and expiration while it is live, to the nanosecond, and its key is current or previous, and is refused otherwise |
| SessionTokens.OpensOnlyLive | vaultless-core/src/models/session/paseto_session.rs:71-82 | any token opens if and only if the current or the previous key sealed it and its times say that it is issued, in force and not past |
| SessionTokens.AcceptedThroughOneRotation | vaultless-core/src/models/session/paseto_session.rs:71-82 | a live token is accepted after none or one rotation and refused after two or more, for any sequence of other keys |

## Left out

- HTTP routes, handlers, WebSocket transport, mail, templates, X.509, captcha and JWKS: input, output and foreign libraries.
- `SessionVerifier` in paseto_session.rs: the revocation cache of `HybridSessionVerifier` without the channel.
- The pub/sub silence timer in health.rs: pub/sub health is an arbitrary boolean.
- Capacity eviction of the local cache as a policy: an eviction is a step that can happen at any time.
- Redis message copies that flusher, deleter and purger clean up, pending read receipts, and the dead-letter queue: they do not touch the places a message is counted in. The flusher's removals from the inbox are a step of `InboxRuns`.
- What a sender is told of an emergency write, which can still succeed after its five seconds.
- The send path before the channel: the sent counter is metered like the received one.
- Inbox.RecipientInbox.RebuildPaginated: takes the pipeline that pushes one page as one step without errors; `InboxRebuild` has its commands and its errors.
- The order of rows with equal creation times: the rebuild sees one fixed, totally ordered result.
- Partial effects of a failed usage increment, the expiry of usage hashes, and flush cycles that overlap.
- IntegrityLimits.IntegrityService.VerifyIntegrity: takes INCR and the EXPIRE of a first hit as one step without errors; `IntegrityExpiry` has the two commands and their errors.
- InboxRuns.InboxIsFifo: takes a rebuild, of an empty list, as one step; `InboxRebuild` takes it apart, without the expiry time of the list, which can vanish there at any moment.
- RefreshTokens.TokenService.RefreshToken: takes the cache as never failing, the writes to the table as done before the next call, which `RefreshSpawned` does not, and leaves out the access-token session.
- RefreshTokens.TokenService.CreateTokenPair: likewise.
- Concurrent refreshes of one token between the read and the write of its cache entry.
- Floating-point rounding of the cost estimate: it is worked out in exact arithmetic.
- The claims the PASETO library adds beyond issue time, not-before time and expiration, and its own checks of the ciphertext.
- Non-ASCII text in metric keys.
- SessionTokens.VerifiesIff: refuses at the very nanosecond of expiration, where the library decides.
- DeliveryFetch.InstantMessages.Deliver: is the closure of one message; `Fetch` has the queueing, the removal of invalid messages and the trims around it.
- Fetch.MessageFetch.FetchMessages: begins with the ids and copies read; the rebuild of an empty inbox before that is `RebuildSafe`, and marking as read after it is left out. It hands on the messages one after the other, where module Delivery interleaves them.
- UsageFlusher.Flusher.FlushRedisToPg: does not fail to get a connection, which changes nothing.
