# WiseGuard in Dafny

WiseGuard is a TCP server that hands out a quote to a client that solves a proof-of-work puzzle, behind
several admission controllers. This project models its stateful parts and proves what they guarantee over
whole runs and under every interleaving of their locked steps.

| file | what it models |
|---|---|
| `Keyed.dfy` | maps from client keys to small records, stepped one key at a time or swept; keys are isolated |
| `TokenBucket.dfy`, `TokenBucketTheory.dfy`, `TokenBucketStore.dfy` | the token bucket, compared with ideal continuous buckets; the object with its mutable buckets |
| `FailedAttempts.dfy`, `FailedAttemptsStore.dfy` | the failure tracker and its block |
| `ConnectionLimiter.dfy`, `RateLimiter.dfy` | the per-IP connection count with its TTL, the per-minute window with its block latch |
| `Admission.dfy` | the chain of checks of the protection layer |
| `HashDifficulty.dfy`, `SolvePow.dfy` | the leading-zeros test, the parallel search |
| `ChallengeStore.dfy` | challenges with timed eviction |
| `Server.dfy` | acceptor, handlers, difficulty adjuster and timers, with both per-IP limiters inside, as one transition system of atomic steps |
| `AcceptLoop.dfy`, `PerIP.dfy` | its counters and connection slots; what one IP can get out of it |
| `Conversation.dfy`, `DifficultyTruncation.dfy` | what it sends and to whom; when the eight-bit difficulty fails |
| `Framing.dfy`, `Session.dfy` | the wire format, the client/server conversation |
| `Arithmetic.dfy` | products and quotients used above |

Each controller appears twice: as a step function on one key's record, about which the theorems are
proved, and as a class that updates its map in place. Every method of a class is proved to perform the
step on its key, and the class keeps a log from which its whole content follows (`Keyed.Recorded`), so
the theorems hold for the object over its whole life. Concurrency is a transition system: a run is any
sequence of actions, and an action that is not enabled changes nothing.

Where the code and its own documentation differ, the model follows the code:

- The documentation asks for leading zero *bits*; the code counts zero hexadecimal *digits*, so difficulty
  d is 4d bits (`HashDifficulty.DifficultyIsArithmetic`).
- "Limits concurrent connections per IP" holds only on runs no longer than the limiter's TTL
  (`ConnectionLimiterTheory.ConcurrencyLimitedExactly`); beyond that the exact growth is proved, also
  inside the running server (`PerIPTheory.OpenConnectionsBound`). The accept loop does not return a slot
  when it drops a connection after the limiter counted it (`AcceptLoopTheory.LostSlotsRefuse`).
- "Failed attempts" does not include a wrong solution that could be answered: a failure is registered
  exactly when the client got no reply (`ConversationTheory.AnsweredIsNoFailure`); and the protection layer keys by address and port, so
  failures and tokens are per connection endpoint.
- The rate limiter's `rate` is never read; its limit is one burst a minute, and up to twice the burst less
  one in a sliding minute (`RateLimiterTheory.AnyMinute`, `RateLimiterTheory.NearlyTwiceTheBurst`).
- A search that nobody cancels may return the empty string without an error, although it found a solution:
  exactly with a single worker (`SolvePowTheory.EmptyResultExactly`).
- Cleanup of token buckets is meant for unused ones, but refillAll keeps renewing them: under the server's
  own settings no bucket is ever deleted (`TokenBucketTheory.DefaultCleanupDropsNothing`).
- With InitialDifficulty 254 or 255 the adjusted difficulty is truncated to eight bits
  (`DifficultyTruncation.NeverRefusedExactly`).

## Model

| member | source | states |
|---|---|---|
| Keyed.KeysAreIsolated | pkg/server/protection/token_bucket.go:75-130 | For any per-key step, the entry of a key after a run of the whole store is the run of that key's own operations and the sweeps: keys never influence each other |
| TokenBucketTheory.SlackIsFraction | pkg/server/protection/token_bucket.go:98-106 | Rounding down hides at most Slack, a fraction below one token, for every time span |
| TokenBucketTheory.IdealBucketSimulates | pkg/server/protection/token_bucket.go:75-143 | Forward simulation: under any interleaving of Take, GetTokens, refillAll and cleanup, every grant is also served by an ideal continuous bucket of capacity + Slack < capacity + 1 at the same rate, provided the sweeps create no credit, by the settings or because they delete nothing |
| TokenBucketTheory.GrantBound | pkg/server/protection/token_bucket.go:75-130 | Grants of a run are at most the credit at its start plus what accrues, across deletion and re-creation |
| TokenBucketTheory.WindowBound | pkg/server/protection/token_bucket.go:75-130 | In any window from any reachable bucket, fewer than capacity + 1 + accrual tokens are handed out |
| TokenBucketTheory.WindowNeedsOneMore | pkg/server/protection/token_bucket.go:98-130 | The extra token cannot be saved: below a token a nanosecond some run from the first use, with refillAll at most r apart, has a window with more than capacity + accrual |
| TokenBucketTheory.WindowLimitedExactly | pkg/server/protection/token_bucket.go:75-130 | Where the sweeps create no credit, every window of every run obeys capacity + accrual if and only if the fill rate is at least a token a nanosecond, so that no fraction is ever hidden |
| TokenBucketTheory.RateLimitedExactly | pkg/server/protection/token_bucket.go:75-130 | However late refillAll may come, every run from the first use obeys capacity + accrual if and only if a full bucket accrues within the first age at which cleanup drops a bucket |
| TokenBucketTheory.RateLimitedWhileTickingExactly | pkg/server/protection/token_bucket.go:33-106 | With refillAll at most r apart, every run obeys capacity + accrual if and only if that holds or a whole token accrues within the cleanup interval less r |
| TokenBucketTheory.CleanupDoublesBurst | pkg/server/protection/token_bucket.go:49-106 | Otherwise, and unless a token accrues within the interval less r, a drained bucket is swept and drained again while refillAll ticks every r, which breaks the limit |
| TokenBucketTheory.DefaultConfigIsRateLimited | pkg/server/server.go:59-60 | The server's own settings obey the limit |
| TokenBucketTheory.CleanupIsIdleExactly | pkg/server/protection/token_bucket.go:33-106 | With refillAll at most r apart, cleanup never deletes a bucket on any run if and only if a whole token accrues within the interval less r |
| TokenBucketTheory.DefaultCleanupDropsNothing | pkg/server/server.go:59-60 | Under the server's own settings cleanup never deletes a bucket, exactly as long as refillAll, ticking every second, is never more than about 299.9 seconds apart |
| TokenBucketTheory.NoStarvation | pkg/server/protection/token_bucket.go:98-130 | After a denied Take, unless a Take was granted in between, a Take one token's time later is granted, whatever refills, looks, sweeps and denied Takes ran |
| TokenBucketTheory.HalfRateGuaranteed | pkg/server/protection/token_bucket.go:75-143 | On every run at least as many tokens are handed out as by an ideal bucket of the same capacity and half the rate offered the same Takes |
| TokenBucketTheory.BurstGrantsExactly | pkg/server/protection/token_bucket.go:98-130 | On every reachable bucket of k tokens updated at u, exactly min(n, capacity, k + fillRate * (t - u) rounded down) of n Takes at time t are granted |
| TokenBucketTheory.FirstBurstGrantsExactly | pkg/server/protection/token_bucket.go:108-121 | ... and min(n, capacity) of the first n Takes of a key |
| TokenBucketTheory.BurstGrantsAvailable | pkg/server/protection/token_bucket.go:98-130 | ... so on any entry, stored or not, as many as are available |
| TokenBucketTheory.RefillLosesLessThanOne | pkg/server/protection/token_bucket.go:88-106 | After any run, a refillAll or GetTokens leaves at most capacity, adds nothing that did not accrue, and unless capped loses less than one token of what did |
| TokenBucketTheory.TakeRefillsAndSpends | pkg/server/protection/token_bucket.go:108-130 | A Take leaves what a refill would leave, less one token exactly when it is granted |
| TokenBucketStore.TokenBucket.RefillBucket | pkg/server/protection/token_bucket.go:98-106 | The in-place refill of one bucket object is the refill of which TokenBucketTheory.BurstGrantsExactly and TokenBucketTheory.RefillLosesLessThanOne say how much it adds |
| TokenBucketStore.TokenBucket.OpenAndSpend | pkg/server/protection/token_bucket.go:108-130 | Finds or creates, refills and spends; the answer is whether the refilled bucket held a token; buckets stay unshared and other keys untouched |
| TokenBucketStore.TokenBucket.Take | pkg/server/protection/token_bucket.go:108-130 | Returns true exactly when a token is available: the stored count plus what accrued since, rounded down, up to capacity, or the capacity for a new key; the whole map and the record of grants change accordingly |
| TokenBucketStore.TokenBucket.GetTokens | pkg/server/protection/token_bucket.go:133-143 | Refills as a side effect, grants nothing, returns exactly the number of Takes that would be granted now |
| TokenBucketStore.TokenBucket.RefillAll | pkg/server/protection/token_bucket.go:88-96 | The loop refills every bucket once, none losing a whole token of what accrued, and grants nothing |
| TokenBucketStore.TokenBucket.DropStale | pkg/server/protection/token_bucket.go:75-86 | Exactly the buckets older than the interval are deleted, the others kept as they are |
| TokenBucketStore.TokenBucket.Cleanup | pkg/server/protection/token_bucket.go:75-86 | The sweep as a step of the store |
| TokenBucketStore.TokenBucket.LifetimeBound | pkg/server/protection/token_bucket.go:22-143 | Over an object's life the true answers of Take for one key are at most capacity + accrual |
| TokenBucketStore.TokenBucket.LifetimeService | pkg/server/protection/token_bucket.go:98-143 | ... and, whatever the settings, at least those of the half-rate ideal bucket offered the same Takes |
| TokenBucketStore.TokenBucket.CleanupDeletesNothing | pkg/server/protection/token_bucket.go:75-106 | If refillAll ran within r before it and a token accrues within the interval less r, the next cleanup leaves the whole map as it is |
| FailedAttemptsTheory.RunKeepsInv | pkg/server/protection/failed_attempts.go:39-114 | The stored count lies between the longest close suffix of failures and all failures since the last reset; a deleted record means the last failure is more than blockTime old |
| FailedAttemptsTheory.BlockedExactly | pkg/server/protection/failed_attempts.go:39-114 | A key is blocked at t if and only if the failures since the last reset, and since the last IsBlocked or cleanup more than blockTime after the latest of them, number at least maxAttempts with the latest less than blockTime before t |
| FailedAttemptsTheory.RepeatOffendersAreBlocked | pkg/server/protection/failed_attempts.go:39-114 | maxAttempts failures with gaps of at most blockTime and no reset block the key until blockTime after the last, whatever deletions ran |
| FailedAttemptsTheory.OnlyRepeatOffendersAreBlocked | pkg/server/protection/failed_attempts.go:59-81 | A blocked key has at least maxAttempts failures since its last reset, the latest less than blockTime ago |
| FailedAttemptsTheory.DeletionsNeverBlock | pkg/server/protection/failed_attempts.go:59-114 | The tracker with its deletions blocks only when the never-deleting one would |
| FailedAttemptsTheory.AgreeExactly | pkg/server/protection/failed_attempts.go:39-114 | On any run, at any time, the tracker and the never-deleting one agree if and only if the latter does not block or maxAttempts failures are still remembered |
| FailedAttemptsTheory.DeletionsCanUnblock | pkg/server/protection/failed_attempts.go:59-114 | The deletions make no difference on any run if and only if maxAttempts is at most 1 or blockTime is not positive; otherwise one failure forgotten by cleanup and maxAttempts - 1 more leave the key unblocked |
| FailedAttemptsTheory.RemainingIsExact | pkg/server/protection/failed_attempts.go:132-143 | On any reachable record the key stays blocked for exactly GetBlockTimeRemaining unless it fails again or is reset |
| FailedAttemptsStore.FailedAttempts.CountFailure | pkg/server/protection/failed_attempts.go:39-57 | Finds or creates the record and counts in place; records stay unshared |
| FailedAttemptsStore.FailedAttempts.RegisterFailure | pkg/server/protection/failed_attempts.go:39-57 | One logged failure step of the store |
| FailedAttemptsStore.FailedAttempts.IsBlocked | pkg/server/protection/failed_attempts.go:59-81 | Answers the model's test and deletes the record exactly when the model does |
| FailedAttemptsStore.FailedAttempts.ResetFailures | pkg/server/protection/failed_attempts.go:83-88 | Deletes the key's record and nothing else |
| FailedAttemptsStore.FailedAttempts.DropExpired | pkg/server/protection/failed_attempts.go:90-114 | One tick's loop deletes exactly the expired records |
| FailedAttemptsStore.FailedAttempts.GetFailureCount | pkg/server/protection/failed_attempts.go:121-129 | The number of remembered failures, never more than those since the last reset |
| FailedAttemptsStore.FailedAttempts.GetBlockTimeRemaining | pkg/server/protection/failed_attempts.go:132-143 | Positive exactly while the key is blocked |
| FailedAttemptsStore.FailedAttempts.LifetimeBounds | pkg/server/protection/failed_attempts.go:39-114 | The object's next answer for a key, exactly, from the failures it remembers, and bounded both ways by all failures logged for that key |
| ConnectionLimiterTheory.DropsArePaced | pkg/server/ratelimit/connection_limiter.go:31-94 | Forgotten counts are more than ttl apart and each forgets at most maxPerIP; stored counts lie in 1..maxPerIP |
| ConnectionLimiterTheory.LiveBound | pkg/server/ratelimit/connection_limiter.go:31-94 | Live connections of an IP are at most maxPerIP * (1 + T / (ttl + 1)) at elapsed time T, on every run |
| ConnectionLimiterTheory.LiveBoundIsReached | pkg/server/ratelimit/connection_limiter.go:31-57 | That bound is attained for every number of elapsed TTLs |
| ConnectionLimiterTheory.ConcurrencyLimitedExactly | pkg/server/ratelimit/connection_limiter.go:31-94 | At most maxPerIP live connections on all runs of a given length if and only if that length is at most ttl |
| ConnectionLimiterTheory.CountIsLive | pkg/server/ratelimit/connection_limiter.go:31-73 | With releases matched and nothing dropped, the stored count is the live count |
| ConnectionLimiterTheory.AdmitsExactlyBelowLimit | pkg/server/ratelimit/connection_limiter.go:31-57 | ... and a connection is admitted if and only if fewer than maxPerIP are live |
| ConnectionLimiterTheory.OpensAdmitExactly | pkg/server/ratelimit/connection_limiter.go:31-57 | On every reachable entry exactly min(n, room) of n connections at the same instant are admitted, the room being maxPerIP less the count, or all of maxPerIP once the entry is older than ttl |
| ConnectionLimiterTheory.SweepLaw | pkg/server/ratelimit/connection_limiter.go:84-94 | A sweep cannot be noticed: at every later time there is as much room as without it |
| ConnectionLimiterTheory.SweepLetsIn | pkg/server/ratelimit/connection_limiter.go:84-94 | After a sweep that finds the entry older than ttl, exactly min(n, maxPerIP) of n connections are admitted |
| ConnectionLimiterStore.ConnectionLimiter.AllowConnection | pkg/server/ratelimit/connection_limiter.go:31-57 | Answers true exactly when there is room for one more; updates the map as the model does; a refusal stores nothing |
| ConnectionLimiterStore.ConnectionLimiter.RemoveConnection | pkg/server/ratelimit/connection_limiter.go:59-73 | Counts down, deleting at zero, ignoring unknown keys |
| ConnectionLimiterStore.ConnectionLimiter.Cleanup | pkg/server/ratelimit/connection_limiter.go:84-94 | The loop deletes exactly the entries older than ttl |
| ConnectionLimiterStore.ConnectionLimiter.LifetimeBound | pkg/server/ratelimit/connection_limiter.go:21-94 | Admissions minus releases of one IP over an object's life |
| RateLimiterTheory.RenewalsArePaced | pkg/server/ratelimit/limiter.go:37-101 | Resets and deletions after the first are a full period apart, for every ttl |
| RateLimiterTheory.WindowBound | pkg/server/ratelimit/limiter.go:37-101 | After any past run: at most one burst less one token, one burst for the window, and one more per full period it lasts |
| RateLimiterTheory.AnyMinute | pkg/server/ratelimit/limiter.go:37-101 | With ttl of at least a minute, no minute contains more than twice the burst less one |
| RateLimiterTheory.WindowBoundIsReached | pkg/server/ratelimit/limiter.go:37-101 | The window bound is attained for every burst, every ttl and every number of full periods, on runs from an IP's first connection |
| RateLimiterTheory.FirstUseBound | pkg/server/ratelimit/limiter.go:37-101 | T after the first use at most burst * (1 + T / period) connections were allowed |
| RateLimiterTheory.NearlyTwiceTheBurst | pkg/server/ratelimit/limiter.go:43-68 | Both bounds are tight already within one nanosecond: twice the burst less one, on a run from the first connection |
| RateLimiterTheory.LatchCountsRefusals | pkg/server/ratelimit/limiter.go:51-79 | attempts is the number of refusals since creation capped at 2 * burst + 1, and the latch is closed exactly beyond 2 * burst |
| RateLimiterTheory.BlockedUntilSwept | pkg/server/ratelimit/limiter.go:51-55 | A blocked entry is frozen and allows nothing until a sweep finds it older than ttl |
| RateLimiterTheory.SweepLiftsBlock | pkg/server/ratelimit/limiter.go:91-101 | That sweep lifts the block at once |
| RateLimiterTheory.BlockLasts | pkg/server/ratelimit/limiter.go:51-101 | An IP blocked at time t is refused at every time up to t + ttl - 1 minute |
| RateLimiterTheory.AsksGrantExactly | pkg/server/ratelimit/limiter.go:37-80 | On every reachable entry exactly min(n, allowed) of n connections at the same instant are allowed: none while blocked, the whole burst more than a minute after the last reset, otherwise the tokens left |
| RateLimiterTheory.MinuteRestoresBurst | pkg/server/ratelimit/limiter.go:57-68 | After any run, more than 60 seconds after the last reset, an IP that is not blocked has exactly its burst again, however often it was refused |
| RateLimiterTheory.SweepLaw | pkg/server/ratelimit/limiter.go:91-101 | A sweep changes what is allowed later only if it finds the entry older than ttl: then the whole burst is |
| RateLimiterStore.IPRateLimiter.AllowConnection | pkg/server/ratelimit/limiter.go:37-80 | Answers true exactly when at least one connection is still allowed in the sense of RateLimiterTheory.AsksGrantExactly, and updates the map as the model does |
| RateLimiterStore.IPRateLimiter.Cleanup | pkg/server/ratelimit/limiter.go:91-101 | The loop deletes exactly the entries older than ttl |
| RateLimiterStore.IPRateLimiter.LifetimeBound | pkg/server/ratelimit/limiter.go:24-101 | Connections of one IP allowed over an object's life |
| Admission.Protection.IsAllowed | pkg/server/protection/types.go:104-126 | The first failing check in the order filter, failures, memory, tokens gives the error; with a whitelist exactly those outside it fail the filter, without one exactly those on the blacklist; a refusal before the last check leaves every bucket untouched |
| Admission.Protection.ProtectedConn | pkg/server/protection/types.go:76-96 | The same checks without tokens, memory before failures, with the same filter |
| Admission.Protection.AdmitConnection | pkg/server/server.go:113-130 | After a successful IsAllowed with no failure in between, ProtectedConn can only object to memory |
| Admission.Protection.AdmissionsAreRateLimited | pkg/server/protection/types.go:104-126 | Over an object's life one address is let through at most capacity + accrual times |
| HashDifficulty.LeadingZerosBoundValue | pkg/pow/service.go:125-133 | d leading zero half-bytes of an n half-byte string if and only if its value is below 2^(4(n-d)) |
| HashDifficulty.DifficultyIsArithmetic | pkg/utils/crypto.go:10-19 | The prefix test on the hexadecimal digest holds if and only if d <= 64 and the big-endian value is below 2^(256-4d) |
| HashDifficulty.SolvesExactly | pkg/utils/crypto.go:10-19 | A solution solves a challenge if and only if d <= 64 and the hash of the prefix followed by the solution, as a big-endian number, is below 2^(256-4d) |
| HashDifficulty.HexIsInjective | pkg/utils/crypto.go:10-13 | Different digests have different hexadecimal forms |
| HashDifficulty.HarderIsStricter | pkg/pow/service.go:130-133 | A digest that meets a difficulty meets every lower one |
| SolvePowTheory.NothingTestedTwice | pkg/utils/pow.go:18-44 | Under every schedule no number is hashed twice and each residue class is hashed without gaps |
| SolvePowTheory.SolutionIsSoundAndLeast | pkg/utils/pow.go:12-62 | A returned solution solves the puzzle and is the least in its residue class; that one can always be returned is SolutionStaysReachable |
| SolvePowTheory.SolutionIsNotMissed | pkg/utils/pow.go:24-41 | If a number J solves the puzzle, its worker has found a solution at most J once it has spent J / n + 1 hashes |
| SolvePowTheory.FoundIsReturned | pkg/utils/pow.go:31-56 | After any uncancelled schedule, once some worker has found a solution, some continuation returns one |
| SolvePowTheory.SolutionStaysReachable | pkg/utils/pow.go:12-62 | If any number solves the puzzle, then after every uncancelled schedule that has not returned some continuation returns a solution |
| SolvePowTheory.SolvedExactly | pkg/utils/pow.go:12-62 | Some schedule returns a solution if and only if some number solves the puzzle |
| SolvePowTheory.CancelledSearchStops | pkg/utils/pow.go:19-41 | Once the context is cancelled the n workers together compute at most n more hashes, under every continuation |
| SolvePowTheory.CancelledReturns | pkg/utils/pow.go:52-60 | Whenever it has not returned, a cancelled search can return the context error |
| SolvePowTheory.CancelledSearchCanWindUp | pkg/utils/pow.go:19-62 | ... or wind up: all workers end, the channel is closed, and what is read is the solution that was in it or the no-solution error |
| SolvePowTheory.AnomaliesNeedCancellation | pkg/utils/pow.go:45-62 | Without cancellation only a solution is returned, except that a single worker may yield the empty result |
| SolvePowTheory.OneWorkerCanReturnEmpty | pkg/utils/pow.go:45-58 | If any number solves the puzzle, some schedule of a single worker does so |
| SolvePowTheory.EmptyLosesSolution | pkg/utils/pow.go:45-58 | Whenever it happens, a solution is left unread in the result channel |
| SolvePowTheory.EmptyResultExactly | pkg/utils/pow.go:12-62 | An uncancelled search can return the empty string without an error if and only if it has one worker and some number solves the puzzle |
| ChallengeStore.EvictionIsTransparent | pkg/pow/service.go:67-115 | With fresh nonces, at every time but an expiry instant VerifySolution agrees with the record of all challenges ever issued |
| ChallengeStore.AcceptsByRecordExactly | pkg/pow/service.go:90-115 | What acceptance by the record of issued challenges means, as a bound on the hash of prefix and solution |
| ChallengeStore.AcceptanceLastsUntilExpiry | pkg/pow/service.go:67-115 | A solution once accepted is accepted at every time before expiry and never after it |
| ChallengeStore.StoredExactly | pkg/pow/service.go:74-84 | A challenge is stored if and only if it was created and no later creation or eviction names its nonce, whether or not nonces repeat |
| ChallengeStore.LostToTwin | pkg/pow/service.go:74-84 | A challenge missing before its expiry time has a twin: another issued challenge of the same nonce |
| ChallengeStore.RepeatedNonceEvictsEarly | pkg/pow/service.go:77-84 | With a repeated nonce the timer of any older challenge evicts any newer one that outlives it |
| ChallengeStore.Service.CreateChallenge | pkg/pow/service.go:48-87 | Refuses difficulty 0, otherwise stores and returns a challenge that expires ttl later |
| ChallengeStore.Service.VerifySolution | pkg/pow/service.go:90-115 | True if and only if the nonce is stored, the prefixes are equal, the challenge has not expired, its difficulty d is at most 64 and the hash of prefix and solution is below 2^(256-4d); the challenge argument is ignored; agrees with the record of issued challenges |
| AcceptLoopTheory.ConnectionsStayBelowMax | pkg/server/server.go:150-179 | At every atomic step 0 <= running handlers <= currentConns <= MaxConnections |
| AcceptLoopTheory.CounterAndGroup | pkg/server/server.go:159-165 | currentConns is the WaitGroup count plus the handlers between Done and Add(-1), less one between the acceptor's two Adds |
| AcceptLoopTheory.WaitMeansFinished | pkg/server/server.go:221-253 | When the WaitGroup reaches zero every admitted handler has finished handleConnection |
| AcceptLoopTheory.SlotsAreOpenPlusLeaked | pkg/server/server.go:132-179 | While the limiter has dropped nothing, an IP's count is its open connections plus the slots never given back |
| AcceptLoopTheory.RefusedExactly | pkg/server/server.go:132-139 | ... so an IP is turned away exactly when those together reach maxPerIP |
| AcceptLoopTheory.LostSlotsRefuse | pkg/server/server.go:132-179 | Whatever the settings of both limiters, some schedule turns away an IP whose connections are all closed, although no count was forgotten: its burst is handled, and then maxPerIP connections are dropped without giving their slots back |
| AcceptLoopTheory.RefusedLeavesNoTrace | pkg/server/server.go:112-130 | A connection that the protection layer refuses changes nothing in the server |
| PerIPTheory.ChargedAreLive | pkg/server/server.go:132-179 | Under every interleaving the open and lost connections of an IP are those the limiter admitted less those it saw released, even after it forgot counts |
| PerIPTheory.OpenConnectionsBound | pkg/server/server.go:132-179 | ... so at time T at most maxPerIP * (1 + T / (ttl + 1)) of them are open or lost |
| PerIPTheory.HandlersAreRateLimited | pkg/server/server.go:141-179 | By time T the server has started at most burst * (1 + T / period) handlers for an IP |
| ConversationTheory.AdjustmentFollowsLoad | pkg/server/server.go:265-275 | Two more above 80 percent load, one more above 50 percent, monotone in the load |
| ConversationTheory.DifficultyStaysInRange | pkg/server/server.go:190-203 | With 1 <= InitialDifficulty <= 253 every difficulty read is untruncated and within two of the initial one, and a challenge can always be created |
| ConversationTheory.ChallengesDemandWhatWasSet | pkg/server/server.go:190-287 | Whatever runs in between, a handler that starts after an adjustment creates, stores and records a challenge of exactly the initial difficulty plus 2, 1 or 0, by the number of connections the adjuster counted |
| ConversationTheory.StoreFollowsService | pkg/server/server.go:196-218 | Under every interleaving the challenges stored and issued in the server are those of a legal run of the proof-of-work service |
| ConversationTheory.EveryQuoteIsPaidFor | pkg/server/server.go:184-219 | Under every interleaving a quote follows a solution that names an issued, unexpired challenge by nonce and prefix, whichever connection created it, and whose hash with the prefix is below 2^(256-4d) for its difficulty d |
| ConversationTheory.NoPaidSolutionIsTurnedAway | pkg/server/server.go:209-216 | Conversely, with fresh nonces, an INVALID_SOLUTION reply means that for every challenge issued by then nonce or prefix differed, it had expired, an expiry instant aside, or the hash was not below the bound |
| ConversationTheory.SolutionsAreJudged | pkg/server/server.go:184-219 | Both replies do happen: whenever connections are let in and the initial difficulty is not 0, some schedule brings a client that sends any solution, any time after its challenge, to the quote if it is in time and its hash is below the bound, and to INVALID_SOLUTION if not |
| ConversationTheory.SolutionsGetTheirReply | pkg/server/server.go:209-218 | Under every interleaving and whatever the others do between verification and reply, a solution earns the quote if and only if some issued challenge has its nonce and prefix, has not expired and is met by the hash; otherwise the reply is INVALID_SOLUTION |
| ConversationTheory.ChallengesSentWereIssued | pkg/server/server.go:196-207 | Every challenge sent, under every interleaving, is one that was issued |
| ConversationTheory.ConversationsFollowTheProtocol | pkg/server/server.go:196-218 | Every connection is sent a challenge then a quote or an error, an error alone, or a part of that |
| ConversationTheory.AnsweredIsNoFailure | pkg/server/server.go:171-178 | A connection is registered as a failure if and only if its handler has returned and its client was sent neither a quote nor an error reply |
| ConversationTheory.FailedCallIsFinal | pkg/server/server.go:171-219 | When setting the deadline, a send or a read fails, then under every continuation the connection is registered as a failure and sent nothing more |
| DifficultyTruncation.NeverRefusedExactly | pkg/server/server.go:190-203 | No schedule leads to INTERNAL_ERROR if and only if the settings let no connection in, or InitialDifficulty is not 0, not 254, and not 255 unless fewer than three connections are allowed |
| FrameTheory.HeaderLayout | pkg/protocol/message.go:28-38 | Version, type, flags and payload length sit at bytes 0, 1, 2-3 and 4-7, most significant byte first, the payload behind them |
| FrameTheory.ReadsBackOne | pkg/protocol/message.go:19-70 | Reading a stream that begins with a marshalled message returns it and leaves the rest |
| FrameTheory.ReadsBackAll | pkg/server/messages.go:13-37 | The concatenation of any list of messages is read back in order, the bytes behind untouched |
| FrameTheory.UniquelyDecodable | pkg/protocol/message.go:19-41 | No two different lists of messages share an encoding |
| FrameTheory.AcceptedBytesAreCanonical | pkg/protocol/message.go:44-70 | Whatever a reader accepts is exactly the encoding of what it returns |
| FrameTheory.UnmarshalAgreesWithReader | pkg/protocol/message.go:44-70 | Unmarshal and the stream reader give the same errors and messages; an incomplete payload is dropped by one and an error for the other |
| FrameTheory.HeaderIsJudgedExactly | pkg/protocol/message.go:44-70 | A buffer is rejected as too short below 8 bytes, for its version when byte 0 is not 1, for its size when the announced length exceeds 65528, in that order, and is otherwise accepted with the fields of its header |
| FrameTheory.StreamIsJudgedExactly | pkg/server/messages.go:13-37 | The reader gives the same errors, and a short read exactly when header or payload is incomplete |
| FramingCode.Marshal | pkg/protocol/message.go:19-41 | Fills a fresh buffer with the encoding; fails exactly on a wrong version or an oversized payload |
| FramingCode.Unmarshal | pkg/protocol/message.go:44-70 | Decodes a buffer as the format says, with its errors |
| FramingCode.ServerReadMessage | pkg/server/messages.go:13-37 | Reads exactly one frame from the stream; its second size check never fires |
| FramingCode.ClientReadMessage | pkg/client/messages.go:11-33 | The same contract as the server's reader |
| FramingCode.SendMessage | pkg/client/messages.go:36-47 | Writes the encoding or nothing |
| SessionModel.Decimal | pkg/utils/pow.go:29 | A candidate solution is the decimal numeral of its number: digits only, no leading zero, of that value |
| SessionTheory.DecimalIsInjective | pkg/utils/pow.go:29 | Different numbers are tried as different strings |
| SessionTheory.DecimalIsUnique | pkg/utils/pow.go:29 | Every decimal numeral is the candidate of the number it stands for |
| SessionTheory.ClientOnlySendsSolutions | pkg/client/client.go:57-116 | For any server bytes and any schedule, an emitted solution message is non-empty, answers the received challenge, and the hash of its prefix and solution is below 2^(256-4d) for the challenge's difficulty d |
| SessionTheory.NothingElseIsSent | pkg/client/client.go:57-116 | If the search ends without a solution nothing is sent: an error of the search ends GetQuote, the empty string fails validation |
| SessionTheory.ChallengeIsSendableExactly | pkg/protocol/payloads.go:9-26 | A challenge is sent, as a frame of type 1, if and only if no field is empty or zero, it has not expired and its text fits; otherwise which of the two errors is returned |
| SessionTheory.OthersAreSendableExactly | pkg/protocol/payloads.go:29-59 | Likewise for solutions, quotes and errors, as frames of types 2, 3 and 4 |
| SessionTheory.FreshChallengeIsSent | pkg/pow/service.go:48-87 | A freshly created challenge is sent if and only if no more than its lifetime has passed since and its text fits |
| SessionTheory.OnlyChallengesAreAnswered | pkg/client/client.go:79-95 | The client takes exactly the frames of type 1 with a decodable payload for challenges, and tells the other cases apart |
| SessionTheory.OnlySolutionsAreJudged | pkg/server/messages.go:79-101 | The server takes exactly the frames of type 2 with a decodable payload for solutions |
| SessionTheory.OnlyQuotesAreReturned | pkg/client/client.go:119-143 | GetQuote returns a quote exactly for a frame of type 3 with a decodable payload, and for one of type 4 the server error in it |
| SessionTheory.ReadsOwnFailure | pkg/client/client.go:133-138 | Every error message the server can send is read back as exactly that server error |
| SessionTheory.HonestExchangeEndsWithQuote | pkg/client/client.go:57-143 | On any legal run of the service with fresh nonces, an honest pair that delivers an issued challenge's solution before it expires ends with the client holding the quote, the server having sent that challenge and then the quote |
| SessionTheory.HonestyIsPossible | pkg/client/client.go:57-116 | Honest exchanges exist for every sendable challenge that some number solves and every number of workers |
| SessionTheory.LateExchangeEndsWithError | pkg/pow/service.go:106-111 | The same pair after the expiry: the server answers, and GetQuote returns, the INVALID_SOLUTION error |
| SessionTheory.WrongSolutionIsReported | pkg/server/server.go:214-216 | Any client whose solution fulfils no challenge ever issued is answered with, and GetQuote returns, the INVALID_SOLUTION error |
| SessionTheory.QuoteOnlyForAccepted | pkg/server/server.go:209-218 | Judged by the record of all issued challenges, a readable solution is answered with the quote exactly when it fulfils one of them, and otherwise with INVALID_SOLUTION and its text |
| SessionCode.HandleConnection | pkg/server/server.go:184-219 | The bytes written and the result, in every branch, with the error codes and texts; the second message is the quote exactly when the history of the service has a challenge that the solution fulfils |
| SessionCode.Client.GetQuote | pkg/client/client.go:57-76 | The result and the one message written, as a function of the incoming stream of which SessionTheory.OnlyQuotesAreReturned, SessionTheory.ClientOnlySendsSolutions and SessionTheory.NothingElseIsSent say what it may be |
| SessionCode.Client.ReceiveQuote | pkg/client/client.go:119-143 | The quote, the server's error, or a protocol error, as SessionTheory.OnlyQuotesAreReturned tells them apart |
| SessionCode.HonestConversation | pkg/client/client.go:57-143 | Handler and GetQuote run against each other: up to the expiry exactly a challenge and a quote are written and GetQuote returns the quote; after it a challenge and the INVALID_SOLUTION error, which GetQuote returns; exactly the solution is sent |

## Left out

- Floating-point rounding of the fill rate and integer overflow of counters: rates are exact reals, counters unbounded integers.
- Two clock readings inside one locked section (Take, RegisterFailure, IsBlocked, AllowConnection) are one reading; each locked method is one atomic step, also where the source changes state under a read lock (GetTokens, IsBlocked).
- The tickers' periods: sweeps and refills may come at any time, and what is proved of every run holds for every such timing. Where a failing run is exhibited for the token bucket, refillAll ticks at intervals of any given length throughout it; the other failing runs only choose when the sweeps come.
- Sockets, deadlines and accept errors: a connection is the sequence of bytes to be read and the bytes written; in the server's transition system a failed send or read is a possible outcome of the step.
- The JSON text (a decoder that undoes an encoder), SHA-256 (an uninterpreted function to 32 bytes), random prefixes and nonces (parameters; freshness is a hypothesis where it is needed; a failing generator is not modelled).
- The memory monitor is a boolean oracle; the slow-request wrapper never sees the handler's reads, because the handler uses the unwrapped connection.
- extractIP and address parsing: keys are given; protection.Protection.RegisterFailure and Start/Stop only delegate.
- SolvePowTheory.SolutionIsNotMissed: counts hashes rather than time; whether a worker is ever scheduled is up to the Go runtime. The worker loop itself has no end and is given as steps, not as a Dafny loop.
- SessionCode.HonestConversation: runs the handler before the client, on the bytes that the client is then proved to write; how a network interleaves the two is not modelled.
- SetPayload is part of SessionModel.NewMessage, on values: assignment to an existing message is not modelled.
- In the server's transition system the protection layer's decision is an oracle; the theorems hold for all of its answers.
- AcceptLoopTheory.SlotsAreOpenPlusLeaked: says nothing once the TTL made the limiter forget a count; PerIPTheory.ChargedAreLive and PerIPTheory.OpenConnectionsBound cover those runs.
- Shutdown's timeout, logging, configuration, the IP filter beyond its use in the admission chain, the quotes service, command-line tools.
