# Verified model of the Aquatiq gateway's state machines

The Aquatiq gateway is a Go service in front of Docker, databases and integrations. Six of its files hold state
that several requests share: the distributed and per-address rate limiters, the IP whitelist manager, the Redis
query and token caches, the circuit-breaker call and the retrying HTTP client. This project models that state in
Dafny and proves what the gateway relies on it for.

`dafny verify dfyconfig.toml` checks everything.

## How it is built

Each component appears in up to three layers.

* A **specification**: functions on values (a store, a list, a bucket, a clock reading).
* A **class** with the fields the Go object updates in place. Its methods change those fields, and their
  postconditions tie the new state to the specification functions.
* A **protocol** where requests, goroutines or gateways overlap: a `State`, the `Action`s that are indivisible in
  the running system, `Step`, and `Valid`/`Final` over runs (action sequences) of any length. The main theorems
  quantify over every valid run. The protocols use the same specification functions as the classes, or are tied to
  the classes by lemmas (`Limiter.ServeIsARun`, `PerIp.ServeActsOnView`).

| file | content |
|---|---|
| `Arithmetic.dfy`, `Common.dfy` | products, floors, powers of two; counting a set through an injective rank or through labels |
| `Keys.dfy`, `Redis.dfy`, `KeyFamilies.dfy` | key formats, the store and its atomic commands, separation of the three key families |
| `TokenBucket.dfy` | the local token bucket and its potential |
| `RateLimit.dfy`, `RateLimitTotals.dfy`, `Limiter.dfy`, `RateLimitPlain.dfy` | the distributed limiter: protocol, totals of a run, the object, its laws in nanoseconds and requests |
| `PerIp.dfy`, `PerIpStrays.dfy` | the per-address limiter: protocol and object; when its plain bound fails |
| `IpRange.dfy`, `Whitelist.dfy`, `WhitelistLaws.dfy`, `Manager.dfy` | address patterns, the two lists as values, what is in force after which operations, the manager object |
| `WhitelistLock.dfy`, `WhitelistCalls.dfy` | the manager under its lock, step by step; each of its calls as a run |
| `QueryCache.dfy`, `TokenCache.dfy` | the two caches: protocol and object |
| `CircuitBreaker.dfy`, `HttpClient.dfy` | calls that may be abandoned; retries and waits |

## What the environment is assumed to do

* Redis runs each command atomically on a map from key to a value with an optional deadline. A key disappears only
  by DEL or by its deadline; eviction and a restart without persistence are outside the model. Lifetimes given to
  SET are cut to whole units of a parameter `grain`, at least one unit, as the client library sends whole
  milliseconds or seconds; a duration that is zero or negative sets no deadline, except the library's special value
  of -1 ns, which keeps the deadline the key has.
* In the rate-limit protocol a gateway's clock is within `skew` of the server's clock, and every execution of an
  INCR, resent ones included, is within `lag` of that request's clock reading. Both are parameters; the theorems say
  for which values the budget holds. EXPIRE may be executed at any time, any number of times, or never, until its
  request has given up on it.
* The Redis client may resend a command, so a command can execute more than once and later than its caller expects. A
  query's Set stays pending until none of its SETs can execute any more; a token's SET can execute again at any time.
* The token bucket of `golang.org/x/time/rate` starts full, refills at a constant rate up to its burst, and takes one
  token for each admitted request. Tokens are exact (billionths), not floating point.
* The hexadecimal form of SHA-256 is 64 hexadecimal digits, and no two of the queries in use have the same hash; there
  are functions that meet this for every set of up to 10^64 queries (`Keys.CollisionFreeExists`).
* JSON is a partial encoder and decoder for query results (nothing else is assumed of it) and is faithful for tokens,
  which some encoding is (`TokenCache.SoundExists`). YAML is faithful for the list of ranges.
* In the token protocol the clock of a gateway that sets a token and the clock of one that reports on it are each within
  `skew` of the server's clock, a parameter; a reporter reads its clock after its GET.
* A reply's body is read once. Reading an empty body gives no bytes and reports its end; a Read that gives bytes may also
  report the end of the body, or an error.
* The clock the whitelist manager reads does not run backwards; only this manager writes its file; a failed write
  leaves the file as it was.
* The text parsers of Go's `net` package are a parameter. A range's prefix length is assumed not to exceed its
  address's length where a lemma says `ParsesSoundly`.
* The breaker behind `ExecuteContext` accepts or rejects as it likes and records one outcome for each function it ran.
  It may begin a new generation, with cleared counts, at any time; an outcome of an older generation does not count.

## What came out

* **The two-minute expiry.** The budget of a minute key holds on all runs if and only if the tier's rate is not
  positive or the expiry outlasts the key's window plus `lag` plus twice `skew`. For every key but one this is
  `lag + 2 * skew <= 60 s`. When it fails there is a run, for every positive rate, that admits one request too many.
* **Key 0.** Go's integer division truncates toward zero, so the key of the minute around the Unix epoch collects 119
  seconds of readings.
* **A counter that never expires.** At every moment of every run, a counter stays in Redis for good if and only if it
  has no deadline and no EXPIRE for it can still execute. A call that starts a minute's counter causes this if and only
  if its INCR took effect but the answer was lost, or the EXPIRE, whose error the code discards, was refused. One such
  call on an empty store is enough. The budget is not affected.
* **Invalidate.** It is effective if and only if, when it reached Redis, no function run or SET for that query could
  still put a readable value into the store; a SET that has executed but may be resent counts as one that still can.
* **Expired tokens.** A SetToken leaves its token in Redis for good (until the next SET or DEL for the service) if and
  only if the token had expired when its lifetime was computed, except that a lifetime of exactly -1 ns, landing on a
  key that has a deadline, keeps that deadline. The second expiry check still reports such a token as invalid, by the
  reporter's own clock.
* **Token reports.** They agree with the token's expiry by the reporter's clock on all runs if and only if lifetimes are
  kept to the nanosecond and no clock deviates. Otherwise they are early, by less than one unit plus twice the skew.
* **Successful replies recorded as failures.** A 2xx reply judged before its context is done is recorded as a success if
  and only if its body is not empty and the one Read of it reports neither an error nor the end of the body. So a reply
  without a body, such as 204, always counts as a failure for the breaker and the caller.
* **Draws overtaken by a cleanup.** A request that holds a bucket which a cleanup has dropped from the per-address table
  still draws on it, once. The per-address bound for every interleaving is (k + 1) * burst + rate * elapsed plus these
  draws, and they number at most the requests that were between lookup and draw when a cleanup fired. Without them the
  bound holds for all interleavings if and only if the rate or the burst is not positive.
* **Backoff.** Without overflow the wait is capped doubling. From shift 63 on it is zero, or the most negative duration
  for an odd minimum at shift 63. The bounds on the total wait survive overflow.

Where the code and its own comments or documents differ, the model follows the code:

* `aquatiq-gateway/api/proto/whitelist/v1/whitelist.proto:32` says that CleanupExpired also removes blacklist entries;
  `aquatiq-gateway/internal/whitelist/manager.go:385-416` looks only at the whitelist.
* `aquatiq-gateway/pkg/httpclient/httpclient.go:84` announces jitter; there is none.
* `CHANGELOG.md:109` gives the limits per minute; `aquatiq-gateway/internal/ratelimit/ratelimit.go:82` multiplies the
  configured value by 60, so it is a rate per second.

## Model

| member | source | states |
|---|---|---|
| RateLimit.BudgetHoldsIff | aquatiq-gateway/internal/ratelimit/ratelimit.go:63-83 | for any number of gateways and every interleaving, the counter of one minute admits at most 60 * rate, exactly when the rate is not positive or the two-minute expiry outlasts window + lag + 2 * skew (lag + 2 * skew <= 60 s for every key but key 0) |
| RateLimit.BudgetHoldsWhenOutlived | aquatiq-gateway/internal/ratelimit/ratelimit.go:76-82 | the positive half: with the premise, no run of any length exceeds the budget of the key |
| RateLimit.StragglerAdmitted | aquatiq-gateway/internal/ratelimit/ratelimit.go:76-79 | the negative half: after a full budget, one late INCR from a gateway whose clock is behind finds the counter expired and is admitted |
| RateLimit.IncrFindsKeyLive | aquatiq-gateway/internal/ratelimit/ratelimit.go:64-79 | under the premise no INCR that can still happen finds its key past its deadline |
| RateLimit.StepKeepsKeyInv | aquatiq-gateway/internal/ratelimit/ratelimit.go:63-83 | every step (clock reading, INCR, lost or resent INCR, error, EXPIRE, giving up on EXPIRE, comparison, fallback) keeps the counts handed out distinct and at most the counter |
| RateLimit.BudgetOfKey | aquatiq-gateway/internal/ratelimit/ratelimit.go:82 | distinct positive counts compared with the budget let through at most the budget |
| RateLimit.WindowOfKey | aquatiq-gateway/internal/ratelimit/ratelimit.go:64 | which clock readings share a key: 60 seconds each, 119 for key 0 |
| RateLimitTotals.RunBudget | aquatiq-gateway/internal/ratelimit/ratelimit.go:36-83 | whatever INCRs fail, are lost or are resent, a run admits at most one budget for each minute key it touches plus burst + rate * elapsed for each gateway |
| RateLimitTotals.GatewaySupply | aquatiq-gateway/internal/ratelimit/ratelimit.go:68-74 | the fallbacks of one gateway and tier over a run stay within its own burst + rate * elapsed |
| RateLimitTotals.SlidingWindow | aquatiq-gateway/internal/ratelimit/ratelimit.go:64-82 | in any L consecutive seconds of clock readings the shared counters admit at most (ceil((L-1)/60) + 1) * 60 * rate |
| RateLimitTotals.SlidingMinute | aquatiq-gateway/internal/ratelimit/ratelimit.go:64-82 | so at most 120 * rate in any 60 seconds |
| RateLimitPlain.MinuteInPlainTerms | aquatiq-gateway/internal/ratelimit/ratelimit.go:63-83 | with exact clocks, a run of at most 60_000_000_000 ns admits at most 120 * rps requests of a tier by the counters and burst + 60 * rps by each gateway's own bucket |
| RateLimitPlain.CountersInPlainTerms | aquatiq-gateway/internal/ratelimit/ratelimit.go:63-83 | for any length of the run and any lag and skew the expiry outlasts: (ceil(seconds / 60) + 1) * 60 * rps |
| RateLimitPlain.FallbackInPlainTerms | aquatiq-gateway/internal/ratelimit/ratelimit.go:68-74 | a gateway's bucket gives at most burst + rps * seconds; the admin tier has its own rate and half the burst, truncated |
| RateLimitPlain.KeyInPlainTerms | aquatiq-gateway/internal/ratelimit/ratelimit.go:64 | a clock reading in second u of the epoch forms the text "ratelimit:", tier, ":", and u / 60 truncated, in decimal |
| RateLimitPlain.ExpireInPlainTerms | aquatiq-gateway/internal/ratelimit/ratelimit.go:77-79 | EXPIRE gives the counter 120_000_000_000 ns |
| RateLimitPlain.CallInPlainTerms | aquatiq-gateway/internal/ratelimit/ratelimit.go:63-83 | one call: a missing counter starts at 1 with two minutes unless EXPIRE is refused, a live one goes up by 1 and keeps its deadline, the verdict is the count against 60 * rps; without an answer the local bucket decides |
| RateLimitTotals.NeverExpiresIff | aquatiq-gateway/internal/ratelimit/ratelimit.go:66-79 | at every moment of every run, a counter is without a deadline in all continuations exactly when it has none and no EXPIRE for it can still execute |
| RateLimitTotals.OrphanedForever | aquatiq-gateway/internal/ratelimit/ratelimit.go:76-79 | such a counter stays so on every run and never forgets a count |
| Limiter.FirstCallNeverExpiresIff | aquatiq-gateway/internal/ratelimit/ratelimit.go:63-83 | at every moment of every run, a call that starts a minute's counter leaves it without an expiry for good exactly when its INCR took effect but the answer was lost, or the EXPIRE was refused |
| Limiter.OneCallOrphans | aquatiq-gateway/internal/ratelimit/ratelimit.go:66-79 | both causes arise from an empty store in one call |
| Limiter.ServeIsARun | aquatiq-gateway/internal/ratelimit/ratelimit.go:63-83 | a call without interruption is one of the protocol's interleavings: from every state its steps are a valid run to its store, its bucket and its verdict |
| Limiter.ObjectCallIsARun | aquatiq-gateway/internal/ratelimit/ratelimit.go:36-83 | the same for an object built from the protocol's settings, with its own tier limiters |
| Limiter.Limiter.constructor | aquatiq-gateway/internal/ratelimit/ratelimit.go:36-44 | two separate full buckets; the admin burst is half the configured one, truncated |
| Limiter.Limiter.AllowDistributed | aquatiq-gateway/internal/ratelimit/ratelimit.go:63-83 | store, own bucket and verdict after a call are those of the specification, for each way its two round trips can end |
| Limiter.Limiter.Allow | aquatiq-gateway/internal/ratelimit/ratelimit.go:46-60 | both tiers: the shared counter when there is one, otherwise the tier's own bucket and an untouched store |
| TokenBucket.TakeKeepsWithinSupply | aquatiq-gateway/internal/ratelimit/ratelimit.go:38-39 | drawing on a bucket keeps requests given + tokens left within bursts * burst + rate * elapsed |
| TokenBucket.BucketInPlainTerms | aquatiq-gateway/internal/ratelimit/ratelimit.go:38-39 | a new bucket gives exactly `burst` at once, and once empty its next token is due exactly when `rate` a second have made one |
| TokenBucket.AnyStretch | aquatiq-gateway/internal/ratelimit/ratelimit.go:38-39 | in any stretch of time, from any state of the bucket, at most burst + rate * length requests are admitted |
| TokenBucket.Limiter.Allow | aquatiq-gateway/internal/ratelimit/ratelimit.go:51 | the local limiter as an object: new state and verdict |
| PerIp.AddressBudget | aquatiq-gateway/internal/ratelimit/ratelimit.go:146-196 | for every interleaving of lookups, draws and cleanups, k cleanups that fire give one address at most (k + 1) * burst + rate * elapsed plus its admitted draws on dropped buckets, and at most (k + 1) * (burst + rate * elapsed); 10001 * k is at most the number of buckets ever made |
| PerIp.AddressBudgetOvertaken | aquatiq-gateway/internal/ratelimit/ratelimit.go:160-179 | those stray draws number at most the requests that held the address's bucket when a cleanup dropped it |
| PerIpStrays.PlainBoundHoldsIff | aquatiq-gateway/internal/ratelimit/ratelimit.go:146-196 | without the stray draws the bound holds for all interleavings exactly when the rate or the burst is not positive; otherwise a run of rounds, each emptying a bucket and having it dropped, exceeds it |
| PerIp.AtomicAddressBudget | aquatiq-gateway/internal/ratelimit/ratelimit.go:146-196 | when lookup and draw are one step the bound is (k + 1) * burst + rate * elapsed |
| PerIp.OthersLeaveBucketAlone | aquatiq-gateway/internal/ratelimit/ratelimit.go:146-169 | a step for another address leaves this address's bucket as it is, unless a cleanup drops the whole table |
| PerIp.ServeActsOnView | aquatiq-gateway/internal/ratelimit/ratelimit.go:177-179 | the protocol's atomic request changes the table exactly as the object's method does |
| PerIp.LookupActsOnView | aquatiq-gateway/internal/ratelimit/ratelimit.go:146-157 | so does its lookup step |
| PerIp.CleanupActsOnView | aquatiq-gateway/internal/ratelimit/ratelimit.go:160-169 | so does its cleanup step |
| PerIp.CleanupInPlainTerms | aquatiq-gateway/internal/ratelimit/ratelimit.go:164-168 | a table of more than 10000 addresses is always emptied, no smaller one ever is |
| PerIp.NewAddressHasItsBurst | aquatiq-gateway/internal/ratelimit/ratelimit.go:150-154 | an address not in the table is admitted exactly `burst` times at once, and no other address notices |
| PerIp.PerIPLimiter.GetLimiter | aquatiq-gateway/internal/ratelimit/ratelimit.go:146-157 | the address's own limiter, made full on first use; every other entry as before |
| PerIp.PerIPLimiter.Handle | aquatiq-gateway/internal/ratelimit/ratelimit.go:174-193 | one request through the middleware: the table afterwards and the verdict |
| PerIp.PerIPLimiter.CleanupStale | aquatiq-gateway/internal/ratelimit/ratelimit.go:160-169 | the table is emptied when it holds more than 10000 entries and untouched otherwise |
| IpRange.MatchesIsInterval | aquatiq-gateway/internal/whitelist/manager.go:293-307 | matching bit by bit under the mask is membership of the interval [First, First + Size) in the pattern's family |
| IpRange.MatchesIsSamePrefix | aquatiq-gateway/internal/whitelist/manager.go:295-298 | and agreement of the leading bits |
| IpRange.IntervalIsAligned | aquatiq-gateway/internal/whitelist/manager.go:295-298 | the interval's length is a power of two and its start a multiple of it (section 3.1 of RFC 4632) |
| IpRange.NestedOrDisjoint | aquatiq-gateway/internal/whitelist/manager.go:293-307 | any two patterns are nested or disjoint, as intervals and as sets of addresses |
| IpRange.CoversIsContainment | aquatiq-gateway/internal/whitelist/manager.go:293-307 | one pattern matches all that another does exactly when its interval contains the other's |
| IpRange.DisjointIsApart | aquatiq-gateway/internal/whitelist/manager.go:293-307 | two patterns match no address in common exactly when their families differ or their intervals share no number |
| IpRange.CoversIff | aquatiq-gateway/internal/whitelist/manager.go:293-307 | one pattern covers another exactly when the families agree, its prefix is no longer, and it matches the other's address |
| IpRange.CoveredByIff | aquatiq-gateway/internal/whitelist/manager.go:293-307 | deciding by halving whether many patterns together cover one is right: exactly when every address it matches is matched by one of them |
| WhitelistLaws.EntryMatchesNames | aquatiq-gateway/internal/whitelist/manager.go:293-307 | an entry whose text parses as a range matches exactly the addresses of its family with the same leading bits; any other exactly the address it parses to |
| WhitelistLaws.AcceptedTexts | aquatiq-gateway/internal/whitelist/manager.go:419-433 | a text is valid exactly when one of the two parsers takes it |
| WhitelistLaws.DecisionIff | aquatiq-gateway/internal/whitelist/manager.go:260-307 | the decision from the parsers' results alone: the text is an address, no blacklisted text names it, some whitelisted text does whose entry has no expiry or one not before t |
| WhitelistLaws.AllowedUntilExpiry | aquatiq-gateway/internal/whitelist/manager.go:278-287 | one entry allows what it names up to and including its expiry, and nothing after it |
| WhitelistLaws.BlacklistIff | aquatiq-gateway/internal/whitelist/manager.go:170-246 | over every sequence of completed operations, a text is blacklisted exactly when it was put there and not taken off since |
| WhitelistLaws.BlacklistedIsDenied | aquatiq-gateway/internal/whitelist/manager.go:170-290 | after a completed AddToBlacklist and until a RemoveFromBlacklist of the same text, no address it names is allowed, at any time, whatever else completes |
| WhitelistLaws.RemovedFromBlacklist | aquatiq-gateway/internal/whitelist/manager.go:213-246 | once taken off and not put back, the text is gone |
| WhitelistLaws.WhitelistIff | aquatiq-gateway/internal/whitelist/manager.go:67-156 | over every sequence of completed operations, an entry is on the whitelist exactly when a successful AddToWhitelist made it, or it was there, and nothing since removed its text or cleaned up after its expiry |
| WhitelistLaws.WhitelistedIsAllowed | aquatiq-gateway/internal/whitelist/manager.go:67-290 | so an added entry allows what it names and nothing blacklists, until its own expiry or its removal |
| WhitelistLaws.RemovedFromWhitelist | aquatiq-gateway/internal/whitelist/manager.go:118-156 | a removed text is gone until it is added again |
| Whitelist.CoveredRangeDenied | aquatiq-gateway/internal/whitelist/manager.go:260-307 | a blacklisted range that covers a whitelisted one leaves none of that range's addresses allowed, at any time |
| Whitelist.NothingLeftIff | aquatiq-gateway/internal/whitelist/manager.go:270-287 | for any two lists, no address is left to allow exactly when the blacklist as a whole covers every live whitelisted range |
| Whitelist.CleanupPreservesAnswers | aquatiq-gateway/internal/whitelist/manager.go:385-416 | cleaning up at `now` changes no answer from `now` on, and a second cleanup at `now` removes nothing |
| Whitelist.UnexpiredKeepsOrder | aquatiq-gateway/internal/whitelist/manager.go:393-408 | the survivors are exactly the unexpired entries, in their order |
| Whitelist.UnexpiredCounts | aquatiq-gateway/internal/whitelist/manager.go:390-415 | removed + kept is the original length |
| Whitelist.WithoutKeepsTheRest | aquatiq-gateway/internal/whitelist/manager.go:122-131 | removing an address keeps exactly the other entries, in their order |
| Whitelist.ListedMembers | aquatiq-gateway/internal/whitelist/manager.go:344-351 | a range is written exactly when some entry for it was unexpired at its own check |
| Whitelist.ListedAtOneInstant | aquatiq-gateway/internal/whitelist/manager.go:344-351 | if all checks read one instant, the file is the unexpired entries' ranges in order |
| Whitelist.FileFollowsOn | aquatiq-gateway/internal/whitelist/manager.go:137-142 | once every unexpired entry is in the file, time passing and entries leaving the list keep it so, without a write |
| Whitelist.WrittenFileFollows | aquatiq-gateway/internal/whitelist/manager.go:342-382 | a write whose checks were read one after the other lists every entry unexpired at its end |
| Whitelist.ReloadedExactly | aquatiq-gateway/internal/whitelist/manager.go:310-382 | writing and reloading gives the written ranges in order, and whitelists exactly what some entry unexpired at its own check did |
| Whitelist.ReloadRoundTrip | aquatiq-gateway/internal/whitelist/manager.go:310-382 | the reloaded whitelist is at every time a superset of the original from the write's end on and a subset of the original at its start; equal to the original at the write instant if the checks took no time |
| Manager.Manager.LoadFromTraefikConfig | aquatiq-gateway/internal/whitelist/manager.go:310-339 | a fresh manager's list is the file's ranges without expiry; a missing file or middleware is an empty list; an unreadable or malformed file is an error |
| Manager.Manager.SourceRange | aquatiq-gateway/internal/whitelist/manager.go:344-351 | the ranges of the entries unexpired at their own clock readings, in order |
| Manager.Manager.UpdateTraefikConfig | aquatiq-gateway/internal/whitelist/manager.go:342-382 | after a successful write the file is exactly those ranges; a failed one leaves it |
| Manager.Manager.AddToWhitelist | aquatiq-gateway/internal/whitelist/manager.go:67-115 | invalid texts, duplicates and failed writes are errors, in that order, and nothing changes then; otherwise the entry with its fields is last, and the file is exact; every unexpired entry is in the file afterwards |
| Manager.Manager.RemoveFromWhitelist | aquatiq-gateway/internal/whitelist/manager.go:118-156 | the entry is gone even if the file could not be rewritten, and every unexpired entry is still in the file |
| Manager.Manager.AddToBlacklist | aquatiq-gateway/internal/whitelist/manager.go:170-210 | invalid texts and duplicates are errors; otherwise the blacklist is the old one followed by the entry with its fields, without an expiry |
| Manager.Manager.RemoveFromBlacklist | aquatiq-gateway/internal/whitelist/manager.go:213-246 | exactly the entries for that address leave; an unknown one is an error |
| Manager.Manager.IsAllowed | aquatiq-gateway/internal/whitelist/manager.go:260-290 | allowed at the end of the call implies the answer true, and true implies allowed at its start, though the clock is read at every entry |
| Manager.Manager.CleanupExpired | aquatiq-gateway/internal/whitelist/manager.go:385-416 | the list is its unexpired part at one reading, the count is right, and the file is rewritten exactly or left, with every unexpired entry in it |
| WhitelistLock.ReadersSeeOnlyCompleted | aquatiq-gateway/internal/whitelist/manager.go:67-98 | on every run, while a reader is inside the lists are those left by completed operations; whenever no writer is inside, every unexpired entry is in the file |
| WhitelistLock.AnswersAreOnCompletedLists | aquatiq-gateway/internal/whitelist/manager.go:158-290 | every answer of GetWhitelist and IsAllowed is taken on the lists that a prefix of the completed operations leaves, the second one between its decisions at the call's end and start |
| WhitelistLock.AnswersAreFresh | aquatiq-gateway/internal/whitelist/manager.go:158-290 | and that prefix contains every operation that completed before the caller took the read lock, so no completed removal is missed |
| WhitelistLock.VersionIsReplay | aquatiq-gateway/internal/whitelist/manager.go:67-156 | the lists after the k-th completed operation are the replay of the first k operations |
| WhitelistLock.WrittenFileIsExact | aquatiq-gateway/internal/whitelist/manager.go:342-382 | on every run a successful write leaves exactly the entries unexpired at their own check, in order |
| WhitelistLock.StepKeeps | aquatiq-gateway/internal/whitelist/manager.go:67-156 | every step under the lock, the failed write and the rollback included, keeps the lists, the file and the readers' knowledge consistent |
| WhitelistCalls.OperationIsARun | aquatiq-gateway/internal/whitelist/manager.go:67-246 | whenever the lock is free, every operation, with its file write succeeding or failing, is a run to its effect on lists, file and log |
| WhitelistCalls.QuestionIsARun | aquatiq-gateway/internal/whitelist/manager.go:158-290 | whenever no writer is inside, IsAllowed and GetWhitelist are runs to the decision now and to a copy of the list, and change nothing |
| QueryCache.InvalidateIsEffectiveIff | aquatiq-gateway/internal/cache/query_cache.go:74-81 | after an Invalidate every later hit is of a value computed after it, for all interleavings and resent SETs, exactly when no function run or SET for that query could still put a readable value into the store |
| QueryCache.EveryValueWasProduced | aquatiq-gateway/internal/cache/query_cache.go:125-152 | every value a caller gets for a query was returned by a function run, or passed to Set, under that query, up to JSON form |
| QueryCache.EveryStoredValueWasProduced | aquatiq-gateway/internal/cache/query_cache.go:138-149 | so was everything stored under the query's key: a failed function run stores nothing |
| QueryCache.ProducedIsHistory | aquatiq-gateway/internal/cache/query_cache.go:139-149 | the recorded history is exactly the function results and Sets that occur in the run |
| QueryCache.CachedAgreesWithUncached | aquatiq-gateway/internal/cache/query_cache.go:125-152 | if a query's result never changes and survives JSON, the cached program returns what the uncached one does |
| QueryCache.FreshWhenNothingPending | aquatiq-gateway/internal/cache/query_cache.go:74-81 | the positive half of the Invalidate theorem |
| QueryCache.StaleWhenPending | aquatiq-gateway/internal/cache/query_cache.go:144-149 | the negative half: a pending run or Set yields a continuation that hits an older value |
| QueryCache.QueryCache.constructor | aquatiq-gateway/internal/cache/query_cache.go:26-39 | the default lifetime and prefix |
| QueryCache.StoredUntil | aquatiq-gateway/internal/cache/query_cache.go:26-71 | until when a Set is hit: the given positive duration, or else the configured one, or else 300_000_000_000 ns, under the prefix given or "query" |
| QueryCache.MissAfterwards | aquatiq-gateway/internal/cache/query_cache.go:58-71 | once that time has passed the query misses |
| QueryCache.WrapperIsARun | aquatiq-gateway/internal/cache/query_cache.go:125-152 | from every state, an uninterrupted wrapper call is a run that ends as the method says, with the Set pending exactly after a success |
| QueryCache.OtherCallsAreRuns | aquatiq-gateway/internal/cache/query_cache.go:42-81 | so are a caller's own Set, Get and Invalidate |
| QueryCache.QueryCache.Get | aquatiq-gateway/internal/cache/query_cache.go:42-55 | a hit is the decoded text under the query's key; errors and undecodable texts are misses |
| QueryCache.QueryCache.Set | aquatiq-gateway/internal/cache/query_cache.go:58-71 | the store afterwards, with the lifetime given or the default, and whether the caller sees success |
| QueryCache.QueryCache.Invalidate | aquatiq-gateway/internal/cache/query_cache.go:74-81 | the query's key is gone unless the server refused, and no other key changes |
| QueryCache.QueryCache.CacheWrapper | aquatiq-gateway/internal/cache/query_cache.go:125-152 | a usable hit answers without running the function; a nil hit, a miss or an error runs it, and only a success leaves a Set behind |
| Redis.OtherKeysUntouched | aquatiq-gateway/internal/cache/redis.go:54-100 | no sequence of commands on other keys changes what a reader finds under a key, at any later time |
| Redis.ReadBack | aquatiq-gateway/internal/cache/redis.go:55-84 | what was set is read back until its deadline and then nothing is, and after a DEL nothing is, whatever happens to other keys in between |
| Redis.CountingUp | aquatiq-gateway/internal/cache/redis.go:98-100 | n INCRs of a missing key read n in decimal, without a deadline, up to the largest int64 |
| Redis.ExpireReadBack | aquatiq-gateway/internal/cache/redis.go:93-95 | after EXPIRE the value is readable for the given time and no longer |
| Redis.LifetimeIsWhole | aquatiq-gateway/internal/cache/redis.go:61 | a lifetime is a whole number of the server's units |
| Redis.RedisCache.Increment | aquatiq-gateway/internal/cache/redis.go:98-100 | the store and the answer for an INCR that arrives, is refused, or loses its reply |
| Redis.RedisCache.ExpireKey | aquatiq-gateway/internal/cache/redis.go:93-95 | the same for EXPIRE |
| Redis.RedisCache.SetText | aquatiq-gateway/internal/cache/redis.go:55-62 | the same for SET |
| Redis.RedisCache.DeleteKey | aquatiq-gateway/internal/cache/redis.go:82-84 | the same for DEL |
| TokenCache.ReportedIff | aquatiq-gateway/internal/cache/redis.go:176-205 | on every run, with deviating clocks, a token is reported valid exactly when the reporter's clock is before the expiry of the latest SetToken not followed by a DeleteToken and the server still has it; never late by that clock, late by less than the skew by the server's, and early by less than one unit plus twice the skew |
| TokenCache.ReportsExactlyIff | aquatiq-gateway/internal/cache/redis.go:176-205 | the server never drops a current token, on all runs, exactly when lifetimes are kept to the nanosecond and no clock deviates |
| TokenCache.EarlyByLessThanAUnit | aquatiq-gateway/internal/cache/redis.go:176-180 | with coarser lifetimes the report can really be early: a concrete run |
| TokenCache.EarlyByTwiceTheSkew | aquatiq-gateway/internal/cache/redis.go:176-180 | with deviating clocks the report can be early by twice the skew: a concrete run |
| TokenCache.SoundExists | aquatiq-gateway/internal/cache/redis.go:167-173 | there are encodings that keep every token as it is, for every unit and skew |
| TokenCache.StoredForGoodIff | aquatiq-gateway/internal/cache/redis.go:176-180 | a SetToken leaves its token in Redis until the next SET or DEL for the service, however long that takes, exactly when its lifetime was not positive and did not keep the deadline of a live key |
| TokenCache.TokenCache.SetToken | aquatiq-gateway/internal/cache/redis.go:176-180 | the store afterwards, with the lifetime computed at the caller's own clock reading |
| TokenCache.TokenCache.GetToken | aquatiq-gateway/internal/cache/redis.go:183-190 | the decoded token under the service's key, or an error |
| TokenCache.TokenCache.DeleteToken | aquatiq-gateway/internal/cache/redis.go:193-196 | the service's key is gone unless the server refused |
| TokenCache.TokenCache.IsTokenValid | aquatiq-gateway/internal/cache/redis.go:199-205 | true exactly when the server has the token and a later clock reading is before its expiry |
| KeyFamilies.FamiliesDoNotInterfere | aquatiq-gateway/internal/cache/query_cache.go:95-100 | no sequence of commands of one key family changes what a reader of another family finds |
| KeyFamilies.DefaultPrefixIsolates | aquatiq-gateway/internal/cache/query_cache.go:30-32 | with the default prefix the three families are disjoint |
| Keys.QueryKeyInjective | aquatiq-gateway/internal/cache/query_cache.go:95-100 | query keys determine prefix and query, even if the prefix holds colons |
| Keys.CollisionFreeExists | aquatiq-gateway/internal/cache/query_cache.go:96-98 | the assumption on the hash can be met, for any set of up to 10^64 queries |
| Keys.RateKeyInjective | aquatiq-gateway/internal/ratelimit/ratelimit.go:64 | rate-limit keys determine tier and minute, whatever the tier is called |
| Keys.QueryRateDisjoint | aquatiq-gateway/internal/cache/query_cache.go:99 | no query key is a rate-limit key, under any prefix |
| Keys.QueryTokenDisjointIff | aquatiq-gateway/internal/cache/redis.go:159-164 | query and token keys are disjoint exactly when the prefix is neither `token` nor starts with `token:` |
| Keys.TokenRateDisjoint | aquatiq-gateway/internal/cache/redis.go:159-178 | no token key is a rate-limit key |
| CircuitBreaker.EachCallIsRecordedOnce | aquatiq-gateway/pkg/circuitbreaker/circuitbreaker.go:56-82 | for any number of calls and cancellations each function runs at most once, each one that finishes is recorded exactly once even if its caller left (and counts exactly when no new generation began since it was accepted), and a caller has its own result or the context's error |
| CircuitBreaker.ResultsAreTheFunctionsOwn | aquatiq-gateway/pkg/circuitbreaker/circuitbreaker.go:38-82 | told by the run alone: the caller has a result exactly when it took one and that is what its function returned or the breaker's own error; the function ran exactly when accepted; the breaker recorded a success, or a failure, exactly when the function returned one |
| CircuitBreaker.OutcomesOfTheGenerationCount | aquatiq-gateway/pkg/circuitbreaker/circuitbreaker.go:50-53 | an outcome counts exactly when no generation began between the call's acceptance and its return |
| CircuitBreaker.AcceptedCall | aquatiq-gateway/pkg/circuitbreaker/circuitbreaker.go:56-82 | from every state, an accepted call that nobody leaves hands its caller what the function returns and the breaker its success |
| CircuitBreaker.RejectedCall | aquatiq-gateway/pkg/circuitbreaker/circuitbreaker.go:56-82 | one that is turned away hands its caller the breaker's error, and nothing is recorded |
| CircuitBreaker.SenderNeverBlocks | aquatiq-gateway/pkg/circuitbreaker/circuitbreaker.go:67-73 | a goroutine with a result always finds room in the channel |
| CircuitBreaker.PatientCallerGetsResult | aquatiq-gateway/pkg/circuitbreaker/circuitbreaker.go:75-81 | a caller still selecting when its goroutine has exited finds its own result |
| CircuitBreaker.NothingIsLost | aquatiq-gateway/pkg/circuitbreaker/circuitbreaker.go:56-82 | launched = rejected + recorded + in flight, on every run |
| CircuitBreaker.EveryLaunchIsAccountedFor | aquatiq-gateway/pkg/circuitbreaker/circuitbreaker.go:56-82 | the same counted in the run: goroutines started = calls turned away + functions returned + in flight |
| CircuitBreaker.ReadyToTripIff | aquatiq-gateway/pkg/circuitbreaker/circuitbreaker.go:34-41 | the breaker is ready to trip exactly when the last `threshold` outcomes that counted in the current generation are all failures |
| HttpClient.WaitIsCappedDoublingIff | aquatiq-gateway/pkg/httpclient/httpclient.go:84-89 | the wait in wrapping 64-bit arithmetic is min(min * 2^n, max) exactly when the product fits in 63 bits or its wrapped value reaches the cap |
| HttpClient.WaitWhenShiftedOut | aquatiq-gateway/pkg/httpclient/httpclient.go:85-88 | the exact wait for n >= 63 |
| HttpClient.WaitsGrow | aquatiq-gateway/pkg/httpclient/httpclient.go:85-89 | without overflow later attempts wait at least as long |
| HttpClient.TotalWaitBounds | aquatiq-gateway/pkg/httpclient/httpclient.go:84-89 | R waits without Retry-After sum to at most R * max and at most min * (2^R - 1), overflow included |
| HttpClient.CallWaitBounds | aquatiq-gateway/pkg/httpclient/httpclient.go:74-90 | the same for the waits of one call in which no 429 reply names its own |
| HttpClient.RetryIsAskedFor | aquatiq-gateway/pkg/httpclient/httpclient.go:44-71 | which replies are retried, by connection and status |
| HttpClient.BackoffIsDue | aquatiq-gateway/pkg/httpclient/httpclient.go:74-90 | which wait is due: the named one for a 429 reply that has it, otherwise capped doubling while it does not overflow |
| HttpClient.Perform | aquatiq-gateway/pkg/httpclient/httpclient.go:108-134 | the function handed to the breaker: while retries remain and no wait is cancelled, a failed connection or a status of 500 or more, 429 or 408 with a live context is followed by another attempt, and nothing else is; each wait is what a 429 reply names or else the capped doubling; a success exactly for a last 2xx reply whose context is not done, whose body is not empty and whose one Read reports neither error nor end |
| HttpClient.Do | aquatiq-gateway/pkg/httpclient/httpclient.go:104-160 | one call: no attempt and no recorded outcome when the context is done at entry or the breaker turns it away, otherwise one recorded outcome; the caller sees success exactly when that is one and it did not leave early |

## Left out

- HTTP and gRPC handlers, response headers, audit events, configuration, API keys, Docker and health checks: field copying, logging, or thin wrappers around clients.
- The wiring in `aquatiq-gateway/cmd/gateway/main.go`, including the nesting of the global limiter around the admin one.
- The remaining store operations (Exists, IncrementBy, SetNX, GetTTL, Keys, FlushDB), statistics, and InvalidatePattern, which only returns an error.
- Reading the client address from headers: an address is the string the middleware obtained.
- The texts that Go's `net` package accepts, and its folding of IPv4-mapped IPv6 addresses into IPv4: addresses arrive parsed, and the two families never match each other.
- Parsing of the Retry-After text: a reply carries the resulting duration, which the code uses without a cap.
- Floating-point rounding in the token bucket, and configured rates above 2^53, which a floating-point limit does not hold exactly.
- RateLimit.BudgetHoldsIff: assumes that 60 times the rate fits in 64 bits, because beyond it the product in the comparison wraps.
- The half-open and open states of the breaker library: accepting or rejecting a call, and beginning a new generation, are free choices of the model.
- A function that panics inside the breaker, and a reply of unknown length, for which the client's buffer allocation panics.
- HttpClient.Perform: the loop itself belongs to the retry library; the model is that library's documented loop around the two closures of this repository, and does not include building the request, connection reuse, or the placeholder response.
- A process that stops between truncating and writing the whitelist file, and other programs that write the file.
- The blacklist is not persisted by the repository, so no round trip is stated for it.
- The in-place reuse of Go slices' backing arrays: lists are values, so an alias held by a caller is not modelled (GetWhitelist returns a copy).
- Manager.Manager.LoadFromTraefikConfig: part of construction in the source; here a separate method called once on a fresh object.
- Starvation: no claim is made that a waiting writer, a pending Set or a goroutine eventually takes its step.
