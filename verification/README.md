# JanusLLM, modelled and verified

JanusLLM is a gateway between clients that hold API keys and upstream model endpoints. Around plain
handlers and SQL it keeps five pieces of shared state: a cache of API keys, a spend ledger fed through
bounded channels, one rate-limit ring per key, the endpoint balancers, and the model tables that a
startup sync brings in line with the YAML configuration. This project models those pieces and the code
that moves them, and proves what they keep over every input, every run and every interleaving.

| file | what it holds |
|---|---|
| `KeyCache.dfy`, `Freshness.dfy` | the decisions on a cached key; requests, refreshes, invalidations and database writes interleaved at every cache access and query, over a timed history of database rows |
| `RateLimit.dfy`, `Admission.dfy`, `KeyChecks.dfy`, `RingRaces.dfy` | the in-place ring against its whole admission history; key check, ring registry and idle eviction as atomic steps; what a check and a refresh come to in the fields of a key; cache access, ring lookup, clock read and ring mutex interleaved with removals, rings being shared objects |
| `SpendLedger.dfy`, `SpendFailures.dfy`, `SpendLoss.dfy`, `Billing.dfy` | requests and overlapping flushes over bounded channels and the double-checked channel registry; which amounts a flush can lose; from a finished exchange to the bill it puts on them |
| `Balancer.dfy`, `Candidates.dfy`, `Sticky.dfy` | ticket counters, latency averages, retry candidates, client-sticky identities |
| `Usage.dfy`, `Retry.dfy` | the streaming usage fold and relay; the nested retry loops against an arbitrary behaviour of upstreams and client |
| `UpsertTable.dfy`, `ConfigSync.dfy` | upsert-and-disable on one table; planning and running the startup sync |
| `Permissions.dfy` | team and key model lists, their comma codec, `/v1/models` |
| `Config.dfy`, `Text.dfy`, `Basics.dfy` | the YAML records and their keys, the string functions, shared types |

Code that updates state in place is a class or a method with loops, proved equal to a function of the old
state; the theorems are about those functions and about whole runs of them. A concurrent component is a
state machine whose events are the atomic steps of its threads: a critical section is one step, and a
clock read, a cache access, a database query and a channel operation are separate steps. Everything a
component cannot control (query results, failing updates, upstream answers, the client's connection, the
order of a map walk, hashes, JSON decoding) is a parameter or a choice left open.

Times are integer nanoseconds, money is exact integers.

Results that are not simply "the code does what it promises":

- A stale row can be accepted exactly 60 s after the write that replaced it, even when that write's
  invalidation has run to its end (`OldRowsLastThatLong`); never later (`OldRowsExpire`). An invalidation
  that finds no thread holding a row of its key is final at once (`UnracedInvalidationIsFinal`).
- When clock readings arrive out of order by at most `d`, a limit of two or more holds for intervals of
  `window - d` and for no longer ones, while a limit of one holds for the whole window whatever the clock
  does (`SafeLengthIsExact`).
- Idle eviction forgets a live ring when the two clock reads of a request are further apart than 29 min
  and 1 ns; up to there the per-key bound survives any number of evictions (`LargerGapBreaksTheBound`,
  `SlidingBoundSurvivesEviction`).
- Once the steps of requests and removals interleave, a ring can outlive its key's cache entry; what survives
  is the limit per ring and, per key, the limit once more than its rings are removed or replaced, which is
  exact (`RingOutlivesEntry`, `EachRingKeepsItsLimit`, `RemovalsBoundAdmissions`, `RemovalsBoundIsTight`).
- Applying the team list twice keeps the permissions exactly when the first result is not empty: an empty
  result means "deny all" but reads as "allow all" (`ReapplyTeamList`).
- When the 64-bit ticket counter wraps, a block of as many calls as the total weight stays exact for an
  endpoint exactly when the total divides 2^64 or the endpoint has none or all of the weight; a rotation
  stays even exactly when its size divides 2^64 (`ExactAcrossWrap`, `RotationAcrossWrap`).
- A latency average approaching a repeated observation from below stops up to 7 ns short of it
  (`RepeatedLatencySettles`).
- The streaming and the non-streaming path read one JSON text differently: they take different request ids
  from an event that carries two, different usage from an event that reports in two places, and a stream
  bills nothing for usage that only a message reports, unless it is an Anthropic message_start
  (`OneEventBillsLikeBody`, `StreamLosesMessageUsage`).
- Endpoint keys join name and URL with a NUL: an endpoint shares its key with a different one exactly when
  its name or its URL holds a NUL (`KeyIsShared`).
- The proxy and the balancer identify a client alike except when the key has no positive id but a content or
  a name (`ProxyIdentityAgrees`).
- A spend total that is not positive is drained but not debited: whichever requests finish, no interleaving
  loses spend of a key that way exactly when none of its amounts is negative (`OnlyNegativeSpendIsDropped`).
- A JSON text that holds a newline is billed as a body and lost as a stream, whose reader cuts it into lines
  that are no events (`NewlineLosesUsage`).
- When the weights of a group add up to 2^63 or more, up to 2^64, the sum reads as negative and the weights
  are ignored (`OverflowRotates`).

## Model

| member | source | states |
|---|---|---|
| RateLimit.RequestRing.constructor | internal/proxy/ratelimit.go:16-30 | a new ring is empty; a limit of zero or less makes it unlimited |
| RateLimit.RequestRing.AllowAt | internal/proxy/ratelimit.go:37-56 | the in-place call gives the verdict and leaves the contents of the specification `Admit`, and its append never outgrows the backing array |
| RateLimit.RequestRing.PruneLocked | internal/proxy/ratelimit.go:58-71 | drops exactly the longest prefix of instants at or before the cutoff |
| RateLimit.DenialWaitIsPositive | internal/proxy/ratelimit.go:46-51 | on every denial the wait is positive, so the clamp to zero never acts |
| RateLimit.RingIsSuffixOfHistory | internal/proxy/ratelimit.go:37-71 | over any run the ring is a suffix of the admission history, and everything before it was expired at some call, although the ring may be unsorted |
| RateLimit.SkewedWindowBound | internal/proxy/ratelimit.go:37-71 | with clock skew at most d, every half-open interval of length window - d holds at most the limit of admitted instants; d = 0 is the exact sliding window |
| RateLimit.SkewedWindowBoundIsTight | internal/proxy/ratelimit.go:37-71 | for every skew up to the window and every limit of two or more, some run exceeds the limit in an interval one nanosecond longer |
| RateLimit.SingleLimitBound | internal/proxy/ratelimit.go:37-71 | with a limit of one, no interval as long as the window holds two admissions, in whatever order the clock readings come |
| RateLimit.SafeLengthIsExact | internal/proxy/ratelimit.go:37-71 | for every limit and every skew, the limit holds in all runs for intervals of a length iff that length is at most the window for a limit of one, and at most window - d, or nothing, for a larger one |
| RateLimit.MonotoneRingIsLiveHistory | internal/proxy/ratelimit.go:45-70 | under monotone time the pruned ring is exactly the admissions newer than now - window, and a call is denied iff there are as many as the limit |
| RateLimit.RetryAfterIsTight | internal/proxy/ratelimit.go:46-51 | any number of calls strictly before now + retryAfter are denied and change nothing; a call at that instant is admitted |
| RateLimit.RetryAfterSecondsIsLeast | cmd/main.go:299-307 | the Retry-After header is the least number of whole seconds that covers the wait |
| Freshness.RunKeepsInv | cmd/main.go:349-430 | every interleaving keeps: entries, threads in flight and accepted requests rely on rows the database held late enough |
| Freshness.CacheIsFresh | cmd/main.go:403-414 | in every interleaving a cached entry is the effective row the database held at some instant no earlier than its LastSyncAt |
| Freshness.AcceptsAreFresh | cmd/main.go:349-385 | a request accepted from the cache uses a row current at most 60 s before it, one accepted from the database a row current at or after it; either way the row has a limit that is not negative, a positive balance, and no expiry or one still to come |
| Freshness.AcceptsGrantWhatRowsGrant | cmd/main.go:538-541 | an accepted request may use exactly the models that both the team list and the key list of such a row allow, and its key is that row in all else |
| Freshness.OldRowsExpire | cmd/admin.go:704-709 | no request later than a write plus 60 s relies on a row from before the write, even when the invalidation loses a race with an upsert |
| Freshness.OldRowsLastThatLong | cmd/main.go:361-384 | for every replaced row there is an interleaving that accepts it exactly 60 s after the write, its invalidation having finished |
| Freshness.UnracedInvalidationIsFinal | cmd/admin.go:732-735 | once an entry is gone and no thread holds a row of its key, no later request in any continuation relies on a version older than the current one |
| Freshness.InvalidatorRemoves | cmd/admin.go:737-749 | an invalidation removes the entry of each of its keys, one step each, and no other |
| Freshness.DroppersRemove | cmd/main.go:416-420 | a refused request and a sweep whose row is gone remove their one entry, and accept nothing |
| Freshness.RequestGoesOn | cmd/main.go:349-385 | from its cache access a request drops a key that is not in order, uses one synced within 60 s, or loads; from its query it stores a usable row's effective key, drops, or gives up on an error |
| Freshness.SweepGoesOn | cmd/main.go:589-618 | a sweep drops idle entries, leaves fresh ones, and reloads the rest, storing what is still there with money and time left, dropping what is not, and skipping errors |
| KeyCache.QueryFindsUsableRows | internal/auth/auth.go:223-245 | for a limit that is not negative, the refresh's query finds a row iff a request at that instant could use it |
| Admission.Gateway.GetValidKeyForRequest | cmd/main.go:349-385 | with the query's result as input, the result and both tables afterwards are those of `ValidKey` |
| Admission.Gateway.CheckKey | cmd/main.go:272-313 | the key check followed by the rate limit on the key's ring, recreated when the limit changed |
| KeyChecks.CachedKeyOutcome | cmd/main.go:349-366 | a cached key with a negative limit, no balance or a past expiry is refused with the first of these and forgotten; one in order and synced within 60 s is used and counts as accessed |
| KeyChecks.LoadedKeyOutcome | cmd/main.go:367-385 | without a fresh entry the row decides: a query error changes nothing, a missing or unusable row is refused with its reason and forgotten, a usable one is cached with its effective list |
| KeyChecks.LimitOutcome | cmd/main.go:296-313 | a valid key passes iff it has no limit or fewer live calls than its limit, and the ring then holds exactly the live calls and this one |
| KeyChecks.WaitIsExact | cmd/main.go:299-311 | the wait a limited client is told is positive, all calls of the key before it is over are denied, and one when it is over passes |
| KeyChecks.RefreshOutcome | cmd/main.go:589-618 | per entry: dropped iff idle, or stale and gone; replaced by the effective row with this sync time iff stale and found; otherwise untouched; its ring goes and stays with it |
| KeyChecks.RefreshLeavesFresh | cmd/main.go:589-618 | when every query gets through, only entries synced within 60 s and used within 30 min are left |
| Admission.Gateway.RefreshCachedKeys | cmd/main.go:589-618 | one sweep in any order evicts idle entries, keeps fresh ones, reloads stale ones, drops vanished ones, and the rings with the dropped entries |
| Admission.Gateway.InvalidateKeyCache | cmd/admin.go:732-735 | an invalidation drops the key's entry and its ring and nothing else |
| Admission.Gateway.InvalidateTeamKeyCache | cmd/admin.go:737-749 | a team invalidation drops the entries and rings of exactly its keys |
| Admission.RefreshOneMore | cmd/main.go:592-617 | handling one entry of a sweep touches no other entry or ring, so the order of the sweep does not matter |
| Admission.RunKeepsInv | cmd/main.go:272-430 | any run of checks, sweeps and invalidations keeps, for every key: cached under its content, ring only beside an entry, ring holding all live admissions of its epoch |
| Admission.RingsOnlyForCachedKeys | internal/proxy/proxy.go:113-141 | over any run of atomic steps, rings exist only for cached keys |
| Admission.IdleRingIsEmpty | cmd/main.go:593-598 | an idle eviction finds no live instant in the ring it drops |
| Admission.SlidingBoundSurvivesEviction | cmd/main.go:296-313 | over any run with any number of idle evictions, no minute holds more admissions of a key than its limit since the last invalidation, refusal or change of limit |
| Admission.LargerGapBreaksTheBound | cmd/main.go:593-598 | with any larger gap between a request's two clock reads, one idle eviction at its earliest lets a key limited to one request through twice in a minute |
| RingRaces.RunKeepsInv | internal/proxy/proxy.go:113-141 | every interleaving keeps: each ring object is what its calls make of it, threads hold rings that exist, and of a key's rings all but the registered one have been removed or replaced |
| RingRaces.RingHasAskedLimit | internal/proxy/proxy.go:113-135 | in every interleaving a request only comes to hold a ring of its own key with the limit it asks for |
| RingRaces.EachRingKeepsItsLimit | cmd/main.go:296-299 | however requests interleave, a ring object keeps its limit in every interval of its safe length, the skew being the longest time from a clock read to the ring's mutex |
| RingRaces.RemovalsBoundAdmissions | internal/proxy/proxy.go:113-141 | however requests and removals interleave, all rings of a key together admit at most (1 + removed + replaced rings) times its limit in an interval of a window less that skew |
| RingRaces.RemovalsBoundIsTight | internal/proxy/proxy.go:137-141 | for every limit and number of removals some run without skew or change of limit admits exactly that many, at one instant |
| RingRaces.RingOutlivesEntry | cmd/main.go:296-299 | for every key and limit an interleaving with one removal leaves a registered ring without a cache entry, all threads done |
| SpendLedger.SpendIsConserved | cmd/main.go:643-673 | in every interleaving, admin changes and new keys included, logged spend of a key = applied + pending in its channel + carried between steps + failed updates + non-positive totals; no row is lost and total_spend moves by the applied amounts |
| SpendLedger.NonNegativeSpendIsConserved | cmd/main.go:457-491 | if a key's own amounts are not negative nothing of it is dropped: its logged spend is in total_spend, pending, carried, or lost to a failed update |
| SpendLoss.OnlyNegativeSpendIsDropped | cmd/main.go:643-673 | whichever requests finish, every run drops nothing of a key iff none of its amounts is negative |
| SpendLoss.ServeAll | cmd/main.go:620-673 | requests served and flushed one at a time lose all of their amounts that are not positive |
| SpendLedger.FinishedIsLogged | cmd/main.go:480 | what the finished requests of a run bill to a key is logged or waits for room in the log channel |
| SpendLedger.FinishedSpendIsConserved | cmd/main.go:457-491 | what finished requests bill to a key is in total_spend, waiting to be logged, pending, carried, or lost |
| SpendLedger.FlushKeepsCredit | internal/spend/spend.go:209-225 | no step of a request or flush changes balance + total_spend of any row |
| SpendLedger.CreditIsConserved | internal/spend/spend.go:209-225 | over a whole run balance + total_spend is what the admin API last made it, also for keys created on the way |
| SpendFailures.AdminSetsBalance | cmd/admin.go:685-704 | a new key starts with its balance and nothing spent, an update sets the balance alone |
| SpendLedger.LogIsConserved | cmd/main.go:620-641 | every record sent is, as often as it was sent, in the log channel, a flusher's batch, the log table or a failed batch |
| SpendFailures.NothingIsLostWithoutFailure | cmd/main.go:620-641 | in a run without database failures every record is in the channel, a batch or the table, and no debit of a key with a row fails |
| SpendFailures.FailuresLose | internal/spend/spend.go:117-128 | a failing insert loses the flusher's batch and leaves the table, a failing update loses the drained total and leaves the rows |
| SpendFailures.UndisturbedLogFlush | cmd/main.go:620-641 | a log flusher nobody disturbs inserts the whole channel in its order |
| SpendFailures.UnbilledRequestOpensChannel | cmd/main.go:480-482 | a request without a record still registers its key's channel |
| SpendLedger.QueuesAreBounded | internal/proxy/proxy.go:26-33 | no channel ever holds more than 100 elements |
| SpendLedger.RegistryOnlyGrows | internal/proxy/proxy.go:143-159 | a key keeps the channel it was first given, whatever happens later |
| SpendLedger.OneChannelPerKey | internal/proxy/proxy.go:143-159 | under every interleaving of read-locked check and write-locked creation, all requests of a key hold the same channel |
| SpendLedger.SnapshotReachesEveryChannel | internal/proxy/proxy.go:161-170 | a snapshot contains every channel that exists, so no sent amount is stranded |
| SpendLedger.UndisturbedFlushBillsPending | cmd/main.go:643-673 | a flusher nobody disturbs debits a key by exactly what waits for it and leaves its channel empty |
| SpendLedger.Store.FlushKeySpend | cmd/main.go:643-673 | the flush loops empty every channel of the snapshot and debit each row by its channel's sum if that is positive and the update succeeds |
| SpendLedger.Store.Drain | cmd/main.go:645-670 | the receive loop returns the sum of the channel and leaves it empty |
| SpendLedger.Store.UpdateKeySpendRecord | internal/spend/spend.go:209-225 | one update moves an amount from balance to total_spend of one row, or changes nothing |
| SpendLedger.Store.FlushSpendLog | cmd/main.go:620-641 | the log flush moves the whole channel into the table in order, or loses it if the insert fails |
| Billing.CreateSpendRecord | internal/spend/spend.go:63-115 | a record is made iff there is a payload with a positive token count and a price, for input price times prompt tokens plus output price times completion tokens |
| Billing.BilledUsage | internal/spend/spend.go:82-85 | usage of a priced group is billed iff one of its counts is positive |
| Billing.EachTokenHasItsPrice | internal/spend/spend.go:96 | one more prompt token costs exactly the input price, one more completion token the output price, and a total by itself nothing |
| Billing.LogSpend | cmd/main.go:457-491 | the key's channel gets an amount iff the log channel gets a record, and the same amount |
| Billing.BilledForTheLastAttempt | cmd/main.go:464-483 | for every behaviour of the upstreams an exchange is billed for its last attempt if that succeeded, otherwise not at all, and never after an error was sent |
| Billing.BrokenStreamsAreFree | internal/proxy/proxy.go:293-299 | a stream that breaks off is never billed, whatever usage it had reported |
| Billing.BillIsWon | internal/proxy/proxy.go:196-254 | a request is billed for the payload of its first attempt that may not be retried, if that succeeds, and otherwise not at all |
| Billing.BillsReachBalances | cmd/main.go:457-491 | for any sequence of served requests whose bills are the finished ones of a run, each once and in order: what their deciding attempts cost a key = total_spend delta + waiting + pending + carried + failed + dropped, in every interleaving |
| Billing.HonestBillsDropNothing | internal/spend/spend.go:90-97 | if the requests of a key have non-negative prices and token counts, no total of it is dropped |
| Billing.QuietBillsAreDebited | cmd/main.go:643-673 | once all requests and flushes are done and the channel is empty, the key is debited by exactly what its requests cost less what failed updates lost |
| Billing.CostsAreTokens | internal/spend/spend.go:96 | at one price, a key's requests cost the input price of the prompt tokens and the output price of the completion tokens their deciding attempts won |
| Billing.QuietRunDebitsTokens | cmd/main.go:457-491 | end to end: a run at rest has debited a key those two products, less failed updates |
| Balancer.RoundRobinBalancer.Next | internal/balancer/balancer.go:82-92 | each call takes the next ticket of the wrapping 64-bit counter modulo the number of endpoints |
| Balancer.RotationIsFair | internal/balancer/balancer.go:82-92 | over any number of calls without wrap two endpoints are chosen equally often, give or take one |
| Balancer.WeightedBalancer.Next | internal/balancer/balancer.go:140-167 | for any weights, negative ones and overflowing sums included, each call draws one ticket and picks by wrapped int64 sums compared as uint64 |
| Balancer.WeightedBalancer.FirstAbove | internal/balancer/balancer.go:157-167 | the second loop always returns inside, so the return after it is unreachable for any weights |
| Balancer.MachinePickIsPick | internal/balancer/balancer.go:140-167 | with non-negative weights whose sum is an int64, that pick is the owner of the ticket's block, or the rotation without weight |
| Balancer.OverflowRotates | internal/balancer/balancer.go:148-155 | with a weight sum from 2^63 to 2^64 the endpoints are chosen in plain rotation |
| Balancer.OwnerOwns | internal/balancer/balancer.go:157-167 | the loop over running totals finds an endpoint iff the ticket lies in that endpoint's block |
| Balancer.WeightedBlockIsExact | internal/balancer/balancer.go:140-167 | any block of as many calls as the total weight, an int64, chooses each endpoint exactly its weight |
| Balancer.WeightedFairness | internal/balancer/balancer.go:140-167 | for totals that are an int64, any n calls without wrap choose an endpoint between floor(n/W)*w and floor(n/W)*w + min(w, n mod W) times |
| Balancer.ExactAcrossWrap | internal/balancer/balancer.go:140-167 | for totals that are an int64, blocks of the code's picks are exact for an endpoint from every counter position, the wrap included, iff the total weight divides 2^64 or the endpoint has none or all of it |
| Balancer.RotationAcrossWrap | internal/balancer/balancer.go:82-92 | a rotation gives every endpoint one call per round from every counter position iff its size divides 2^64 |
| Balancer.LatencyBalancer.Next | internal/balancer/balancer.go:222-251 | over the history of observations: an endpoint whose last observation was of a success whenever there is one, the first of the fastest of them, without drawing a ticket; otherwise the rotation |
| Balancer.LatencyBalancer.Observe | internal/balancer/balancer.go:287-308 | only the observed endpoint's statistic changes, by the clamped moving average; a negative latency or no endpoint changes nothing; every statistic stays what its observations make |
| Balancer.HealthyIsLastSuccess | internal/balancer/balancer.go:287-308 | an endpoint counts as healthy iff its last observation of a non-negative latency was of a success |
| Balancer.LatencyBalancer.RemoveModel | internal/balancer/balancer.go:268-279 | removes the first endpoint of the name with its statistic, or nothing |
| Balancer.LatencyStaysInRange | internal/balancer/balancer.go:294-307 | over any observations the average is positive, stays between the least and greatest clamped one, and does not overflow for latencies below 2^60 ns |
| Balancer.SmoothStep | internal/balancer/balancer.go:299-306 | one step moves strictly towards the observation without passing it, and rests exactly in the 7 ns below it |
| Balancer.RepeatedLatencySettles | internal/balancer/balancer.go:299-306 | repeating one observation settles exactly at it from above and within 7 ns from below, never past it |
| Config.UpstreamKeyInjective | internal/proxy/proxy.go:556-561 | two endpoints with NUL-free names share a key iff name and URL are the same |
| Config.KeyIsShared | internal/balancer/balancer.go:368-373 | an endpoint shares its key with one of another name or URL iff its name or its URL holds a NUL |
| Config.NormalizeStrategy | internal/balancer/balancer.go:51-67 | every input names one of the four strategies |
| Config.NormalizeStrategyIdempotent | cmd/config_sync.go:324-326 | a stored strategy names itself, so the tables and the balancer factory agree |
| Config.StrategyNames | internal/balancer/balancer.go:51-67 | every documented name gives its strategy in any case, with `_` or a space for a dash and with space around it |
| Config.OtherNamesRotate | internal/balancer/balancer.go:51-67 | any other name is the rotation |
| Candidates.DistinctRetryCandidates | internal/proxy/proxy.go:509-554 | the loop with its seen set computes the candidate list; no endpoints or no pick give none |
| Candidates.CandidatesCoverAllKeys | internal/proxy/proxy.go:509-554 | no key twice, exactly the keys of the list and the pick, and the pick first |
| Candidates.CandidatesAreRotation | internal/proxy/proxy.go:538-553 | when no two endpoints share a key the candidates are exactly the list rotated to the pick |
| Retry.AcceptedGroupsRotate | cmd/config_sync.go:156-165 | every group the startup sync accepts, with NUL-free names, is tried in exact rotation |
| Retry.PerUpstreamAttempts | internal/proxy/proxy.go:379-387 | one attempt for negative retries, one more than the retries up to three, and four above |
| Retry.ScheduleAt | internal/proxy/proxy.go:196-199 | each candidate's attempts stand together right after those of the candidates before it |
| Retry.ScheduleBound | internal/proxy/proxy.go:379-387 | at least one and at most four attempts for every candidate |
| Retry.RetryIsSilent | internal/proxy/proxy.go:279-291 | an attempt that may be retried has written nothing to the client and left no payload |
| Retry.ExhaustedExchange | internal/proxy/proxy.go:196-249 | if every attempt may be retried the whole schedule is tried and the client gets one 502 with the last error |
| Retry.DecidedExchange | internal/proxy/proxy.go:199-220 | otherwise the first attempt that may not be retried is the last, and the response is its own |
| Retry.OneAnswer | internal/proxy/proxy.go:172-254 | for every behaviour of the upstreams: at most four attempts per candidate in schedule order, all but the last silent, one response that is either one JSON error or bytes of one upstream, payload only from a success |
| Retry.CandidatesAreExhausted | internal/proxy/proxy.go:196-238 | a later candidate is tried only after an earlier one has had all its attempts, all of them retryable |
| Retry.FourPerUpstream | internal/proxy/proxy.go:172-254 | the attempts are at most four times the distinct upstreams, however long the endpoint list |
| Retry.AttemptIsMade | internal/proxy/proxy.go:196-238 | a scheduled attempt is made iff every one before it met no connection, a status of 500 or more, or a body that broke before it was passed on |
| Retry.Failover | internal/proxy/proxy.go:196-254 | after any number of such failures, an upstream that answers below 500 gives a client that stays exactly its body, status and payload |
| Retry.FinalFailures | internal/proxy/proxy.go:256-300 | a missing group is a 404, an unusable body a 400, an unbuildable request a 500, a stream broken before its first byte a 502; one broken later leaves its status and what was passed on |
| Retry.LastFailure | internal/proxy/proxy.go:279-291 | when all attempts fail that way, the one 502 carries the last attempt's error |
| Retry.ObservedExactly | internal/proxy/proxy.go:495-507 | the balancer is told of a failure for each such attempt, of a success for a whole answer, and of nothing else |
| Retry.AdapterChoice | internal/proxy/adapter.go:115-123 | the Anthropic adapter is chosen by type, whatever its case and the space around it |
| Retry.Handler.ForwardOnce | internal/proxy/proxy.go:256-341 | outcome, retryability and everything written, for each way an attempt can go |
| Retry.Handler.HandleRequest | internal/proxy/proxy.go:172-254 | 404 without a balancer, 503 without endpoints or pick, otherwise the exchange of the specification `Handled` |
| Retry.Handler.Round | internal/proxy/proxy.go:199-220 | one round: the attempt, what the balancer observes, and the error of a failure that may not be retried unless bytes are out |
| Retry.Handler.TryCandidates | internal/proxy/proxy.go:196-254 | the nested loops play exactly the flat schedule and stop where it stops |
| Usage.NoiseDoesNotCount | internal/proxy/adapter.go:181-195 | a line that carries no event can stand anywhere in a stream without changing usage or id |
| Usage.UsageFollowsReports | internal/proxy/adapter.go:181-233 | what a stream adds up to is a fold over its usage reports alone |
| Usage.StreamUsage | internal/proxy/adapter.go:181-263 | no usage iff no report; otherwise each token field is its last reported value, input and output winning over prompt and completion, and the total is the last speaker's or the final sum |
| Usage.StreamUsageByName | internal/proxy/adapter.go:244-255 | prompt tokens are input_tokens, or else prompt_tokens, of the last report that gives either; completion tokens output_tokens or else completion_tokens; zero if none does |
| Usage.StreamIdIsLastNamed | internal/proxy/adapter.go:197-202 | the id of a stream is the last one an event gives, its own before its message's, and events without one keep it |
| Usage.OnlyDataIsAnEvent | internal/proxy/adapter.go:181-190 | only data lines are events, and blank lines, empty data and the end marker are none |
| Usage.TotalIsSum | internal/proxy/adapter.go:259-261 | when no report carries a total, the total is prompt + completion |
| Usage.OneEventBillsLikeBody | internal/proxy/adapter.go:151-218 | for every event and either adapter, its JSON on one data line, as the reader cuts the stream, bills like the same JSON as a body iff neither reads a report, or the reports they read give the same tokens and the event's two ids agree |
| Usage.OneEventByName | internal/proxy/adapter.go:151-263 | which report and which id are read from a streamed event and from a body, and the three counts they give, in the fields of the JSON |
| Usage.NewlineLosesUsage | internal/proxy/proxy.go:570-571 | JSON text with a newline, none of whose lines is an event, bills nothing when streamed, so that it differs from the body iff the body bills |
| Usage.StreamLosesMessageUsage | internal/proxy/adapter.go:207-217 | usage that only a message reports is billed as a body but not when streamed, unless it is an Anthropic message_start |
| Usage.FlatEventBillsLikeBody | internal/proxy/adapter.go:151-218 | an event without a message, on one line, bills the same either way, unless it is an Anthropic message_start with usage of its own |
| Usage.LinesCutTheBody | internal/proxy/proxy.go:570-571 | the lines read concatenate to the body and are cut after every newline and nowhere else |
| Usage.StreamToClient | internal/proxy/proxy.go:563-602 | the client gets the whole body on success and a prefix on failure, and success leaves the payload of all lines |
| Usage.RelayByRoom | internal/proxy/proxy.go:570-587 | a relay succeeds iff the stream ends well and the client takes all of it, and passes on what the client takes |
| Sticky.IntString | internal/balancer/balancer.go:414-427 | the loop never leaves its 20-byte buffer for any int64 and writes the decimal notation; zero is "0", negatives are empty |
| Sticky.DecimalDecodes | internal/balancer/balancer.go:420-426 | the digits written read back as the number, without a leading zero |
| Sticky.IntTextIsInjective | internal/balancer/balancer.go:414-427 | two ints are written alike iff they are equal or both negative |
| Sticky.HeaderValue | internal/balancer/balancer.go:405-412 | with the map walked in any order, the trimmed value of some header equal ignoring case, or empty if there is none |
| Sticky.ReadIsDetermined | internal/balancer/balancer.go:405-412 | the walk order makes no difference iff no two matching headers disagree |
| Sticky.StickyKey | internal/balancer/balancer.go:375-403 | with unambiguous headers the identity is a function of the context |
| Sticky.Next | internal/balancer/balancer.go:321-333 | the chosen endpoint is the hash of that identity modulo the number of endpoints |
| Sticky.ProxyHeadersAreClear | internal/proxy/proxy.go:389-400 | the headers the proxy collects are never ambiguous, and each sticky header reads the matching one of them |
| Sticky.ProxyIdentityAgrees | internal/proxy/proxy.go:403-432 | the identity the proxy computes ahead is the one the balancer would work out itself iff the request is not known by its key's content or name, bare routes that spell the same aside |
| Sticky.OwnersAreToldApart | internal/balancer/balancer.go:379-387 | identities made from ids are equal iff they stand for the same key, team or organization |
| Text.TrimIsTrimmed | cmd/config_sync.go:133 | a trimmed name has no outer space and trims to itself |
| Text.TrimCutsSpace | cmd/config_sync.go:133 | trimming cuts space off both ends and nothing else |
| Text.JoinAfterSplit | internal/auth/auth.go:44-71 | joining after splitting gives back every string |
| Text.SplitAfterJoin | internal/auth/auth.go:44-71 | splitting after joining gives back a list iff it is non-empty and no element holds the separator |
| Permissions.NormalizedPermissionList | internal/auth/auth.go:101-126 | the loop keeps the distinct trimmed entries, or a single star for blank or starred input |
| Permissions.EffectiveModelList | internal/auth/auth.go:73-99 | the loop computes the effective list of a team and a key list |
| Permissions.NormalizedGrants | internal/auth/auth.go:101-130 | normalizing never changes what a list grants |
| Permissions.PermissionMeet | internal/auth/auth.go:73-130 | a request is allowed iff both the team list and the key list allow its model |
| Permissions.EffectiveEmpty | internal/auth/auth.go:88-99 | the effective list is empty iff both lists are restricted and share no model |
| Permissions.ReapplyTeamList | cmd/main.go:538-541 | applying the same team list again keeps the permissions iff the first result was not empty |
| Permissions.AccessibleModelGroups | internal/proxy/proxy.go:85-111 | the loop lists the registered groups a list allows, in order |
| Permissions.ModelsListMatchesRequests | cmd/main.go:445-455 | `/v1/models` lists exactly the groups a request would be allowed to use |
| Permissions.RequestIsAllowed | cmd/main.go:445-455 | a request is let through iff it names a configured group that both its team and its key allow, and is otherwise told the first of these that fails |
| Permissions.ScanAfterValue | internal/auth/auth.go:44-71 | a stored list is read back unchanged iff no element holds a comma and it is not the single empty string |
| Permissions.ValueAfterScan | internal/auth/auth.go:44-71 | any column text survives a read and a write |
| Permissions.NormalizeModelList | cmd/admin.go:518-538 | the loop with its early exits computes the list the admin API stores |
| Permissions.AdminListGrants | cmd/admin.go:518-538 | the stored list grants what was entered, or everything for all-models |
| Permissions.AdminListSurvivesStorage | cmd/admin.go:518-538 | the stored list is read back unchanged iff it holds no comma |
| Permissions.StoredPermissionsMeet | internal/auth/auth.go:73-99 | entered, stored, loaded and combined, comma-free lists allow a model iff both inputs do |
| UpsertTable.UpsertAllUpserts | cmd/config_sync.go:201-245 | upserting leaves every wanted row enabled with its columns, loses or renames no row, and adds only wanted ones under new ids |
| UpsertTable.ReconcileReconciles | cmd/config_sync.go:201-312 | upserting and disabling one table enables exactly the wanted keys and deletes nothing |
| UpsertTable.ReconcileReconciledIsNoop | cmd/config_sync.go:201-312 | on a reconciled table nothing is stale and a second round changes nothing |
| ConfigSync.PlanAccepts | cmd/config_sync.go:119-199 | a plan is made iff no trimmed name is empty or repeated and all defaults can be marshalled, and it wants the configured groups |
| ConfigSync.PlanIsOk | cmd/config_sync.go:119-199 | a plan never wants a group or a pair twice, nor an endpoint of a group it does not want |
| ConfigSync.PlannedEndpoints | cmd/config_sync.go:156-182 | the planned endpoints are exactly the configured ones |
| ConfigSync.SyncReconcilesGroups | cmd/config_sync.go:75-117 | afterwards a group is enabled iff its trimmed name is configured; no row is deleted and ids keep their names |
| ConfigSync.SyncWritesGroup | cmd/config_sync.go:141-154 | every configured group then has an enabled row with its strategy, its two costs and its defaults each in their own column |
| ConfigSync.SyncReconcilesEndpoints | cmd/config_sync.go:75-117 | afterwards an endpoint is enabled iff its pair of names is configured, every configured one is stored under its own group's id, and foreign keys hold |
| ConfigSync.SyncWritesEndpoint | cmd/config_sync.go:167-181 | every configured endpoint then has an enabled row under its group with trimmed type, name, URL and secret reference, weight and timeout or 100 and 60 when not positive, retries or 1 when negative, and its TLS flag, each in their own column |
| ConfigSync.SecondSyncIsNoop | cmd/config_sync.go:75-117 | a second sync with the same configuration changes nothing and plans no disables |
| ConfigSync.SyncRefuses | cmd/config_sync.go:119-165 | a configuration is refused iff a trimmed name is empty or repeated or defaults cannot be marshalled |
| ConfigSync.RefusalExplains | cmd/config_sync.go:133-165 | the error of a refusal names a group or endpoint that is empty, repeated or has defaults that cannot be marshalled |
| ConfigSync.ConfigStore.BuildConfigSyncPlan | cmd/config_sync.go:119-199 | the planning loops compute the plan, its first error, and the stale rows found by name |
| ConfigSync.PlanGroupEndpoints | cmd/config_sync.go:156-182 | the inner loop, with one set of pairs for all groups, refuses exactly the duplicates within its group |
| ConfigSync.ConfigStore.ApplyModelGroupPlan | cmd/config_sync.go:201-245 | the group loop upserts by the index read at its start and returns the id of every group it wrote |
| ConfigSync.ConfigStore.ApplyModelEndpointPlan | cmd/config_sync.go:247-289 | the endpoint loop upserts every endpoint under its group's id |
| ConfigSync.ConfigStore.DisableStaleModelConfig | cmd/config_sync.go:296-312 | exactly the listed rows are disabled |
| ConfigSync.ConfigStore.SyncConfig | cmd/config_sync.go:75-117 | the transaction ends in the synced database, or leaves both tables as they were when the configuration is refused |

## Left out

- Routing, handlers, JSON binding, the web interface, TLS, header copying and URL building: no state of their own.
- JSON, hashes, bcrypt, key generation: parameters or absent; the payload a response leaves is taken to survive its own encoding and decoding.
- SQL and GORM: a table is a map, a transaction is all or nothing, and a database error inside the startup transaction is not modelled (it rolls back).
- Floating point: prices, spends and balances are exact integers, so rounding of amounts is not captured.
- Go's zero time is the number 0, and integer time does not overflow.
- Strings are sequences of characters rather than UTF-8 bytes, and lower-casing and case folding are exact only as far as they can produce or match ASCII.
- `LastAccessAt` under races: a refresh may restore an older access time, so that an idle eviction drops no live ring is claimed for atomic steps only; under races an eviction is one more removal.
- `isKeyLocallyValid`, error codes and log lines: one-line reads of a key that decide nothing the model does not already decide.
- Fairness for negative endpoint weights or weight sums above 2^64: the unsigned comparison gives them no shares to be fair to; what is picked is modelled for all weights.
- Organization, team and key handlers of the admin API: single queries; in the model are their write-then-invalidate order, as a write event and an invalidation event, and the creation and balance changes of keys in the ledger. The API refuses to delete keys (cmd/admin.go:729), so rows only appear.
- Round-robin, weighted and sticky `RemoveModel`, and models registered while requests run: the retry machine works on one snapshot of the list.
- Admission.SlidingBoundSurvivesEviction: runs each key check and each sweep as one step and takes clock readings in order; for interleaved steps RingRaces has the bounds that remain.
- Admission.Gateway.CheckKey: holds a ring as a value in the registry, so sharing of one ring object between concurrent requests is not captured; RateLimit.RequestRing is the object itself and RingRaces shares it.
- Admission.RunKeepsInv: runs each check and each sweep as one step, like the bound it serves.
- Admission.RingsOnlyForCachedKeys: holds between atomic steps only; RingRaces.RingOutlivesEntry is the interleaving in which it fails.
- SpendLedger.Store.FlushKeySpend: runs without interference; interference is what the events of the ledger's state machine add.
- SpendLedger.Store.Drain: nobody sends while it receives; the ledger's state machine has the interleaved loop.
- SpendLedger.Store.FlushSpendLog: nobody sends while it receives; the ledger's state machine has the interleaved loop.
- SpendLedger.UndisturbedFlushBillsPending: one flusher stepping alone; that some flusher eventually runs is not modelled.
- Balancer.WeightedBalancer.Next: picks positions in the list and does not follow endpoints through concurrent removals.
- Retry.Handler.ForwardOnce: response headers are not modelled, so headers copied from a stream that failed before its first byte are not visible; the JSON error of an exchange is taken to reach the client.
- Retry.Handler.HandleRequest: the final "all upstream models failed" answer is left out, since it needs an empty candidate list, which has already been answered with 503.
- Usage.StreamToClient: bytes arrive as one text with an optional read error at its end, and the client takes a number of bytes and then no more.
