# A verified model of Kurd

Kurd is an MCP gateway: a Rust core (`src/lib.rs`) that admits, routes and forwards tool calls, and a set of Python
managers (`kurd/*.py`) around it. This project models the parts whose behaviour depends on whole runs and on
interleavings, and proves what each of them keeps. There is one module per component, and a file per module.

How the source's forms are kept:

- A block that runs under a lock, and a Python object that updates its fields, is a class whose methods change those
  fields; each method is proved equal to a step function on values, and the theorems are about every run of those steps.
  Where calls interleave, a method is tied to the machine below: its fields after it are those of the machine after its
  events (`Forwarding`, `CachedDiscovery`, `AtomicGate`).
- Code that takes its locks (or does its atomic operations) at separate moments is a state machine with one event per
  such moment: the compare-and-swap gate, the per-upstream permits, calls to one upstream, the tools cache, HTTP
  counters. A run is any sequence of events. An event that is not possible where it stands changes nothing.
- Loops of the source are loops here: the compare-and-swap loops, the limiter's sum, the retry loop, the
  cursor-following client, the histogram lines, header parsing, report grouping, key cleanup.

Time is a number given to each operation, random values are parameters, SHA-256 is an injective constructor, money and
latency are `real`, and an upstream answers however it likes unless a theorem says that it is itself this gateway.

## What turned out different from what the code or its documentation suggests

- *Limiter.* The clock is read before the lock is taken, so requests can enter with stamps out of order. With a skew of
  s ms (the longest wait between the two, `SkewIsDelay`) the guarantee holds for windows of 1000 - s ms and for no
  longer ones: a request that comes in late finds the stamps of its own window already pruned (`LateStampExceeds`).
  Also, `now.saturating_sub(1000)` is 0 until the clock reads 1000, and stamps must be newer than it, so requests
  stamped 0 are forgotten at once. Both are in the exact statement `SlidingWindowSafety`. The global limit counts stale
  stamps too: those of addresses that have not been checked since are still stored, so a stamp three seconds old can
  refuse the only request of the last second (`StaleStampRefuses`; when exactly: `GlobalRefusalIsExact`).
- *Breaker.* The repository's own README.md (line 216) says that the circuit opens after five consecutive failures. A
  call that leaves by an early return (an oversized or unreadable body, a 4xx status) neither counts nor resets, so
  "consecutive" means since the last success. A probe that leaves that way keeps the breaker half-open: nothing is
  admitted again (`EarlyProbeBlocksForever`; `SixCallsBlockForever` is a run of six calls that gets there), unless an
  older call is still running or `unregister_upstream` removes the breaker (`ProbeRecoversExactly`). Deleting the
  upstream through the admin interface and adding it again, even under another URL, does not help: that keeps breaker
  and metrics (`AdminDeletionKeepsAll`, `AdminDeletionKeepsBlocking`).
- *Tools cache.* A fetch that overlaps a registry change can store the old registry's tools after the change was
  invalidated (`OverlapServesStale`). It stores a good list exactly when the registry at its store is the one of its
  snapshot (`CacheAgreesExactly`), which the program does not test.
- *Tenant filter.* A pattern `x.*` shows tools in `tools/list` that `can_call_tool` then refuses, because the Python
  side compares names literally (`VisibleIsCallableExactly`). Upstream names with a dot do not route back
  (`ListedRoutesBackExactly`), and nothing at registration refuses them. An upstream named like the prefix of a dotted
  local tool hides that tool (`LocalToolReachedExactly`).
- *Quota.* `quota_rps` bounds n whole seconds by n + 1 quotas, and two full quotas can fall within a microsecond; for
  every length of interval the exact bound is known (`EnforcedExactly`), and it is one quota only for a single moment
  (`OneQuotaExactly`).
- *Tenants.* `add_tenant` does not refuse an API key in use. The index then loses the older tenant and a removal can
  raise `KeyError`.
- *Trace context.* Generated trace ids have 16 hexadecimal digits, half of what W3C Trace Context section 3.2 asks for;
  `extract_context` accepts any four parts. A context whose ids or baggage are not clean does not survive
  (`RoundTripExactly`).
- *Dead letters.* Replaying directly runs the handler again for a message that was already successful or archived
  (`HandlerRunsExactly`). A message that used its last retry stays RETRYING until it is replayed directly once more or
  archived (`ExhaustedUntilTouched`). A pending message without a handler stays pending for ever
  (`ReplayingTerminatesExactly`).
- *Billing.* TIERED pricing charges no price per call and `free_tier_calls` is never read. A minimum above the maximum
  is overridden (`ChargeWithinBoundsExactly`). A record stamped exactly at a month boundary is on two invoices
  (`InvoicedOnceExactly`).
- *API keys.* Rotating a key whose permissions were set to an empty list grants `tools:call`
  (`RotateKeepsPermissionsExactly`).

## Model

| member | source | states |
|---|---|---|
| RateLimiter.Limiter.CheckRateLimit | src/lib.rs:508-548 | The in-place sweep, prune, push and two refusals leave exactly the table and verdict of the step function over which the runs below are proved |
| RateLimiter.SumOfLengths | src/lib.rs:537-539 | The loop over the map's vectors gives the number of stored stamps |
| RateLimiter.SkewIsDelay | src/lib.rs:513-520 | Stamps are out of order by at most s ms if and only if some times of taking the lock, in order, are each at most s ms after the request read its clock |
| LimiterWindows.WindowBound | src/lib.rs:508-548 | In every run of skew s and every window of at most 1000 - s ms from the epoch on, accepted requests of an address are at most the per-address limit and of all addresses at most the global limit |
| LimiterWindows.SlidingWindowSafety | src/lib.rs:508-548 | For every start of the clock, skew and positive length: every window of that length in every such run respects both limits if and only if the clock never reads zero and length and skew make at most 1000 ms |
| LimiterWindows.LateStampExceeds | src/lib.rs:513-535 | The input on which skew fails it: after two requests and one 1000 ms later, a request that read its clock before that one is accepted as a third of its window, under a limit of two |
| LimiterWindows.TwoAtTheEpoch | src/lib.rs:518 | The input on which it fails: under a limit of one, two requests at time zero are both accepted |
| LimiterHistory.IpRefusalIsExact | src/lib.rs:530-533 | In every run a request is refused for its address only if at least the limit of that address's requests, globally refused ones included, were recorded in the last 1000 ms, and it is if as many were in that time less the skew of the stamps before it: exactly so when none is ahead of it |
| LimiterHistory.RefinesNaive | src/lib.rs:508-548 | If the global limit never refuses, a request is accepted if fewer than the limit were accepted from its address in the last 1000 ms, and only if fewer were in that time less the skew of the stamps before it: exactly the naive rule when none is ahead of it |
| LimiterHistory.GlobalRefusalIsExact | src/lib.rs:535-544 | In every run of stamps in order a request is refused globally exactly when its address has room and the stamps recorded in its window, its own included, plus the stale stamps of other addresses exceed the global limit; under skew the same history brackets the verdict from both sides |
| LimiterHistory.SweepsOncePerMinute | src/lib.rs:520-525 | In every run the table is swept by the first request more than 60 s after the last sweep, and by no other |
| LimiterHistory.StoredIsFromHistory | src/lib.rs:520-535 | In every run an address has stored what was in the window of its last check, unless a sweep since has found none of it in its own window: exactly so for stamps in order, and under skew between the counts for windows that start when they do and later by the skew |
| LimiterHistory.StaleStampRefuses | src/lib.rs:537-544 | The input on which pruning shows: one stamp of another address, three seconds old, refuses the only request of the last second |
| LimiterMemory.StaysSmall | src/lib.rs:520-528 | After every check of every run each stored address has between one and the limit of stamps, one of them newer than now - 61 s - skew |
| RateLimiter.StoredIsRecorded | src/lib.rs:526-535 | In every run the lazily pruned table holds, above any cutoff that no window has started after, what was recorded there |
| RateLimiter.RecordCounts | src/lib.rs:526-535 | One call adds exactly its own stamp, at its own address, above every cutoff in the window |
| RateLimiter.SweepKeepsWindow | src/lib.rs:521-524 | The once-a-minute sweep removes no stamp that is inside the window |
| AtomicPermits.CounterCountsPermits | src/lib.rs:416-465 | In every interleaving of the atomic steps the counter is the number of live permits, never negative and never above the largest limit passed |
| AtomicPermits.AdmittedBelowLimit | src/lib.rs:446-462 | A thread that has read the counter below its limit wins exactly when the counter still has that value, and then raises it by one to at most the limit |
| AtomicPermits.PeakIsHighest | src/lib.rs:426-439 | The peak never goes down, never exceeds the counter's historical maximum, and equals it whenever no thread is inside `update_peak` |
| AtomicPermits.UpdatePeakTerminates | src/lib.rs:426-439 | Whatever the other threads do, and however many spurious failures come between, at most value - seen other attempts of `update_peak` are made; as many end it |
| AtomicPermits.SpuriousFailuresNeverEnd | src/lib.rs:429-437 | Nothing bounds the spurious failures of the weak compare-and-swap: any number of them may leave everything as it was |
| AtomicGate.SharedGate.TryAcquireAtomic | src/lib.rs:441-465 | The loop of one thread, with arbitrary steps of the others before each of its atomic instructions, refuses only when the counter has reached the limit, grants only with the permit counted and published, and leaves exactly the gate of that interleaving |
| AtomicGate.SharedGate.UpdatePeak | src/lib.rs:426-439 | Among the others' steps the publishing loop ends only when the peak is at least its value |
| AtomicGate.WovenIsARun | src/lib.rs:426-465 | What the loops do is the interleaving of exactly the given events of the other threads with the thread's own instructions, begun with its limit, so all theorems on interleavings hold of it |
| AtomicGate.AloneItDecides | src/lib.rs:441-465 | Left alone they take four instructions at most: a refusal at the limit that changes nothing, or one more permit and the peak at the highest of its old value and the new count |
| UpstreamPermits.ActiveCalls.Enter | src/lib.rs:486-494 | The block under the first mutex grants exactly when the count of the name is below the limit, with the count raised by one; a refusal leaves the entry that `or_insert(0)` made |
| UpstreamPermits.ActiveCalls.PublishPeak | src/lib.rs:496-501 | The block under the second mutex raises the peak of that name to the count it was given |
| UpstreamPermits.ActiveCalls.Drop | src/lib.rs:471-482 | A drop lowers the count of its name and removes the entry at zero |
| UpstreamPermits.ActiveCountsPermits | src/lib.rs:467-506 | In every interleaving the active count of a name is the number of its live permits and never exceeds the largest limit |
| UpstreamPermits.AcquireIsExact | src/lib.rs:484-494 | In every run a call gets its permit exactly when fewer calls than the limit have one for that name |
| UpstreamPermits.PeakIsHighest | src/lib.rs:496-501 | The recorded peak of a name never exceeds its highest number of permits, and equals it whenever no call of that name is between the two locks |
| UpstreamPermits.NoZeroEntriesExactly | src/lib.rs:1357-1372 | No run leaves a zero entry if and only if limits are non-zero, which is what `set_runtime_limits` enforces |
| UpstreamPermits.DrainsToEmpty | src/lib.rs:471-482 | Once every permit has been dropped nothing is left in the map |
| Forwarding.Registers.CountRequest | src/lib.rs:1095-1100 | Adds one to the requests of that name only, creating the entry |
| Forwarding.Registers.CountRetry | src/lib.rs:1252-1257 | Adds one to the retries of that name only |
| Forwarding.Registers.CountSuccess | src/lib.rs:1223-1230 | Adds one to the successes of that name only |
| Forwarding.Registers.CountFailure | src/lib.rs:1294-1301 | Adds one to the failures of that name only |
| Forwarding.Registers.AdmitCall | src/lib.rs:1102-1142 | The admission block: refused while open for less than 30 s or while a probe is out, otherwise admitted, as the probe if the breaker is open; other upstreams are untouched |
| Forwarding.Registers.RecordExhausted | src/lib.rs:1271-1291 | An exhausted call adds a failure and opens the breaker when it was half-open or the count reaches five |
| Forwarding.Registers.UnregisterUpstream | src/lib.rs:1326-1346 | For a registered name exactly the machine's three steps, in every state of the machine; nothing otherwise, and nothing to any other name |
| Forwarding.Registers.AdminDeleteServer | src/lib.rs:1824-1842 | Only the registry entry of that name goes; its breaker and metrics stay |
| Forwarding.Registers.Attempt | src/lib.rs:1146-1269 | The retry loop makes attempts up to the first decisive outcome or three, counts one retry between two attempts and sleeps the sum of 50·2^i ms plus jitter, 150 to 200 ms when exhausted |
| Forwarding.Registers.Conclude | src/lib.rs:1210-1301 | A good end closes the breaker and counts one success, an exhausted one counts one failure in breaker and counters, an early return writes nothing |
| Forwarding.Registers.ForwardToUpstream | src/lib.rs:1074-1306 | A whole undisturbed call, said outright: when it is denied, how many attempts it makes, and for a good, an early and an exhausted end the answer, the breaker and all four counters; these are also what its events leave in the machine whatever other calls have done before; an unknown upstream and every other one are unchanged |
| CircuitBreaker.EffectsAre | src/lib.rs:1102-1301 | The effects of a whole call, on which the machine and the code agree, are those outright statements, for every state of breaker and counters |
| CircuitBreaker.SleepsDouble | src/lib.rs:1259-1268 | The sleeps are 50 and 100 ms plus jitter |
| UpstreamCalls.UndisturbedCall | src/lib.rs:1093-1306 | From any state of a registered upstream the events of one undisturbed call leave exactly the breaker, the counters and the early returns of the whole call, and no call behind |
| UpstreamCalls.TriesEnd | src/lib.rs:1146-1269 | After n attempts the call in the machine knows its attempts and its sleep and has counted n - 1 retries |
| UpstreamCalls.BreakerRefinesLog | src/lib.rs:1102-1142 | In every interleaving of calls, unregistrations and admin deletions, `failures` is the number of exhausted calls since the last success or removal of the breaker, `opened_at` is set exactly when that is at least five, to the time of the latest one, and `half_open` implies it is set |
| UpstreamCalls.AdmissionIsExact | src/lib.rs:1102-1142 | In every interleaving a call that knocks is let in if and only if, by the log of finished calls and admissions, fewer than five were exhausted since the last success or removal, or the latest of them was 30 s ago or more and none has been let in since |
| UpstreamCalls.OneProbePerOpening | src/lib.rs:1115-1141 | From any open breaker and until a finished call writes to it, at most one call is admitted, none if a probe is already out; if nothing was running, at most one call ever runs |
| UpstreamCalls.ProbeWaitsForTheTimeout | src/lib.rs:1115-1125 | In every interleaving a call passes an open breaker only 30 s or more after the latest exhausted call, which came with five or more failures in a row |
| UpstreamCalls.ProbeRecoversExactly | src/lib.rs:1127-1141 | While half-open, some continuation, admin deletions and new registrations included, admits another call if and only if some call is still running or the breaker may be removed, which only `unregister_upstream` does |
| UpstreamCalls.EarlyProbeBlocksForever | src/lib.rs:1193-1208 | A lone probe that leaves by an early return blocks its upstream: no later run in which the breaker is not removed admits any call |
| UpstreamCalls.SixCallsBlockForever | src/lib.rs:1093-1306 | The program gets there: a registration, five exhausted calls of 150 ms each, and one 30 s later that ends in an early return, lead to a breaker that never admits a call again unless it is removed |
| UpstreamCalls.StuckRunIsTimed | src/lib.rs:1251-1268 | The clock readings of that run never go back |
| UpstreamCalls.AdminDeletionKeepsAll | src/lib.rs:1798-1842 | Deleting a registered upstream through the admin interface and adding it again changes nothing in its breaker, metrics and calls |
| UpstreamCalls.AdminDeletionKeepsBlocking | src/lib.rs:1824-1842 | The stuck upstream is as stuck after that as before |
| UpstreamCalls.CallAccounting | src/lib.rs:1095-1301 | In every interleaving requests = successes + failures + calls in flight + early returns, up to exactly the calls that were in flight when `unregister_upstream` last removed the metrics |
| UpstreamCalls.CountersAreCounts | src/lib.rs:1095-1301 | In every interleaving each of the four counters is the number of its own events since the metrics were last removed: requests asked, successes, denied and exhausted calls, retries |
| UpstreamCalls.ExhaustedAfterThreeAttempts | src/lib.rs:1146-1269 | In every interleaving a call that gives up made exactly three attempts and slept between 150 and 200 ms |
| UpstreamCalls.RetriesAtMostTwicePerRequest | src/lib.rs:1251-1257 | In every interleaving retries, with those that calls in flight may still count, never exceed twice the requests, but for what was left to the calls in flight when the metrics were last removed |
| Decimal.PrintedDigits | src/lib.rs:3333-3335 | A printed cursor is a non-empty string of digits that denotes its offset |
| Decimal.ParsePrint | src/lib.rs:3307-3336 | Every printed offset that fits `usize` parses back to itself, and no other printed number parses |
| Decimal.ParseExactly | src/lib.rs:3307-3312 | A cursor reads as n if and only if it is n in decimal, with any leading zeros and at most one plus sign, and n fits 64 bits |
| ToolOrder.SortSorts | src/lib.rs:3233-3245 | In the result of the sort each name is at or before the next in the order of byte strings, and it holds the same tools |
| ToolOrder.NameLeqIsLexicographic | src/lib.rs:3244 | The order of names: a prefix comes first, otherwise the smaller character at the first difference |
| ToolOrder.SortIsStable | src/lib.rs:3233-3245 | Tools with one name keep their relative order |
| ToolOrder.SortedUnique | src/lib.rs:3233-3245 | Two sorted arrangements of the same tools are equal when no two different tools share a name |
| ToolOrder.OrderIrrelevantExactly | src/lib.rs:3213-3245 | The sorted list is independent of the order of the registry and of the joined results if and only if no two different tools share a name |
| ToolListing.ToolsList | src/lib.rs:3213-3336 | One `tools/list` request returns the page of the sorted filtered list at its cursor, with the counts before and after the client's filters |
| ToolListing.FilterTools | src/lib.rs:3247-3305 | The successive in-place `retain`s keep exactly the tools that pass all filters at once |
| ToolListing.CutPage | src/lib.rs:3307-3336 | The page and the next cursor for a cursor, malformed and oversized ones included |
| ToolListing.ListingIsSortedAndFiltered | src/lib.rs:3213-3303 | In the list each name is at or before the next in the order of byte strings, and it holds each tool as often as before if it passes the filters, and not at all otherwise |
| ToolListing.KeepsExactly | src/lib.rs:3247-3303 | What passes: names the tenant may see, of a namespace the name itself and what begins with it and a dot, and for a search a lower-case name or description that has the lower-case query in it |
| ToolListing.OddCursors | src/lib.rs:3307-3319 | A malformed cursor restarts at the beginning, one past the end gives an empty last page |
| ToolListing.PageAtCursor | src/lib.rs:3307-3336 | Any offset in the list, a multiple of 100 or not, is a cursor to the next hundred tools, with the next cursor a hundred later if there are more |
| ToolListing.PageWalkIsExact | src/lib.rs:3213-3336 | Following `nextCursor` over independent requests, each seeing the tools in its own order, yields the sorted filtered list with no gap or repeat, and ends after exactly max(1, ceil(n/100)) requests |
| Discovery.FetchUpstream | src/lib.rs:960-1047 | The client's loop holds, after any number of turns, what the turns of the client function give, for an arbitrary upstream |
| Discovery.PrefixedExactly | src/lib.rs:1017-1034 | Of any page exactly the tools with a textual name are kept, in order, each under the upstream's name, a dot and its own |
| Discovery.ClientFollowsWalk | src/lib.rs:963-1045 | Against this paging server the client follows the page walk step by step, names prefixed |
| Discovery.DiscoveryIsExact | src/lib.rs:963-1047 | Pointed at another gateway with fixed, distinctly named tools, the client ends after exactly the requests its pages need, with the whole sorted list, each name prefixed |
| Discovery.FailureLeavesPrefix | src/lib.rs:990-1015 | If a page request fails, the client ends with a prefix of that list: the pages before the failure |
| Discovery.EndlessUpstream | src/lib.rs:1036-1045 | An upstream that always sends another cursor keeps the loop running for ever |
| CachedDiscovery.ToolsGateway.Lookup | src/lib.rs:930-945 | A lookup serves the stored list exactly when it is younger than the TTL; if no fetch has overlapped a change and nothing awaits invalidation, it is as good as a fresh fetch |
| CachedDiscovery.ToolsGateway.StoreTools | src/lib.rs:1059-1064 | The end of a fetch is the machine's store event: cache, registry and TTL stay those of the machine |
| CachedDiscovery.ToolsGateway.ListUpstreamTools | src/lib.rs:930-1067 | Undisturbed, a whole request returns what a fresh fetch would after a miss, and after a hit whenever no fetch has overlapped a change and nothing awaits invalidation |
| CachedDiscovery.ToolsGateway.InvalidateToolsCache | src/lib.rs:1309-1317 | Emptying the cache is the machine's invalidation when a change awaits it, and its clear otherwise |
| CachedDiscovery.ToolsGateway.RegisterUpstream | src/lib.rs:1561-1576 | Undisturbed, a registration owes no invalidation at its end and leaves nothing to serve |
| CachedDiscovery.ToolsGateway.UnregisterUpstream | src/lib.rs:1326-1350 | Removes and invalidates exactly when the name was registered, and owes no invalidation at its end |
| CachedDiscovery.ToolsGateway.SetToolsCacheTtl | src/lib.rs:1498-1508 | Refuses zero; any other TTL takes effect with an empty cache |
| ToolsCache.Collect | src/lib.rs:1051-1057 | Joining the tasks in whatever order they finish gives the tools of every registered upstream, as a multiset |
| ToolsCache.HitAgreesWithFreshFetch | src/lib.rs:930-1067 | In every interleaving in which no fetch overlaps a registry change, a hit taken when no change awaits its invalidation returns the multiset a fresh fetch would |
| ToolsCache.HitServesASnapshot | src/lib.rs:947-1067 | In every interleaving a hit serves the list for one fetch's snapshot of the registry, stored less than one TTL ago |
| ToolsCache.ServedUntilExpiry | src/lib.rs:930-941 | After a store a lookup is a hit exactly before the list is one TTL old, and a miss from then on |
| ToolsCache.CacheAgreesExactly | src/lib.rs:930-1067 | In every interleaving, overlaps included, a list cached while nothing awaits invalidation agrees with a fresh fetch, whatever the upstreams answer, if and only if the registry at its store was the one of its snapshot |
| ToolsCache.OverlapServesStale | src/lib.rs:1326-1350 | The run in which an overlapping fetch stores after the invalidation, and a hit serves the tools of an upstream that is gone, which a fresh fetch would not |
| HttpMetrics.Histogram.RecordLatency | src/lib.rs:139-145 | One latency adds one to exactly the first slot that holds it |
| HttpMetrics.Histogram.BucketLines | src/lib.rs:2417-2430 | The cumulative lines are the numbers of observed latencies at or below 1, 5, 10, 25, 50, 100, 250, 500, 1000, 2500 and 5000 ms, and `+Inf` the number of all, for every observation sequence |
| HttpMetrics.AtMostCounts | src/lib.rs:2417-2430 | The count behind a line is the number of observations at or below its bound |
| HttpMetrics.OneMore | src/lib.rs:2417-2430 | One more latency raises exactly the cumulative counts from its slot on |
| HttpMetrics.BucketsAreMonotone | src/lib.rs:2417-2430 | No bucket counts more than a later one |
| HttpMetrics.RequestAccounting | src/lib.rs:2747-2967 | In every interleaving of the separate updates total = completed + rejected + in progress, completed is the `+Inf` bucket plus the requests between their updates, and the latency sum is that of the histogram plus the latencies of the requests between those two |
| HttpMetrics.CountersAreCounts | src/lib.rs:2747-2967 | In every interleaving total, rejected and completed are the numbers of arrivals, rejections and completions, and sum and histogram hold the latencies of their own updates |
| ToolAccess.SplitListed | src/lib.rs:1030 | The listed name of a tool splits back into upstream and remote name, dots in the remote name included |
| ToolAccess.ListedRoutesBackExactly | src/lib.rs:3427-3442 | Each listed name of an upstream routes back to it with its remote name if and only if the upstream's name has no dot |
| ToolAccess.LocalToolReachedExactly | src/lib.rs:3427-3433 | A name routes to a tool of the gateway itself if and only if no registered dot-free upstream name is its prefix up to a dot |
| ToolAccess.CallableIsVisible | kurd/multitenancy.py:47-51 | Every tool a tenant may call survives its list filter |
| ToolAccess.PatternReaches | src/lib.rs:277-287 | `*` reaches every name, `p.*` exactly p and what begins with p and a dot, any other pattern exactly itself |
| ToolAccess.VisibleIsCallableExactly | src/lib.rs:257-287 | Every visible tool is callable if and only if the tenant is unrestricted or none of its patterns ends in `.*` |
| TenantQuota.IntervalBound | kurd/multitenancy.py:53-73 | In every run with `get_quota_remaining` calls anywhere, an interval of any length holds at most one quota of accepted calls for each window that can meet it |
| TenantQuota.QuotaBound | kurd/multitenancy.py:53-73 | n whole seconds of every run hold at most (n + 1) quotas |
| TenantQuota.VerdictIsExact | kurd/multitenancy.py:53-73 | In every run a call is accepted if and only if fewer than the quota have been since the last reset, or none count because it was more than a second ago; what remains is the difference |
| TenantQuota.BoundIsAttained | kurd/multitenancy.py:53-64 | For every quota and every length of interval some run attains the bound: (n + 1) quotas in n seconds for n up to a million |
| TenantQuota.EnforcedExactly | kurd/multitenancy.py:53-73 | A bound holds of all intervals of a length in all runs if and only if it is at least that one |
| TenantQuota.OneQuotaExactly | kurd/multitenancy.py:53-73 | One quota per interval is enforced if and only if the interval is a single moment or nothing is accepted at all |
| Tenants.Tenant.CheckQuota | kurd/multitenancy.py:53-64 | The field updates leave the window and give the answer of the step function that `QuotaBound` is about |
| Tenants.Tenant.GetQuotaRemaining | kurd/multitenancy.py:66-73 | Refreshes the window, and is positive exactly when a call at that moment would be accepted |
| Tenants.TenantManager.AddTenant | kurd/multitenancy.py:83-118 | Refuses an id in use; the key index stays the inverse of the tenants exactly when the key was not in use |
| Tenants.TenantManager.RemoveTenant | kurd/multitenancy.py:120-128 | Removes tenant and index entry; raises exactly when the key has no index entry, which cannot happen while the index is the inverse |
| Tenants.TenantManager.ValidateRequest | kurd/multitenancy.py:141-166 | The four refusals in their order; only a request accepted up to the quota consumes any, and only its own tenant's |
| Tenants.TenantManager.KeyFindsItsTenant | kurd/multitenancy.py:130-135 | While the index is the inverse, a key finds exactly the tenant, with a non-empty id, that has it |
| TraceContext.ExtractContext | kurd/distributed_tracing.py:177-219 | The parsing loop builds the context of the extraction function, for every header map |
| TraceContext.ExtractDefaults | kurd/distributed_tracing.py:192-213 | Without a `traceparent` of four parts the ids are new and the flags "01", an empty id is replaced, and without a `baggage` header there is no baggage |
| TraceContext.InjectedHeaders | kurd/distributed_tracing.py:230-242 | Injection writes version 00 with the new span id, the old one in `tracestate`, and `key=value` items of a non-empty baggage |
| TraceContext.JoinAppends | kurd/distributed_tracing.py:239-240 | Two items are separated by a comma and a space |
| TraceContext.TraceParentRoundTrip | kurd/distributed_tracing.py:200-204 | An injected `traceparent` splits into its four parts if trace id and flags have no dash, and is rejected otherwise |
| TraceContext.BaggageRoundTripExactly | kurd/distributed_tracing.py:212-240 | A non-empty baggage survives its header, in whatever order it is written, if and only if keys have no comma or equals sign, values no comma, and neither outer whitespace |
| TraceContext.RoundTripExactly | kurd/distributed_tracing.py:177-242 | Extracting what was injected gives back trace id, flags and the whole baggage if and only if ids and baggage are clean; the span id is then the downstream one |
| DeadLetters.DelayDoublesToAnHour | kurd/dead_letter_queue.py:141-143 | The delay is 60·2^n seconds up to n = 5 and an hour after that, and never shrinks |
| DeadLetters.DeadLetterQueue.AddMessage | kurd/dead_letter_queue.py:136-165 | Adds one pending row with its delay and changes no other |
| DeadLetters.DeadLetterQueue.ReplayMessage | kurd/dead_letter_queue.py:181-262 | The five outcomes of a replay, each with the row and the history it leaves, field by field |
| DeadLetters.DeadLetterQueue.ArchiveMessage | kurd/dead_letter_queue.py:379-388 | Marks one row as archived |
| DeadLetters.RetryCountIsHistory | kurd/dead_letter_queue.py:181-262 | In every run a row's retry count is its initial one plus its failed rows in the history, and never exceeds max(initial, max_retries) |
| DeadLetters.RowIsItsLife | kurd/dead_letter_queue.py:136-402 | In every run the row of a message is what its own operations made of it: waiting with a due time, settled, archived or gone |
| DeadLetters.PendingIsExact | kurd/dead_letter_queue.py:304-333 | In every run a message is pending if and only if it waits, has retries left, and its delay since it was added or last failed (60 s doubling to an hour) is over |
| DeadLetters.PendingReplayWorks | kurd/dead_letter_queue.py:304-333 | Replaying a pending message whose tool has a handler calls the handler and lowers the measure: retries left over the replayable rows |
| DeadLetters.ReplayingPendingTerminates | kurd/dead_letter_queue.py:304-333 | With a handler for every replayable row, replaying only what is pending makes at most that many replays, and each message succeeds at most once among them |
| DeadLetters.ReplayingTerminatesExactly | kurd/dead_letter_queue.py:304-333 | Replaying only what is pending is bounded if and only if every replayable row has a handler |
| DeadLetters.ExhaustedUntilTouched | kurd/dead_letter_queue.py:198-206 | In every continuation of a run an exhausted message is never pending again, and stays RETRYING if and only if it is neither replayed directly nor archived |
| DeadLetters.LastFailureIsFinal | kurd/dead_letter_queue.py:234-262 | So it is from the failure of a message's last retry on |
| DeadLetters.RunExhausts | kurd/dead_letter_queue.py:136-262 | For every positive maximum a run gets there |
| Billing.CalculateCost | kurd/billing.py:167-198 | The reassignments of `cost` give the price function that ledger and bounds are about |
| Billing.PriceByModel | kurd/billing.py:167-198 | The price for each pricing model: call, latency and token charges raised to the minimum and cut to a non-zero maximum; nothing for an unpriced tool |
| Billing.ChargeWithinBoundsExactly | kurd/billing.py:193-198 | Every charge lies between the minimum and a non-zero maximum if and only if these do not cross |
| Billing.BillingManager.SetPricing | kurd/billing.py:95-108 | New prices replace those of the same tools and leave the others |
| Billing.BillingManager.ResetTenantQuota | kurd/billing.py:358-362 | Empties the counters of an existing quota and keeps its maxima |
| Billing.BillingManager.CheckQuota | kurd/billing.py:200-215 | True exactly when there is no quota or both maxima, where non-zero, leave room |
| Billing.BillingManager.Track | kurd/billing.py:138-165 | A call beyond its quota changes nothing; any other appends one record with its tenant, tool, time, latency, outcome and price, and adds it to its tenant's quota |
| Billing.QuotaCountsRecords | kurd/billing.py:138-165 | In every run a tenant's call count and cost are the count and the sum of its records since the quota was last set or reset, and never exceed non-zero maxima |
| Billing.TrackedExactly | kurd/billing.py:138-165 | In every run a call is tracked if and only if its tenant has no quota or the records since it was last set or reset leave room under both non-zero maxima |
| Billing.GroupByTool | kurd/billing.py:243-261 | The grouping loop gives one group for each tool: number, successes, failures, costs and latencies of that tool's records; the groups add up to all records |
| Billing.GetUsageReport | kurd/billing.py:229-274 | The totals of a report are number, successes, failures, sum of costs and sum of latencies of the selected records, and the sums over its groups, which are the same of their tools' records |
| Billing.SelectedExactly | kurd/billing.py:229-233 | The selection holds each record as often as the ledger if it is the tenant's and in the period, both ends included, and not at all otherwise |
| Billing.ReportAddsUp | kurd/billing.py:229-240 | The totals of a report are what each record of the ledger adds to the period on its own |
| Billing.MonthsAdvance | kurd/billing.py:282-290 | The end date is the start plus the length of the month, leap years and the December branch included |
| Billing.YearsInClosedForm | kurd/billing.py:282-290 | Those lengths add up to the Gregorian calendar: its closed form for the days before a year |
| Billing.MonthsInClosedForm | kurd/billing.py:282-290 | The days before each month of a year |
| Billing.SplitSpan | kurd/billing.py:229-240 | Two adjoining periods together count the whole period, and exactly what is stamped at the shared moment twice |
| Billing.InvoiceIsStats | kurd/billing.py:276-316 | An invoice charges the sum of the costs of the tenant's records from the first of the month to the first of the next |
| Billing.InvoicesCoverTheSpan | kurd/billing.py:276-292 | The invoices of n consecutive months add up to the usage of the whole span plus once more that stamped exactly at the inner month boundaries |
| Billing.InvoicedOnceExactly | kurd/billing.py:276-292 | Every moment of the span is in exactly one invoice, except that one at an inner boundary is in two; no other moment is in any |
| ApiKeys.APIKeyManager.GenerateKey | kurd/api_key_management.py:104-138 | Stores one key under its id and its hash, overwriting what it finds there; the two maps stay inverse exactly when both are new or already belong together |
| ApiKeys.APIKeyManager.ValidateKey | kurd/api_key_management.py:150-170 | Gives the verdict for the key and marks its use only when it is valid |
| ApiKeys.APIKeyManager.RotateKey | kurd/api_key_management.py:183-211 | Generates the successor and revokes what the index then gives for the old key, or does nothing when the old one is unknown, revoked or expired |
| ApiKeys.APIKeyManager.RevokeKey | kurd/api_key_management.py:223-238 | Revokes the key the index gives |
| ApiKeys.APIKeyManager.SetKeyPermissions | kurd/api_key_management.py:279-294 | Replaces the permissions of the key the index gives |
| ApiKeys.APIKeyManager.CleanupExpiredKeys | kurd/api_key_management.py:313-328 | The two loops leave exactly the keys that are not both revoked and past their expiry, with their index entries, and count the others |
| ApiKeys.ExpiredEntries | kurd/api_key_management.py:318-322 | The first loop lists every removable key once, with its hash |
| ApiKeys.GenerateKeepsIndexExactly | kurd/api_key_management.py:128-129 | Generating keeps the maps inverse if and only if id and hash are both new or already belong together |
| ApiKeys.IndexStaysInverse | kurd/api_key_management.py:104-328 | In every run with new random ids and keys, `keys` and `key_hashes` stay inverse |
| ApiKeys.ValidateIsAScan | kurd/api_key_management.py:150-170 | In every such run each verdict on a key is that of a scan of all keys for its hash |
| ApiKeys.VerdictIsItsLife | kurd/api_key_management.py:104-328 | In every such run the verdict on a key is what its own operations made of it, without ids and maps: accepted for its tenant from generation or rotation until revocation, rotation or expiry, refused then, and unknown before and once cleaned up |
| ApiKeys.OneValidKeyPerLineage | kurd/api_key_management.py:183-211 | In every such run a rotation lineage has at most one valid key, and each of its keys has the tenant the first was generated for |
| ApiKeys.RotateHandsOver | kurd/api_key_management.py:183-211 | A rotation makes the new key answer for the old one's tenant, refuses the old one from then on, and changes the verdict on no other key |
| ApiKeys.RotatedRecord | kurd/api_key_management.py:195-201 | The record of the new key field by field: tenant, name, default expiry, permissions |
| ApiKeys.RotateKeepsPermissionsExactly | kurd/api_key_management.py:195-201 | The new key has the old one's permissions if and only if there were any |
| ApiKeys.RefusedForever | kurd/api_key_management.py:47-57 | A key revoked, expired or unknown at one moment is accepted at no later one, unless it is drawn again at random |

## Left out

- HTTP, SSE, JSON, the MCP handshake, prompts, resources, PyO3 callbacks, OTLP export and log reloading: plumbing.
- URL validation, bearer and admin tokens, the IP allowlist, TLS and secrets backends: wrappers around the environment.
- A replay of a dead letter is one step. The source runs the handler between its SELECT and its UPDATE without a lock, so two simultaneous replays of one message can both succeed, or both count the same retry; the theorems are about replays one after the other.
- Threads inside the Python managers: their methods run one at a time.
- Poisoned locks, weak memory orderings and request cancellation: every lock is taken, atomics are sequentially consistent, a cancelled request stays in progress.
- Fixed-width counters: u32 and u64 do not overflow here; only the parsing of cursors has the width of `usize`.
- Threads: the critical sections are class methods, their interleavings are state machines on values, so aliasing between threads is not modelled.
- AtomicGate.SharedGate.UpdatePeak: may stop before the peak is published when its finite turns run out, as the acquisition around it.
- AtomicGate.SharedGate.TryAcquireAtomic: is given finitely many turns and may be cut off when they run out, while the source's loop runs on; `UpdatePeakTerminates` and `SpuriousFailuresNeverEnd` say when its second loop ends.
- Discovery.FetchUpstream: takes a bound on its turns, which the source's loop does not have; `EndlessUpstream` shows why one is needed, and the exact theorems say how many turns are used.
- Discovery of an upstream with a changing tool set, and page walks over one: the source promises nothing for them.
- `str::to_lowercase` is an arbitrary function in the search filter.
- The registry of local tools is a sequence in arbitrary order; descriptions and schemas are part of an opaque value.
- The per-call latency sums of upstream metrics: sums of the same kind as those modelled.
- The dead-letter queue's SQLite storage and text timestamps: rows are a map, the history a sequence, times seconds; negative retry counts, statistics and message lists are not modelled; `cleanup_archived` is a step of the runs, but not a method.
- Trace spans, timing and span export: lists that are only appended to.
- `update_tenant_quota`, `update_tenant_tools`, `enable_tenant` and `disable_tenant`: the quota theorems are about a constant quota, and an enabled flag or tool set is read as it stands.
- Tenant names, descriptions, metadata and status reports; key metadata, `get_key_info`, `get_tenant_keys` and the two audit logs: reporting.
- API key operations read the clock once here, while the source reads it again at each step of a rotation.
- The parsing of the invoice period "YYYY-MM", the derived averages and rates of reports, `get_top_tools_by_cost` and exports: one-line arithmetic or formatting.
- Billing.BillingManager.SetPricing: takes the parsed price table; the defaults of missing entries and the error for an unknown model are not modelled.
- Rounding of floating-point money, latencies and sums.
- Idempotency, persistence, webhooks, error recovery, resource limits, graceful shutdown, authorization, request validation, health checks, telemetry, distributed state and the CLI: repeats of the patterns above, or lookups and storage.
