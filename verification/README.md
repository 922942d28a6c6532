# YokedCache, modelled and proved

YokedCache is an asyncio cache library. Behind its I/O it is a handful of small
stateful protocols whose guarantees are about whole runs: one loader per key at a
time, tag invalidation that misses nothing, eviction that behaves like an LRU list, a
breaker that never wedges, refresh tasks that are never orphaned, stale values that
are served only when they may be. This project models those protocols in Dafny and
proves the guarantees, or, where the code does not give them, proves exactly when it
does and shows a run in which it does not.

`dafny verify dfyconfig.toml` checks everything.

## How it is built

Each component has a model on values (the state and what every operation does to it),
the object itself as a class whose methods are proved equal to that model, and the
theorems about all runs of the model.

| component | model | object | theorems |
|---|---|---|---|
| single-flight loading | `SingleFlight`, `InflightLocks` | `InflightLocks` | `SingleFlightSafety`, `SingleFlightTheorems`, `SingleFlightExactness`, `SingleFlightEconomy`, `SingleFlightOutcomes`, `SingleFlightValues`, `SingleFlightLimits` |
| in-memory backend | `MemoryModel` | `MemoryBackend` | `MemoryOrder`, `MemoryLru`, `MemoryEviction`, `MemorySweeps`, `MemoryHistory` |
| Redis backend | `RedisModel` | `RedisBackend` | `RedisTags`, `RedisHistory` |
| Memcached backend, keys | `Memcached`, `Keys` | `MemcachedBackend` | `Memcached`, `MemcachedHistory`, `Keys` |
| circuit breaker, retry | `BreakerModel`, `Retry` | `CircuitBreaker` | `BreakerHistory`, `Retry` |
| refresh scheduler | `SwrModel` | `SwrScheduler` | `SwrTracking`, `SwrHistory` |
| stale-if-error store | `StaleModel` | `StaleCache` | `StaleTheorems`, `StaleHistory` |
| prefix router | `Routes` | `PrefixRouter` | `Routes`, `PrefixRouter` |
| memoising decorator | `MemoModel` | `CachedFunction` | `MemoTheorems`, `MemoHistory` |
| metrics | `MetricsModel` | `CacheMetrics` | `MetricsModel` |

`Basics` holds the shared types, `OrderedDict` a dictionary with Python's insertion
order, and `SingleFlightRuns` the pieces from which example runs are put together.

The `History` modules and `SingleFlightValues` say what the stores hold and what the
calls answer as functions of the calls made alone, without the models' own steps.

Conventions. Tasks are program counters and a run between two awaits is one step. The
clock, random jitter, the answers of the backend, the outcome of a loader and the
choices of the scheduler are parameters of the steps, so the theorems hold for all of
them. Times are reals, except in the Redis model, which counts whole seconds. Keys are
taken as already built, except in `Keys`, `Memcached`, `SingleFlight` and the stale
store, where building them matters. Pattern matching, digests and key building are
function parameters.

## What turned out differently

- Two loaders for one key can overlap: `asyncio.Lock.release` unlocks before the
  waiter runs, and an eviction in that window drops the lock
  (`SingleFlightLimits.EvictionDuringHandOver`). The evictions that do harm are exactly
  those of a lock with a waiter that is not cancelled: without them exclusion holds
  (`SingleFlightTheorems.Exclusion`), and each of them can be continued to a violation
  (`SingleFlightExactness.UnsafeStepBreaksExclusion`). `FewKeysAreSafe` says when there
  are none.
- A loader can run twice without a failed load, a failed set or a removal: when the
  re-check under the lock fails into its fallback, or meets a payload that cannot be
  decoded, it counts as a miss (`src/yokedcache/cache.py:1231-1234`, `1172-1177`).
  `SingleFlightEconomy.UnexcusedReloadIff` says that this is the only way, and
  `FailedReadLoadsTwice` is a run. Other faulted reads cause no load.
- `YokedCache.set` resets the expiry of a tag set, and `expire` can lengthen the life of
  a key past it; either way invalidation can miss a live key, and two lemmas give runs.
  A key can be missed now or later exactly if one of its tag sets does not list it or
  expires before it (`RedisTags.EscapesIff`), and `StepMissesIff` says which steps bring
  that about. As long as `expire` lengthens no life, the backend's own calls never do,
  with a minute to spare (`OwnCallsKeepCover`). A key set in the middle of an
  invalidation of its tag can be missed by the next one
  (`SetDuringInvalidationEscapes`).
- A cancelled trial call (`asyncio.CancelledError` is not an `Exception`) leaves the
  breaker half open with nothing in flight; then only `reset` helps
  (`BreakerHistory.WedgedForever`, `CancelledTrialWedges`).
- `SWRScheduler.stop` does not wait for a task that was cancelled before it was called
  (`SwrTracking.CancelledTaskMayOutliveStop`); `UnfinishedAfterStop` says that no other
  task outlives it.
- The comment at `src/yokedcache/config.py:111` calls `stale_if_error_ttl` additional
  seconds; the code counts from the time of the set
  (`StaleTheorems.UnobservedExpiryIsServed`). An invalidation that fails part-way leaves
  stale entries for keys that are gone (`FailedInvalidationServesDeleted`).
- The comment at `src/yokedcache/decorators.py:192` says that the write-back is skipped
  when building the key failed; the asynchronous form also skips it when the read
  failed. `MemoModel.AfterRead` follows the code.
- `delete` on the in-memory backend can tell whether an expired key was swept
  (`MemorySweeps.DeleteSeesSweeps`), so sweeps are invisible only to get, set, exists
  and expire.
- With nested prefixes the router's `invalidate_pattern` misses keys
  (`Routes.NestedRoutesMissKeys`). `StarIsCompleteIff` says when it does not, and
  `PrefixRouter.OneMapIffReached` that this alone decides whether the router acts as one
  map; get, set and delete do under any routes.
- Memcached invalidation deletes keys that are built already and builds them again:
  a prefix that is not sanitised, or longer than 99 characters, makes it miss keys
  (`Memcached.CompleteIffGoodPrefix`).

## Model

| member | source | states |
|---|---|---|
| InflightLocks.EvictPassMakesRoom | src/yokedcache/cache.py:77-82 | the eviction pass frees a slot unless every lock it looked at is held |
| InflightLocks.EvictPassDropsJustEnough | src/yokedcache/cache.py:77-82 | it drops no lock more than it needs and leaves the others in their order |
| InflightLocks.EvictPassDropsOldest | src/yokedcache/cache.py:77-82 | when it drops a lock, every lock listed before it that is not held goes too |
| InflightLocks.LookupKeepsHeldLocks | src/yokedcache/cache.py:65-86 | a lookup returns the key's tracked lock or a new unlocked one, keeps the entry of every held lock, and lets the table exceed its limit only if all other tracked locks are held |
| InflightLocks.LookupKeepsOrder | src/yokedcache/cache.py:65-86 | the table stays in order of use: the key asked for is last, the rest keep their order, and eviction leaves no more room than for it |
| InflightLocks.InflightLockMap.GetItem | src/yokedcache/cache.py:65-86 | the loop over the ordered dictionary computes exactly that lookup |
| SingleFlightSafety.RunsAreSound | src/yokedcache/cache.py:1455-1530 | in every run, whatever is evicted: two keys never share a lock, a lock has one holder iff it is locked, its queue is exactly the tasks awaiting it |
| SingleFlightSafety.NextKeepsSound | src/yokedcache/cache.py:1497-1528 | each of the steps of fetch_or_set and _background_refresh keeps that |
| SingleFlightSafety.NoDeadlock | src/yokedcache/cache.py:1497-1507 | behind every unfinished task is one on the same lock that can move: no lost wake-up, no deadlock |
| SingleFlightTheorems.TrackedIffSafe | src/yokedcache/cache.py:70-82 | a step keeps every holder and every waiter that is not cancelled on the lock the table has for its key iff it evicts no lock with such a waiter |
| SingleFlightTheorems.SafeRunsAreTracked | src/yokedcache/cache.py:65-86 | so it is after any run of such steps |
| SingleFlightTheorems.Exclusion | src/yokedcache/cache.py:1497-1528 | in runs of such steps at most one task, caller or background refresh, is inside the critical section of a raw key, so at most one loader for it is in progress |
| SingleFlightExactness.UnsafeStepBreaksExclusion | src/yokedcache/cache.py:70-86 | the converse: after such a run every other step has a continuation with two tasks inside the critical section of one key |
| SingleFlightTheorems.NoHandOffIsSafe | src/yokedcache/cache.py:77-82 | an eviction pass harms nobody unless a tracked lock is between its release and the resumption of a waiter |
| SingleFlightTheorems.FewKeysAreSafe | src/yokedcache/cache.py:77-82 | if at most max keys are ever requested, exclusion holds unconditionally |
| SingleFlightEconomy.Economy | src/yokedcache/cache.py:1468-1507 | in safe runs there is, between two loader runs for a key, a failed load or set, a re-check under the lock that failed into a miss, or a removal or expiry of the slot |
| SingleFlightEconomy.UnexcusedReloadIff | src/yokedcache/cache.py:1498-1507 | with none of these since the last load, a caller that re-checks finds the value in the cache, and it starts the loader all the same iff that very read fails into a miss |
| SingleFlightOutcomes.UndisturbedRunsAgree | src/yokedcache/cache.py:1497-1507 | in safe runs with none of these, no refresh and no fault answered with another value, every task that was given a value was given the cached one, and nobody is still loading once it is cached |
| SingleFlightOutcomes.OneLoadOneValue | src/yokedcache/cache.py:1468-1507 | then all overlapping callers return one value, produced by the only loader run |
| SingleFlightValues.RunIsTold | src/yokedcache/cache.py:1466-1528 | in every run, refreshes, failures and evictions included: a slot holds what the last store of a caller or refresh, or the last write, put there, unless it was removed since; and each task has the key, loaded value and reply that its own actions gave it |
| SingleFlightValues.StoredIsLoaded | src/yokedcache/cache.py:1503-1528 | when the set of a caller or of a background refresh takes effect, the slot of its key holds what its loader returned, and all other slots are as before |
| SingleFlightValues.ReadsAnswerContent | src/yokedcache/cache.py:1467-1502 | a read that does not fail answers that content |
| SingleFlightValues.ReturnedIsGiven | src/yokedcache/cache.py:1466-1507 | a call returns v iff its last read found v, or that missed and its own loader returned v; a refresh returns nothing |
| SingleFlightValues.AskingForLock | src/yokedcache/cache.py:1497-1521 | a refresh gives up if the lock is held, a free lock is taken at once, by a caller to re-check and by a refresh to load, and otherwise the task is last in the queue |
| SingleFlightValues.RefreshCaches | src/yokedcache/cache.py:1469-1528 | from any point where a caller has found a stale value and the lock is free, the caller can return it and its refresh put the new one in the cache |
| SingleFlightValues.CancelledCallerLeaves | src/yokedcache/cache.py:1498-1502 | a caller cancelled while it waits leaves the queue |
| SingleFlightValues.FailureReleasesLock | src/yokedcache/cache.py:1498-1507 | a loader or set that fails ends its task and gives the lock back |
| SingleFlightLimits.UndisturbedRunExists | src/yokedcache/cache.py:1468-1507 | a run in which a caller loads, stores and returns a value undisturbed, so the statement above is not empty |
| SingleFlightLimits.EvictionDuringHandOver | src/yokedcache/cache.py:77-86 | a run with two loaders for one key in progress, through an eviction during a hand-over |
| SingleFlightLimits.FailedReadLoadsTwice | src/yokedcache/cache.py:1231-1234 | a run that is safe and loads twice because the re-check failed, nothing else having failed or gone |
| MemoryModel.ValidAfterApply | src/yokedcache/backends/memory.py:119-193 | every operation keeps the five dictionaries in agreement: equal domains, tag index and key tags inverse to each other, no empty tag set |
| MemoryModel.RemoveTwice | src/yokedcache/backends/memory.py:119-131 | removing keys one by one is removing the set |
| MemoryModel.RemoveNone | src/yokedcache/backends/memory.py:119-131 | removing keys that are not stored changes none of the dictionaries |
| MemoryBackend.MemoryBackend.RemoveKeyInternal | src/yokedcache/backends/memory.py:119-131 | the loop over the key's tags keeps agreement and removes the key from all five dictionaries |
| MemoryBackend.MemoryBackend.RemoveEach | src/yokedcache/backends/memory.py:108-109 | the removal loops remove the set of keys in whatever order they take them, and count them |
| MemoryBackend.MemoryBackend.EvictIfNeeded | src/yokedcache/backends/memory.py:133-144 | sorting by access time and removing the oldest keeps agreement and does what the model's eviction does |
| MemoryBackend.MemoryBackend.Get | src/yokedcache/backends/memory.py:146-164 | refines the model's get, hits and misses counted once each |
| MemoryBackend.MemoryBackend.Set | src/yokedcache/backends/memory.py:166-203 | refines the model's set: remove, store, tag, evict |
| MemoryBackend.MemoryBackend.Delete | src/yokedcache/backends/memory.py:205-215 | refines the model's delete |
| MemoryBackend.MemoryBackend.Exists | src/yokedcache/backends/memory.py:217-229 | refines the model's exists, counters untouched |
| MemoryBackend.MemoryBackend.Expire | src/yokedcache/backends/memory.py:231-240 | refines the model's expire |
| MemoryBackend.MemoryBackend.InvalidateTags | src/yokedcache/backends/memory.py:263-280 | collecting the sets of the tags and removing key by key refines one removal, and the number returned is added to the statistics |
| MemoryBackend.MemoryBackend.InvalidateMatching | src/yokedcache/backends/memory.py:242-261 | refines removal of the matching keys, with their number |
| MemoryBackend.MemoryBackend.Sweep | src/yokedcache/backends/memory.py:94-112 | refines removal of the expired keys |
| MemoryOrder.SortAscends | src/yokedcache/backends/memory.py:138-139 | the stable sort orders the keys by access time |
| MemoryOrder.SortWithout | src/yokedcache/backends/memory.py:138-139 | removing keys and sorting commute |
| MemoryOrder.TouchedIsLast | src/yokedcache/backends/memory.py:160-161 | a key whose access time is refreshed in place sorts last, the others keep their order |
| MemoryOrder.NewestIsLast | src/yokedcache/backends/memory.py:179-186 | a key inserted anew sorts last, also when its time ties |
| MemoryLru.ApplyRefines | src/yokedcache/backends/memory.py:133-280 | with a newer stamp, each operation does to the dictionaries what it does to an LRU list: set and get-hit move to the end, overflow drops the front |
| MemoryLru.RunRefinesList | src/yokedcache/backends/memory.py:133-203 | with a strictly increasing clock and max_size at least 1, every run gives the replies and the contents, in order, of the LRU list |
| MemoryLru.SizeIsBounded | src/yokedcache/backends/memory.py:133-144 | after every run at most max_size keys are stored, whatever the clock does |
| MemoryLru.AccessTimesAreStamps | src/yokedcache/backends/memory.py:160-186 | in every run the dictionaries agree and each access time is a reading made by a get or set |
| MemoryEviction.WrittenKeySurvives | src/yokedcache/backends/memory.py:179-196 | with a clock that does not go back, the key just written is stored with its value and deadline after its own eviction pass, ties included; under a negative limit it is not |
| MemoryEviction.SetIsNotUndone | src/yokedcache/backends/memory.py:166-203 | so in every run that ends in a set its value is there |
| MemoryEviction.VictimsAreOldest | src/yokedcache/backends/memory.py:133-144 | no victim was used after a survivor |
| MemoryEviction.StoredTagsAreLatest | src/yokedcache/backends/memory.py:179-193 | in every run a stored key has the tags of its latest set, however it was evicted and set again |
| MemoryEviction.InvalidationIsExact | src/yokedcache/backends/memory.py:263-280 | after any run invalidate_tags removes exactly the stored keys whose latest set carried one of the tags and returns their number |
| MemorySweeps.RunsAgree | src/yokedcache/backends/memory.py:88-117 | without a size limit every call in every run gets the reply of a plain map from key to value and deadline |
| MemorySweeps.SweepsAreInvisible | src/yokedcache/backends/memory.py:94-117 | deleting the sweeps from a run changes no reply of the other calls |
| MemorySweeps.DeleteSeesSweeps | src/yokedcache/backends/memory.py:205-215 | delete answers whether an unexpired key was there iff there is no expired one, and a sweep before it changes that answer |
| MemoryHistory.ContentIsHeld | src/yokedcache/backends/memory.py:119-280 | in every run, whatever the size limit, a stored key has the value of its last set and the deadline of that set or a later expire; without a limit it is stored iff nothing removed it since |
| MemoryHistory.RepliesAreHistory | src/yokedcache/backends/memory.py:146-280 | without a limit every reply, the counts of the invalidations included, follows from the calls before |
| MemoryHistory.SetLives | src/yokedcache/backends/memory.py:166-186 | a value set with a ttl (300 if none) and a jitter is found for ttl + jitter seconds, one at least, and not afterwards, as long as no call sets, expires or removes the key and it is not evicted |
| RedisTags.StepKeepsCoverIff | src/yokedcache/backends/redis.py:458-479 | if every tag of a live key has a set that lists the key and outlives it by a margin of up to a minute, this survives a step iff the step is none of: a YokedCache.set of a neighbour that shares a tag and is too short-lived, an expire of the key past its sets, the late DEL of one of them |
| RedisTags.RunsKeepCover | src/yokedcache/backends/redis.py:458-479 | the timed invariant holds if, since the last set of the key, every step was one of those that keep it; a set that takes effect restores it whatever happened before |
| RedisTags.OwnCallsKeepCover | src/yokedcache/backends/redis.py:197-319 | every run of the backend's own calls, one after the other and with failing connections, in which expire lengthens no life consists of such steps, with the whole minute to spare |
| RedisTags.EscapesIff | src/yokedcache/backends/redis.py:293-310 | a live key can escape the invalidation of a tag, now or at some later time, iff the set of the tag does not list it or expires before it |
| RedisTags.NeverMissedIffCovered | src/yokedcache/backends/redis.py:293-310 | so no later invalidation of a tag of the key misses it iff it is covered without a margin |
| RedisTags.StepMissesIff | src/yokedcache/cache.py:1306-1314 | and a step leaves that so iff it keeps the cover: a resetting set of the key itself, of a key without a common tag, or that reaches the old deadline with its extra minute does; an expire does iff the new deadline is within each set's |
| RedisTags.InvalidationIsComplete | src/yokedcache/backends/redis.py:293-310 | after invalidate_tags no live key last set with one of the tags remains, if since that set every step kept the cover without a margin, YokedCache.set and lengthening expire included |
| RedisTags.OwnCallsAreComplete | src/yokedcache/backends/redis.py:197-319 | in particular after every run of the backend's own calls in which expire lengthens no life |
| RedisTags.MembersWereTagged | src/yokedcache/backends/redis.py:298-310 | in every run only keys that once carried a tag are in its set, so nothing else is invalidated |
| RedisTags.NeighbourEscapesInvalidation | src/yokedcache/cache.py:1308-1314 | a run in which YokedCache.set of a neighbour lets a live tagged key survive invalidation |
| RedisTags.LengthenedKeyEscapesInvalidation | src/yokedcache/backends/redis.py:261-271 | a run in which expire does |
| RedisTags.EarlierTagStillInvalidates | src/yokedcache/backends/redis.py:197-225 | a run in which invalidating a tag the key no longer carries removes it, since set leaves old sets alone |
| RedisTags.SetDuringInvalidationEscapes | src/yokedcache/backends/redis.py:298-310 | a run in which a key set between the SMEMBERS and the DEL of an invalidation is missed by the next one |
| RedisHistory.DbIsHistory | src/yokedcache/backends/redis.py:197-319 | after every run, failing commands and broken invalidations included, each key has the value and deadline, and each tag set the members and deadline, that the calls gave them |
| RedisHistory.RepliesAreHistory | src/yokedcache/backends/redis.py:150-319 | and every reply is that of such a timed map: a delete removes and answers True once, the counts are the numbers of live keys taken |
| RedisHistory.SetLives | src/yokedcache/backends/redis.py:197-222 | a value lives for ttl (300 if none) plus jitter seconds, one at least, unless something writes, expires or removes it |
| RedisBackend.RedisBackend.AddTagsToKey | src/yokedcache/backends/redis.py:458-479 | the queued SADD and EXPIRE commands, run after the TTLs were read, add the key to each set and never shorten a set's life |
| RedisBackend.RedisBackend.Set | src/yokedcache/backends/redis.py:197-229 | the pipeline as a whole refines the model's atomic set; a connection that fails before or after it takes effect gives False and is not counted |
| RedisBackend.RedisBackend.Execute | src/yokedcache/backends/redis.py:214-222 | running the queue command by command gives the state after all of them |
| RedisBackend.RedisBackend.Get | src/yokedcache/backends/redis.py:160-195 | refines the model's get; an undecodable payload is neither hit nor miss |
| RedisBackend.RedisBackend.Delete | src/yokedcache/backends/redis.py:231-247 | refines the model's delete: true iff the key was live and the answer arrived |
| RedisBackend.RedisBackend.Expire | src/yokedcache/backends/redis.py:261-271 | refines the model's expire: a non-positive time deletes; false if the connection fails |
| RedisBackend.RedisBackend.DeleteKeys | src/yokedcache/utils.py:240-249 | deleting in chunks of any size leaves the store, and returns the total, of one delete, repeated keys included |
| RedisBackend.RedisBackend.InvalidateTag | src/yokedcache/backends/redis.py:300-310 | one round deletes the members and then the set, counting the live members |
| RedisBackend.RedisBackend.InvalidateTags | src/yokedcache/backends/redis.py:293-319 | whatever the order of the tags, exactly the keys listed under one of them go, each live one counted once; if the connection breaks, whole rounds and part of one are done, nothing is counted and the error is raised |
| RedisBackend.RedisBackend.InvalidatePattern | src/yokedcache/backends/redis.py:273-291 | deletes the live matching keys in chunks and returns their number; if the connection breaks, part of them are gone, nothing is counted and the error is raised |
| RedisBackend.DeletedInTwo | src/yokedcache/utils.py:240-249 | a key deleted by one chunk is not counted again by a later one |
| RedisBackend.ExecAppend | src/yokedcache/backends/redis.py:214-222 | running two queues in turn is running them joined |
| BreakerHistory.StateIsHistory | src/yokedcache/circuit_breaker.py:90-136 | under any overlap of calls: CLOSED iff fewer failures since the last success or reset than the threshold, HALF_OPEN iff not CLOSED and a call was admitted since the last failure |
| BreakerHistory.AdmissionIsHistory | src/yokedcache/circuit_breaker.py:80-112 | in every history a call gets through iff there were fewer failures than the threshold since the last success or reset, or the timeout has passed since the last failure and nobody got through since |
| BreakerHistory.ReopeningBelowThresholdIsDead | src/yokedcache/circuit_breaker.py:134-136 | the branch that reopens a half-open circuit below the threshold is never taken |
| BreakerHistory.TotalsCountEvents | src/yokedcache/circuit_breaker.py:114-126 | the totals are the numbers of calls, successes and failures in the history |
| BreakerHistory.TrialsArePaced | src/yokedcache/circuit_breaker.py:80-105 | with a monotone clock, successive trial calls without success or reset are admitted at least the timeout apart |
| BreakerHistory.TrialsSpan | src/yokedcache/circuit_breaker.py:80-105 | n of them span at least n-1 timeouts |
| BreakerHistory.TrialIsInFlight | src/yokedcache/circuit_breaker.py:90-112 | in HALF_OPEN the trial is the call admitted last, and it is in flight iff it was not abandoned |
| BreakerHistory.RecordedOutcomesNeverWedge | src/yokedcache/circuit_breaker.py:156-194 | if every admitted call ends in a recorded outcome, HALF_OPEN implies that its trial is still in flight |
| BreakerHistory.LeavesIffInFlight | src/yokedcache/circuit_breaker.py:107-136 | a half-open breaker can leave that state without reset iff some call is in flight |
| BreakerHistory.WedgedForever | src/yokedcache/circuit_breaker.py:107-112 | half open with nothing in flight, every later call is rejected until a reset |
| BreakerHistory.CancelledTrialWedges | src/yokedcache/circuit_breaker.py:171-176 | a run in which one cancelled trial leads there |
| CircuitBreaker.CallIsHistory | src/yokedcache/circuit_breaker.py:156-194 | an uninterrupted call is the history of its entry and its outcome |
| CircuitBreaker.CircuitBreaker.TryEnter | src/yokedcache/circuit_breaker.py:80-112 | admits exactly when closed or when the timeout has passed, and turns open into half open just then |
| CircuitBreaker.CircuitBreaker.OnSuccess | src/yokedcache/circuit_breaker.py:114-119 | refines the model's success |
| CircuitBreaker.CircuitBreaker.OnFailure | src/yokedcache/circuit_breaker.py:121-136 | refines the model's failure |
| CircuitBreaker.CircuitBreaker.Reset | src/yokedcache/circuit_breaker.py:212-217 | refines the model's reset |
| CircuitBreaker.CircuitBreaker.BeginCall | src/yokedcache/circuit_breaker.py:156-160 | the part of call_async before the await is the entry event of the history, other calls being in flight or not |
| CircuitBreaker.CircuitBreaker.EndCall | src/yokedcache/circuit_breaker.py:162-176 | the part after it is the event of the outcome, whatever happened to the circuit in between |
| CircuitBreaker.CircuitBreaker.Call | src/yokedcache/circuit_breaker.py:178-194 | call_sync: a rejected call counts a request only; an unexpected one leaves the circuit as entered |
| Retry.RunsUntilBreakerOpens | src/yokedcache/cache.py:1093-1103 | an operation that always fails, under a closed breaker with c failures, runs exactly min(max_retries+1, threshold-c) times if the sleeps stay below the timeout; the last error is its own or the breaker's accordingly |
| Retry.FailingAlone | src/yokedcache/cache.py:1093-1103 | without a breaker such an operation runs max_retries+1 times and its own error is raised |
| Retry.FirstAnswerEnds | src/yokedcache/circuit_breaker.py:281-308 | the first answer or cancellation, or else the last attempt, ends the loop as long as the breaker stays closed: its outcome is the result, the runs, the sleeps and the time passed are those of the attempts up to it |
| Retry.TotalSleepIsBounded | src/yokedcache/circuit_breaker.py:268-308 | with base 2 the sleeps add up to at most 1.1*min(n*max_delay, base_delay*(2^n-1)) |
| Retry.DelayBounds | src/yokedcache/circuit_breaker.py:268-279 | a delay is at least the capped exponential and at most 1.1 times it |
| Retry.DelayDoubles | src/yokedcache/circuit_breaker.py:268-279 | with base 2 the delay before jitter is base_delay doubled once an attempt, up to max_delay |
| Retry.FinishedStays | src/yokedcache/circuit_breaker.py:285-308 | an answer, a cancellation or the last attempt ends the loop for good |
| Retry.ExecuteWithRetry | src/yokedcache/circuit_breaker.py:281-308 | the loop is the model's attempts one after the other, and always ends with a result |
| Retry.ExecuteWithResilience | src/yokedcache/cache.py:1079-1113 | with and without retries, with and without a breaker, the same; the fallback replaces errors but not a cancellation |
| SwrTracking.NextKeepsSound | src/yokedcache/swr.py:29-206 | every step keeps tracking: each task neither finished nor asked to cancel is exactly the recorded one for its key |
| SwrTracking.ReplaceKeepsTracked | src/yokedcache/swr.py:151-191 | rescheduling and retry, which create a successor before the finally block checks identity, orphan nobody |
| SwrTracking.AtMostOnePerKey | src/yokedcache/swr.py:74-108 | in every run there is at most one such task for a key, and the dictionary has it |
| SwrTracking.CleanupIsIdle | src/yokedcache/swr.py:199-206 | until stop cancels the tasks every recorded task is active, so the periodic cleanup never finds anything |
| SwrTracking.NothingAfterStop | src/yokedcache/swr.py:35-59 | once stop has cancelled, no task is active and none is ever created, whatever is called |
| SwrTracking.UnfinishedAfterStop | src/yokedcache/swr.py:35-59 | when stop has returned the dictionary is empty, and a task not yet finished, in any run, is one that was unfinished, unrecorded and cancelled already when stop cancelled the recorded ones |
| SwrTracking.CancelledTaskMayOutliveStop | src/yokedcache/swr.py:48-57 | a run in which a task cancelled before stop has not ended when stop returns |
| SwrTracking.RetryIgnoresShutdown | src/yokedcache/swr.py:164-173 | while stop awaits the cleanup task a failing refresh still creates its successor, which stop then cancels |
| SwrTracking.RetriesBackOff | src/yokedcache/swr.py:167-173 | the n-th retry waits the delay doubled n times, a minute at most |
| SwrTracking.RefreshesBeforeExpiry | src/yokedcache/swr.py:82-92 | a refresh that succeeded schedules its successor for the moment when the threshold's share of the same lifetime is left |
| SwrHistory.TasksAreBorn | src/yokedcache/swr.py:61-171 | in every run each task has the lifetime of the call that started its chain, and as its delay the threshold's remainder of it, or after a failure twice the delay before, a minute at most |
| SwrHistory.LoadersAreEntitled | src/yokedcache/swr.py:137-146 | in every run a loader runs only after the cache has said that it holds the key, and a set only after a loader that did not raise |
| SwrHistory.SuccessorIff | src/yokedcache/swr.py:146-173 | a step creates a successor iff the loader or the set raised, or the set succeeded with refreshing still wanted |
| SwrHistory.EndsIff | src/yokedcache/swr.py:121-191 | and ends its task iff it was cancelled, woke to a shut-down scheduler or a dead cache, found the key gone, or has the answer to its load or set |
| SwrHistory.EntryAfterStep | src/yokedcache/swr.py:176-191 | only the entry of its own key changes: a successor takes it over, a task that ends removes it if it is its own and the task ever ran |
| SwrHistory.RefreshGoesThrough | src/yokedcache/swr.py:121-159 | from any run in which a fresh task is active, an untroubled refresh can go through all stages to an active, recorded successor |
| SwrScheduler.SWRScheduler.ScheduleRefresh | src/yokedcache/swr.py:61-92 | refines the model: cancels the existing task unless it is the caller itself, and computes lifetime and delay |
| SwrScheduler.SWRScheduler.CancelRefresh | src/yokedcache/swr.py:94-108 | refines the model: pops the entry and asks its task to cancel unless finished |
| SwrScheduler.SWRScheduler.Resume | src/yokedcache/swr.py:110-191 | one run of a refresh task to its next await is the model's step |
| SwrScheduler.SWRScheduler.CleanupRound | src/yokedcache/swr.py:199-206 | pops exactly the completed keys |
| SwrScheduler.SWRScheduler.StopCancel | src/yokedcache/swr.py:48-55 | the loop asks exactly the recorded, unfinished tasks to cancel |
| SwrScheduler.SWRScheduler.StopBegin | src/yokedcache/swr.py:35-46 | sets the flag; without a cleanup task it cancels at once |
| SwrScheduler.SWRScheduler.StopFinish | src/yokedcache/swr.py:53-59 | clears the dictionary when the gathered tasks are done |
| StaleTheorems.StoreIsBounded | src/yokedcache/cache.py:1333-1340 | after every run the stale store has at most max_single_flight_locks entries, each listed once |
| StaleTheorems.ServedIsLastSet | src/yokedcache/cache.py:1202-1218 | a value served after a failure is the last one set successfully, within stale_if_error_ttl when positive, and the key was not observed missing, deleted, invalidated or given under ten seconds since |
| StaleTheorems.RecentSetIsRetained | src/yokedcache/cache.py:1325-1340 | the store forgets in order of the last set: an entry stays while fewer than the limit of other keys were set since |
| StaleTheorems.ServedIff | src/yokedcache/cache.py:1209-1218 | then a stale value is served iff the backend failed, the feature is on and the last set still counts |
| StaleTheorems.FailedInvalidationServesDeleted | src/yokedcache/cache.py:1555-1567 | a run in which an invalidation fails after deleting and the deleted value is served |
| StaleTheorems.UnobservedExpiryIsServed | src/yokedcache/cache.py:1212-1218 | a value that expired unobserved is served iff its age since the set is within the limit |
| StaleHistory.DataIsContent | src/yokedcache/cache.py:1154-1601 | after every run the backend holds for a key the value of the last set that took effect, unless an effective delete, expire or invalidation, or a loss, came after |
| StaleHistory.RepliesAreHistory | src/yokedcache/cache.py:1154-1452 | a get answers that value while the backend works and the payload is good, and the default otherwise; after a failure it answers a stale value, the default or the error; set, delete and expire answer True exactly when they should |
| StaleCache.YokedCache.Get | src/yokedcache/cache.py:1154-1235 | refines the model's get, the miss that pops and the order of the error branches included |
| StaleCache.YokedCache.Set | src/yokedcache/cache.py:1319-1348 | refines the model's set: recorded iff it succeeded, moved to the end or after making room |
| StaleCache.YokedCache.MakeRoom | src/yokedcache/cache.py:1333-1335 | the loop drops the oldest entries until one fits |
| StaleCache.YokedCache.Delete | src/yokedcache/cache.py:1387-1405 | refines the model's delete: built key first, raw key otherwise, both popped |
| StaleCache.YokedCache.Expire | src/yokedcache/cache.py:1438-1452 | refines the model's expire: pops under ten seconds |
| StaleCache.YokedCache.Invalidate | src/yokedcache/cache.py:1544-1601 | group by group the deleted keys are popped, those of a failing group are not |
| Routes.LongestIsUnique | src/yokedcache/routing.py:41-51 | the prefix chosen is the one registered, non-empty prefix of the key that no other exceeds, whatever the order of registration |
| Routes.MatchingKeyIsReached | src/yokedcache/routing.py:137-148 | if no registered prefix extends another and none holds a wildcard, a matching key is in a backend the invalidation is sent to |
| Routes.AntichainReaches | src/yokedcache/routing.py:137-148 | so under such routes every pattern reaches all it matches |
| Routes.InvalidationIsComplete | src/yokedcache/routing.py:133-159 | a pattern that reaches all it matches leaves no matching key where the router looks, and touches no other |
| Routes.StarIsCompleteIff | src/yokedcache/routing.py:140-148 | under routes without wildcards, nested or not, a pattern ending in its only wildcard reaches all it matches iff all routes beyond the literal lead to the backend checked |
| Routes.NestedRoutesMissKeys | src/yokedcache/routing.py:140-145 | two nested routes under which a matching key survives |
| PrefixRouter.RoutedBackendsAreOneMap | src/yokedcache/routing.py:102-159 | under any fixed routes, nested ones included, the backends give the replies of one map to every run of get, set, delete and invalidate_pattern, counts included, provided that each invalidation in the run reaches all it matches |
| PrefixRouter.OneMapIffReached | src/yokedcache/routing.py:133-159 | for each pattern: all runs that invalidate by it behave as one map iff it reaches all it matches |
| PrefixRouter.KeysAreRouted | src/yokedcache/routing.py:41-51 | after such a run every key lies on the backend of the longest registered prefix of its name, or on the default one if it has none |
| PrefixRouter.CountIsExact | src/yokedcache/routing.py:150-159 | the sum over the backends is then the number of matching keys |
| PrefixRouter.PrefixRouter.BestPrefix | src/yokedcache/routing.py:43-47 | the loop finds the longest registered prefix in any order of the routes |
| PrefixRouter.PrefixRouter.GetBackend | src/yokedcache/routing.py:41-51 | the backend of that prefix, or the default |
| PrefixRouter.PrefixRouter.AddRoute | src/yokedcache/routing.py:28-31 | adds or replaces one route |
| PrefixRouter.PrefixRouter.RemoveRoute | src/yokedcache/routing.py:33-39 | removes one route and says whether it was there |
| PrefixRouter.PrefixRouter.Get | src/yokedcache/routing.py:102-105 | reads the routed backend |
| PrefixRouter.PrefixRouter.Set | src/yokedcache/routing.py:107-116 | writes the routed backend only, and passes its answer on |
| PrefixRouter.PrefixRouter.Delete | src/yokedcache/routing.py:118-121 | deletes from the routed backend only |
| PrefixRouter.PrefixRouter.InvalidatePattern | src/yokedcache/routing.py:133-159 | every checked backend that does not raise loses exactly its matching keys, and their total is returned |
| MemoTheorems.TransparentIff | src/yokedcache/decorators.py:99-230 | under any overlap of calls, expiry, unmet conditions and cache failures every call that returns yields the function's own value, iff the key builder merges no arguments with different outcomes |
| MemoTheorems.BodyRunsAtMostOnce | src/yokedcache/decorators.py:172-197 | the body runs at most once per call, whatever the keys |
| MemoTheorems.MergedKeysShow | src/yokedcache/decorators.py:186-188 | otherwise a run of two calls that returns the wrong value |
| MemoHistory.CacheIsHistory | src/yokedcache/decorators.py:99-230 | in every run a key holds what the function gave for the arguments of the last call that wrote there |
| MemoHistory.CallsEndAsTold | src/yokedcache/decorators.py:99-230 | and a call ends, with a value or an error, exactly as its own actions say: a cached value is used, cache failures are skipped iff the decorator was told to, an unmet condition only prevents the write |
| CachedFunction.WholeCallIsRun | src/yokedcache/decorators.py:99-230 | an uninterrupted call is a run of those steps |
| CachedFunction.CachedFunction.SyncCall | src/yokedcache/decorators.py:99-143 | the synchronous wrapper is such a call: a failing key builder raises, a failing read still writes back |
| CachedFunction.CachedFunction.AsyncCall | src/yokedcache/decorators.py:152-230 | so is the asynchronous one: either failure gives up the write |
| MetricsModel.OperationsAreOutcomes | src/yokedcache/metrics.py:132-141 | per type, operations are successes plus errors |
| MetricsModel.TallyEverything | src/yokedcache/metrics.py:232-234 | summed over the types that occur, the counters count every operation and every error once |
| MetricsModel.CountersMean | src/yokedcache/metrics.py:132-157 | a counter is the number of recorded operations of its kind: those of a type, its successes and errors, errors of a sort, hits and misses of get |
| MetricsModel.SubjectHitsMean | src/yokedcache/metrics.py:148-157 | the hits of a table or tag, counted twice by the code, are the answered gets on it that hit |
| MetricsModel.SubjectMissesMean | src/yokedcache/metrics.py:153-157 | likewise its misses |
| MetricsModel.SubjectWritesMean | src/yokedcache/metrics.py:171-212 | likewise its sets and deletes |
| MetricsModel.SubjectErrorsMean | src/yokedcache/metrics.py:171-212 | likewise its errors |
| MetricsModel.DurationsCount | src/yokedcache/metrics.py:160-162 | per type there are as many durations as operations |
| MetricsModel.WindowSnoc | src/yokedcache/metrics.py:164-169 | trimming after every append keeps the last 1000 of all |
| MetricsModel.WindowIsEnd | src/yokedcache/metrics.py:164-169 | and what is kept is the end of the whole |
| MetricsModel.AverageBounds | src/yokedcache/metrics.py:186-191 | an average lies between any bounds of its timings, and times their number it is their sum |
| MetricsModel.PercentileRank | src/yokedcache/metrics.py:255-273 | the percentile is one of the timings; more than p percent of them, or all, are no larger, and at least the remaining percentage no smaller |
| MetricsModel.PercentileIsMonotone | src/yokedcache/metrics.py:269-273 | it does not decrease in p |
| CacheMetrics.CacheMetrics.RecordOperation | src/yokedcache/metrics.py:132-214 | every counter, those of tables and tags included, is the tally, every timing list the last 1000 durations, every average that of its list, and the recent operations the last ones, of the operations since the reset |
| CacheMetrics.CacheMetrics.Reset | src/yokedcache/metrics.py:382-404 | starts the history anew |
| CacheMetrics.CacheMetrics.GetPercentile | src/yokedcache/metrics.py:255-273 | the percentile of the last 1000 durations of the type since the reset |
| CacheMetrics.CacheMetrics.GetOverallPercentile | src/yokedcache/metrics.py:255-273 | over all types: the percentile of their lists joined, each of them once and none left out |
| CacheMetrics.CacheMetrics.GetHitRate | src/yokedcache/metrics.py:216-225 | between 0 and 100, the share of hits among the answered gets, in all or on a table or tag; 0 if there are none |
| CacheMetrics.CacheMetrics.GetErrorRate | src/yokedcache/metrics.py:227-239 | between 0 and 100, the share of errors among the operations of the type, 0 if there are none |
| CacheMetrics.CacheMetrics.GetOverallErrorRate | src/yokedcache/metrics.py:227-239 | over all types: the share of errors in everything recorded since the reset, 0 if that is nothing |
| Keys.IdempotentIff | src/yokedcache/cache.py:1822-1828 | building a built key changes nothing, for every digest and key, iff the prefix is already sanitised and has at most 99 characters |
| Keys.BadPrefixBuildsTwice | src/yokedcache/utils.py:413-422 | under any other prefix a long key is stable only if two digests agree |
| Keys.SanitizeTwice | src/yokedcache/utils.py:403-422 | a sanitised key is short and clean, and sanitising it again changes nothing |
| Keys.CleanCharacter | src/yokedcache/utils.py:413-414 | spaces become underscores, line breaks go, every other character stays |
| Keys.CleanAppends | src/yokedcache/utils.py:413-414 | character by character |
| Keys.SanitizeSeparates | src/yokedcache/utils.py:413-422 | two keys share a sanitised form iff they clean to the same, or are long and agree in 100 characters and in the digest of the rest, or one is spelled like the short form of the other |
| Memcached.InvalidationIsComplete | src/yokedcache/backends/memcached.py:291-306 | if building a built key changes nothing, after any run no stored key whose latest set carried one of the tags survives invalidate_tags |
| Memcached.InvalidationRemovesListed | src/yokedcache/backends/memcached.py:297-309 | it removes exactly the keys listed under the tags and returns how many were stored, in any order of the tags, although delete discards keys from the sets still to come |
| MemcachedHistory.RunIsTold | src/yokedcache/backends/memcached.py:208-309 | after every run the servers hold for a built key the value of its last successful set, and a tag set the keys that sets put there and nothing took out |
| MemcachedHistory.ReadsAnswerContent | src/yokedcache/backends/memcached.py:178-206 | so a get answers the last successful set |
| Memcached.UnstableKeyEscapes | src/yokedcache/backends/memcached.py:299-303 | a key that is built differently again survives the invalidation of the tag it was just set with |
| Memcached.CompleteIffStable | src/yokedcache/backends/memcached.py:291-306 | so invalidation is complete, after every run and in every order of the tags, iff building a built key changes nothing |
| Memcached.CompleteIffGoodPrefix | src/yokedcache/backends/memcached.py:167-172 | with the backend's own key building it is so for every digest iff the prefix is sanitised already and has at most 99 characters |
| MemcachedBackend.MemcachedBackend.Set | src/yokedcache/backends/memcached.py:208-241 | refines the model's set: tags are added, the set counted and True answered only if the server stored the value; without a client nothing happens |
| MemcachedBackend.MemcachedBackend.Get | src/yokedcache/backends/memcached.py:178-206 | reads the built key; nothing without a client or a readable answer |
| MemcachedBackend.MemcachedBackend.Delete | src/yokedcache/backends/memcached.py:247-264 | refines the model's delete: a key that was there leaves every tag set |
| MemcachedBackend.MemcachedBackend.InvalidateTag | src/yokedcache/backends/memcached.py:297-306 | one round over a copy of the set is the model's round |
| MemcachedBackend.MemcachedBackend.InvalidateTags | src/yokedcache/backends/memcached.py:291-309 | the rounds in the order of the loop |

## Left out

- Configuration, the command line, HTTP middleware, tracing, exporters, fuzzy and vector search (the router's merge of search results included): presentation and I/O.
- Real Redis, Memcached, diskcache and SQLite clients: backends are abstract stores; `disk.py` and `sqlite.py` would only repeat the tag index in an easier form, and `EmbeddedMemoryRedis` is such a store.
- Network errors in the Memcached operations other than `get` and `set`, and in `exists` on Redis, which is not modelled. A Redis `get`, `set`, `delete` or `expire` may fail with or without effect and an invalidation may break off; stale-if-error, breaker, retry, decorator and router model the failures they react to.
- Steps of the Redis and Memcached backends are whole calls, except that an invalidation on Redis can come in pieces (`DeletePart`, `DropSet`). So two interleavings are described here only: a `delete` between the get and the set of a Memcached `expire` leaves the key stored without its tags, and a `delete` that fails inside the Memcached `invalidate_tags` leaves the key stored after its listing is dropped.
- The tag commands of `YokedCache.set` whose failure the code swallows: a key set like that is stored without a listing, which is the situation of `RedisTags.EscapesIff`.
- Codecs and digests: values are opaque; the SHA-256 digest is any function to 64 hexadecimal digits, and CRC32 does not appear, since a built key always goes to the same Memcached server.
- `fnmatch` and Redis globs: an uninterpreted predicate; the router's theorems assume that the part of a pattern before its first wildcard matches literally.
- `calculate_ttl_with_jitter` with a base of -10 or less, which raises; the jitter is otherwise an arbitrary integer. Metrics percentiles below zero, which index from the end of the list.
- `enable_single_flight` set to False, and the delegation of `YokedCache` calls to a prefix router.
- The counter bumps in `connect()` that bypass the breaker's transitions, and entries through `__aenter__`, which do not count a request; all other breaker changes are events of the model.
- User keys inside the `tags:` namespace, patterns that match tag sets, `flush_all` on Redis, and a second Redis client between the reading of the TTLs and the pipeline.
- `CachedDatabaseWrapper` and `cached_dependency`: invalidation after a commit is tag invalidation again.
- MemcachedHistory.RunIsTold: asks that building a built key changes nothing, as `CompleteIffGoodPrefix` says when it does.
- MemoryBackend.MemoryBackend.Sweep: the number of keys swept is only logged by the code and is not returned here.
- SwrScheduler.SWRScheduler.Resume: does not model the refresh locks (`_refresh_locks`) as state; a waiting task may proceed at any time, which allows more interleavings than the code, and all results hold for them.
- PrefixRouter.PrefixRouter.Set: does not model the lifetime and the tags, which the router passes on unchanged, nor expiry inside a backend.
- CacheMetrics.CacheMetrics.RecordOperation: does not model time stamps, hence no average over the last minutes and no operations per second; the averages are real numbers.
- Memcached.InvalidationIsComplete: takes each call as one step, as said above.
- RedisTags.InvalidationIsComplete: asks that the steps since the key's last set keep its cover, which by `StepMissesIff` is exactly what keeps a later invalidation from missing it.
