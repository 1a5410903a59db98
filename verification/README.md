# The engine's concurrency and resilience layer, modelled and verified

The engine generates images through a ComfyUI server. Around that work stands a layer of small state
machines: a plugin manager, a circuit breaker, a job queue on Redis, three rate limiters, a framed RPC
bridge, a batch accumulator, a cached query bus, deadlines with retries, a batch runner, a dead letter
queue and a GPU autoscaler. What each of them guarantees shows only over whole runs. This project states
those guarantees and proves them for every run.

How a component is modelled:

* A class has the fields of the original, and its methods change them step by step as the original does.
  An `await`-free stretch, or a stretch under an `asyncio` lock, is one method.
* A specification function gives the new state of such a step as a value. The methods that change state are proved
  to do exactly what these functions say; the runs are made of the same functions.
* A datatype of events (calls, replies, timer ticks, failures, cancellations and so on) and a function over
  event sequences make up the runs. Every order of events is a run, so a lemma about all runs is a lemma about
  every interleaving. Invariants are kept by every step; the main lemmas follow from them.
* Clocks and random draws are parameters. Time is a `real`; where a property needs the clock never to go back,
  the lemma says so.

Several guarantees hold only under a condition. Each of these lemmas says exactly when, and its proof builds the runs
that break the guarantee otherwise:

* The circuit breaker can wedge in HALF_OPEN exactly when its probe quota, less the probes whose callers are cancelled,
  is below its success threshold, or zero (`CircuitBreaker.NeverWedgesIff`).
* A resolved plugin order puts requirements first exactly when there is no cycle
  (`DependencyGraph.TopologicalIffAcyclic`); the load pass reaches the least fixpoint either way.
* A completion of the job queue is harmless exactly when its job is claimed or unknown, has been completed before, or is
  pending and fails with a try to spare (`DistributedQueue.CompleteKeepsValidIff`): the owner is not checked
  (`QueueRuns.LateCompletion`).
* The bridge dispatches every reply exactly when no payload that is not a mapping comes before one that is. Such
  a payload decodes, and then the lookup of its "id" raises outside the `try` and ends the read loop, so "an
  undecodable payload is skipped" holds, but only for payloads that cannot be decoded
  (`MsgpackBridge.AllDispatchedIff`). After that stop() raises too, where it awaits the read loop, and those who wait
  are told only by their timers (`MsgpackBridge.StopLeavesNobodyWaitingIff`, `MsgpackBridge.WaitsForItsTimer`).
* A batch accumulator delivers everything exactly when no delivery of its timer task is cut off at the end or fails
  (`Batching.DeliveredAllIff`), which can happen exactly when batches may have more than one item
  (`Batching.CanLoseIff`).
* An invalidation keeps earlier values from later askers exactly when no handler for the key is running
  (`QueryBus.StaleAfterDropIff`).
* An exit from a deadline raises exactly when its context is left twice (`Deadline.RaisesIffClosedTwice`).
* The batch runner's counters rise by exactly one per job exactly when no progress callback raises
  (`BatchRun.CountersMatchBatch`).
* The autoscaler's load score follows its metrics exactly when the pool's capacity is not negative
  (`Autoscaler.ScoreFollowsLoadIff`).
* The sliding log keeps its bound on closed windows exactly when they are shorter than its own
  (`SlidingWindow.ClosedWindowsHoldIff`), and raises exactly for limits of zero or less
  (`SecurityRateLimiter.RequestKeepsOrderly`). The aligned window reaches twice its limit
  (`FixedWindow.TwiceIsReached`).

Where code and documentation differ, the code is modelled. The repository's README.md (line 109) announces a token
bucket; the limiters are a pruned log (engine/security.py:742-769, api_server.py:70-87) and a counter per aligned
window (engine/redis_cache.py:339-369). The comment at engine/distributed_queue.py:181 describes a re-queue that no
run reaches (`QueueRuns.ClaimNeverStartsOver`).

`Limit` in the queue is `max(1, max_retries)`: with a smaller setting the first failure is already the last.

## Files

| file | models |
|---|---|
| DependencyGraph.dfy, Plugins.dfy | engine/plugin_system.py |
| CircuitBreaker.dfy | engine/circuit_breaker.py |
| DistributedQueue.dfy, QueueRuns.dfy | engine/distributed_queue.py |
| SlidingWindow.dfy, RateLimiters.dfy | engine/security.py, api_server.py |
| FixedWindow.dfy | engine/redis_cache.py |
| Framing.dfy, MsgpackBridge.dfy | engine/msgpack_bridge.py |
| Batching.dfy | engine/batch.py, engine/pipeline.py |
| QueryBus.dfy | engine/query.py |
| Deadline.dfy, RetryPolicy.dfy | engine/deadline.py, engine/retry_policy.py |
| BatchRun.dfy | engine/api_client.py |
| DeadLetter.dfy, DeadLetterRuns.dfy, DeadLetterHistory.dfy | engine/dead_letter_queue.py |
| Autoscaler.dfy | engine/gpu_autoscaler.py |
| Lexicographic.dfy, Numbers.dfy, Options.dfy, Sequences.dfy, Sums.dfy | string order, numbers, optional values, constant sequences, sums over sets |

`dafny verify dfyconfig.toml` checks everything.

## Model

| member | source | states |
|---|---|---|
| DependencyGraph.TopologicalIffAcyclic | engine/plugin_system.py:311-328 | For any requirement graph, missing names included: the order puts every candidate after all candidates it requires if and only if no walk along requirements returns to its start. |
| DependencyGraph.AcyclicOrderIsUnique | engine/plugin_system.py:315-326 | Without cycles, any two outcomes of resolving the same graph are the same order, so set iteration order never shows. |
| DependencyGraph.StuckSetHoldsCycle | engine/plugin_system.py:319-322 | When no unresolved plugin is ready, there really is a cycle. |
| DependencyGraph.BrokenStaysOut | engine/plugin_system.py:319-322 | A plugin placed to break a cycle can never have all it requires loaded. |
| DependencyGraph.OnePassLoadsLeastClosedSet | engine/plugin_system.py:281-292 | One load pass in the resolved order, cycles or not, loads exactly the least set closed under "loadable and all requirements in the set". |
| Plugins.Resolve | engine/plugin_system.py:311-326 | The loop ends; its order holds every candidate exactly once and puts requirements first if and only if there is no cycle; it goes by rounds, and by name within a round, and each name was placed as early as its requirements allow, or alone to break a cycle when everything left was stuck. |
| Plugins.ReadyPlugins | engine/plugin_system.py:316-322 | The next round is exactly the ready plugins, or one arbitrary plugin when none is ready. |
| Plugins.LayerResolved | engine/plugin_system.py:315-326 | One round keeps everything resolving has established so far. |
| Plugins.PluginManager.ReadGraph | engine/plugin_system.py:302-309 | The graph and the paths by name; of equal names the last candidate wins. |
| Plugins.PluginManager.ResolveDependencies | engine/plugin_system.py:294-328 | The candidates by name in resolved order, each with its path. |
| Plugins.PluginManager.LoadPlugin | engine/plugin_system.py:356-433 | Loads if and only if the name is new, the metadata say enabled, the engine version fits, the plugin comes up, and every name in the metadata's requirements is loaded; otherwise changes nothing. |
| Plugins.PluginManager.LoadAll | engine/plugin_system.py:284-292 | Whatever is returned is loaded from its path with all it requires loaded; nothing loaded before is replaced. |
| Plugins.LoadPassIsLoadInOrder | engine/plugin_system.py:284-288 | The pass over candidates and paths is the pass over the graph. |
| Plugins.PluginManager.DiscoverPlugins | engine/plugin_system.py:255-292 | Every plugin loaded comes from the last entry of its name and has every name its metadata require loaded. From an empty manager what is loaded is exactly the least set that holds each listed plugin which can come up and has all its metadata require in the set. |
| Lexicographic.LeIsLexicographic | engine/plugin_system.py:324-324 | The order within a round: up to the first difference the names agree, and there one ends or has the smaller character. |
| CircuitBreaker.Circuit.BeginCall | engine/circuit_breaker.py:92-108 | Admission: OPEN turns HALF_OPEN once the recovery timeout is over, HALF_OPEN admits while its quota lasts. |
| CircuitBreaker.Circuit.RecordSuccess | engine/circuit_breaker.py:124-133 | A success counts towards closing in HALF_OPEN and drains one failure elsewhere. |
| CircuitBreaker.Circuit.RecordFailure | engine/circuit_breaker.py:135-145 | A failure reopens HALF_OPEN, and trips CLOSED at the threshold. |
| CircuitBreaker.ExhaustedQuotaHasProbe | engine/circuit_breaker.py:92-145 | In every interleaving, late completions of earlier periods included, the probes admitted in this HALF_OPEN period are at most those in flight, those cancelled and the successes counted; so a large enough quota never wedges. |
| CircuitBreaker.NeverWedgesIff | engine/circuit_breaker.py:92-145 | Over all time-ordered runs in which at most c callers are cancelled per HALF_OPEN period and all others end in success or failure, the breaker never rejects everything with no probe left if and only if its quota less c is at least its success threshold and at least one; for c = 0 these are the runs without cancellation. |
| CircuitBreaker.SmallQuotaWedges | engine/circuit_breaker.py:105-108 | With a smaller quota, a run that wedges it, for any thresholds, timeout and number of cancellations. |
| CircuitBreaker.WedgedForever | engine/circuit_breaker.py:105-108 | A wedged breaker with nothing in flight never changes again. |
| CircuitBreaker.OpenAdmitsIff | engine/circuit_breaker.py:95-108 | In every run, an OPEN breaker changes nothing on a call until the recovery timeout has passed since the last failure of a call in flight; then it turns HALF_OPEN, and admits the call if and only if the quota is positive. |
| CircuitBreaker.OpenIsQuiet | engine/circuit_breaker.py:92-122 | From a failure that leaves the breaker OPEN until the recovery timeout is over, whatever happens, it stays OPEN, no call is admitted, and calls in flight only end. |
| CircuitBreaker.HalfOpenDecides | engine/circuit_breaker.py:105-145 | In every run, a HALF_OPEN breaker admits a call if and only if fewer than the quota were admitted since it became so, closes exactly with the success that reaches the threshold, opens with any failure, and ignores cancellations. |
| CircuitBreaker.ClosedAdmits | engine/circuit_breaker.py:92-117 | In every run, a CLOSED breaker admits every call. |
| CircuitBreaker.TripsAreOpenings | engine/circuit_breaker.py:140-145 | In every run, the trip metric counts exactly the times the breaker became OPEN. |
| CircuitBreaker.FailuresArePeak | engine/circuit_breaker.py:124-145 | While CLOSED, the failure counter is the largest excess of failures over successes among the suffixes of this period's outcomes. |
| CircuitBreaker.TripsExactlyOnExcess | engine/circuit_breaker.py:124-145 | A completion trips a CLOSED breaker if and only if with it some contiguous run of this period's outcomes has failures exceeding successes by the threshold. |
| DistributedQueue.RedisQueue.Enqueue | engine/distributed_queue.py:115-154 | Stores a fresh job and its score. |
| DistributedQueue.NextIsUnique | engine/distributed_queue.py:162-163 | The least score with the least member among equals determines one id. |
| DistributedQueue.RedisQueue.TryClaim | engine/distributed_queue.py:156-207 | One pass of a claim on any state: nothing pending, data missing, put back, or claimed. What is popped has the least score, and is the least of those with that score; it is put back, a level up, if and only if a claim that has not timed out holds it. |
| DistributedQueue.RedisQueue.ClaimJob | engine/distributed_queue.py:156-207 | The whole claim on any queue, its recursion through put-back jobs included, each pass at its own clock reading, up to the depth the interpreter allows. On a valid queue one pass does: None exactly when nothing is pending, else the first pending job moves from pending to claimed and nothing else changes. |
| DistributedQueue.RedisQueue.CompleteJob | engine/distributed_queue.py:209-258 | Success, retry one level lower, or dead letter; unknown ids change nothing; an empty error text is no error. |
| DistributedQueue.RedisQueue.CleanupStaleClaims | engine/distributed_queue.py:293-326 | The claims made at or before now less the timeout go back to pending at their own priority, if their data are there; the count returned is theirs. |
| DistributedQueue.PutBackListIsPutBackClaims | engine/distributed_queue.py:302-322 | Putting stale claims back one by one, in any order, is putting them back all at once. |
| DistributedQueue.RedisQueue.PurgeDeadLetter | engine/distributed_queue.py:374-384 | A dead job is removed if and only if it died at or before now less the age given; the count returned is theirs. |
| DistributedQueue.ClaimIsDirect | engine/distributed_queue.py:156-207 | In a valid queue a claim never finds data missing and never puts a job back. |
| DistributedQueue.EnqueueKeepsValid | engine/distributed_queue.py:115-154 | Enqueuing a fresh id keeps each job in at most one set with the status of its place. |
| DistributedQueue.ClaimKeepsValid | engine/distributed_queue.py:156-207 | Claiming keeps the queue valid. |
| DistributedQueue.CompleteKeepsValidIff | engine/distributed_queue.py:209-258 | Completing any job keeps a valid queue valid if and only if the job is unknown, claimed or completed before, or pending and failing with a try to spare. |
| DistributedQueue.CompleteTouchesOne | engine/distributed_queue.py:209-258 | Completing one job leaves every other job's data and place as they were. |
| DistributedQueue.CleanupKeepsValid | engine/distributed_queue.py:293-326 | Taking stale claims back keeps the queue valid. |
| DistributedQueue.PurgeKeepsValid | engine/distributed_queue.py:374-384 | Purging keeps the queue valid. |
| QueueRuns.JobsAreTheEnqueued | engine/distributed_queue.py:115-271 | In every run, the jobs stored are exactly those ever enqueued. |
| QueueRuns.ExactlyOnePlace | engine/distributed_queue.py:115-326 | In every run, a job is in exactly one of pending, claimed, dead, completed and purged, its stored status agrees, and it has been given up exactly when it has failed as often as allowed. |
| QueueRuns.DepthIsBalance | engine/distributed_queue.py:273-284 | In every run, the total depth is jobs enqueued less completed less purged. |
| QueueRuns.ClaimNeverStartsOver | engine/distributed_queue.py:178-187 | In no run does a claim take the put-back branch and recurse. |
| QueueRuns.DeadOnLastFailure | engine/distributed_queue.py:223-245 | Completing a claimed job makes it dead if and only if this is its last allowed failure. |
| QueueRuns.ProgressIsBounded | engine/distributed_queue.py:156-258 | With workers only, every claim and completion lowers the work left, twice the remaining tries per live job less one if claimed; so the number of such steps is bounded by the work at the start. |
| QueueRuns.FreshJobsDrain | engine/distributed_queue.py:156-258 | n fresh jobs drain within 2 * n * Limit worker steps, and while one is live another step is possible. |
| QueueRuns.ScoreOrder | engine/distributed_queue.py:141-145 | For times less than 10^9 seconds apart, scores compare as (level, time). |
| QueueRuns.PoppedByLevelThenTime | engine/distributed_queue.py:141-326 | In every run a claim takes a job that comes first by level, then time: the level is the job's own after enqueuing or recovery, and one lower after a failure, however many it has had. |
| QueueRuns.RunKnowsClaims | engine/distributed_queue.py:189-204 | In every run, a claimed job carries the worker and the time of the claim that last got it. |
| QueueRuns.StaleIff | engine/distributed_queue.py:293-322 | In every run, a cleanup leaves a claim standing if and only if it was made less than the timeout ago (or before time 0, where the range begins); otherwise the job is pending again. |
| QueueRuns.PurgedIff | engine/distributed_queue.py:374-381 | In every run, a purge leaves a dead job if and only if it died less than the given age ago (or before time 0). |
| QueueRuns.RecordsTellHistory | engine/distributed_queue.py:126-138 | In every run, a stored job has the payload, priority and time it was enqueued with, the result of its successful completion, the error of its last failure, and the time of its last completion. |
| QueueRuns.LateCompletion | engine/distributed_queue.py:209-326 | In every run: once a stale claim has been taken back, its worker's completion leaves the queue valid if and only if it is a failure with a try to spare; a success leaves the job pending and completed at once. |
| SlidingWindow.DecidesLikeFullHistory | engine/security.py:754-764 | In every run a call is admitted, and stamped, if and only if the full history of its key's admissions has fewer than the limit inside the window. |
| SlidingWindow.RunWithinLimit | engine/security.py:754-764 | In every run every log is in order and no longer than the largest limit asked with. |
| SlidingWindow.RunIsSpaced | api_server.py:70-87 | With clock readings before stamps, any n + 1 consecutive admissions of a key are at least a window apart. |
| SlidingWindow.WindowNeverOverfull | engine/security.py:742-769 | No window (t, t + size] ever holds more admissions of a key than the largest limit asked with. |
| SlidingWindow.ClosedWindowsHoldIff | engine/security.py:755-764 | Over all runs with limits up to n, closed windows of a given length never hold more than n admissions of a key if and only if they are shorter than the window: the bound fails exactly where both ends of a full window count. |
| SecurityRateLimiter.RateLimiter.IsAllowed | engine/security.py:742-769 | Decision and remaining requests; when denied, the whole seconds until the oldest stamp leaves the window; other keys untouched. On logs kept in order and within the limit, which every request keeps, it raises if and only if the limit is zero or less. |
| SecurityRateLimiter.RateLimiter.GetStatus | engine/security.py:771-788 | Reports without consuming, for keys seen and not seen; there is something remaining if and only if a request would be admitted now. |
| SecurityRateLimiter.WaitingIsEnough | engine/security.py:754-761 | In every run, who is denied and waits the reported seconds and one more is admitted, whatever requests for other keys come in between. |
| SecurityRateLimiter.RequestKeepsOrderly | engine/security.py:754-764 | A request keeps all logs in order and within the limit; and it finds an empty log to index, and raises, if and only if the limit is zero or less. |
| ApiRateLimiter.RateLimiter.CheckRateLimit | api_server.py:251-276 | One request through all its clock readings, creating the record of a new key, taking over the limit it came with, and leaving other keys alone; the reset time is the whole seconds until the earliest stamp leaves the window. |
| FixedWindow.RateLimiter.IsAllowed | engine/redis_cache.py:339-369 | For any window length: zero raises; otherwise the request is counted in its aligned window and compared with the limit, and a window of negative length is deleted at once. The reset time is the least number of whole seconds that reaches the window's end. When Redis fails everything is allowed. |
| FixedWindow.CountIsExact | engine/redis_cache.py:350-380 | In every run, whatever other windows are used, the counter read is the exact number of calls in the current window: no refreshed expiry drops it early, none keeps an old one alive. |
| FixedWindow.CountsInItsWindow | engine/redis_cache.py:350-353 | A call counts under a key if and only if it has its identifier and window length and comes in its window, which starts at a multiple of the length. |
| FixedWindow.ExpiresAfterLastCall | engine/redis_cache.py:357-358 | In every run a counter expires exactly one window length after the last call it counted. |
| FixedWindow.AllowedByRank | engine/redis_cache.py:355-362 | In every run each call, whatever limit it brings, is allowed if and only if its rank in its window is within that limit. |
| FixedWindow.FirstCallsAdmitted | engine/redis_cache.py:355-362 | With limits between m and n, at least the first m and at most the first n calls of a window are allowed; with one constant limit, exactly the first ones. |
| FixedWindow.AtMostTwice | engine/redis_cache.py:350-362 | No interval of one window length holds more than twice the largest limit. |
| FixedWindow.TwiceIsReached | engine/redis_cache.py:350-362 | For every limit, every window length and every gap, however short, a run that reaches twice the limit within that gap. |
| Framing.LengthRoundTrip | engine/msgpack_bridge.py:12-12 | Packing and unpacking a length below 2^32 gives it back, in four bytes. |
| Framing.HeaderRoundTrip | engine/msgpack_bridge.py:12-12 | Every four bytes are the packing of one length. |
| Framing.BigEndian | engine/msgpack_bridge.py:12-12 | The four bytes of a length are its digits to the base 256, most significant first. |
| Framing.FrameLayout | engine/msgpack_bridge.py:104-109 | A frame is the four bytes of its payload's length and then the payload as it is. |
| Framing.RoundTrip | engine/msgpack_bridge.py:104-130 | Reading the frames of any payloads, whatever bytes follow, yields those payloads and then what the rest yields. |
| Framing.CutStream | engine/msgpack_bridge.py:118-132 | A stream cut anywhere yields exactly the payloads whose frames are there in full. |
| Framing.WrittenIsInjective | engine/msgpack_bridge.py:104-109 | Different payload lists are different byte streams. |
| MsgpackBridge.Bridge.Call | engine/msgpack_bridge.py:96-109 | Enters an undone future with its timer and writes the frame; nothing when not running. |
| MsgpackBridge.Bridge.OnTimeout | engine/msgpack_bridge.py:113-116 | Takes the id out and completes its future if undone. |
| MsgpackBridge.Bridge.Dispatch | engine/msgpack_bridge.py:136-147 | Takes the id out. If its future is undone, it gets the error of the message, if there is one, and else the result, and its timer is cancelled; no other future changes. |
| MsgpackBridge.Bridge.ReadLoop | engine/msgpack_bridge.py:118-134 | On any byte stream takes in the payloads of its complete frames in order, until the stream ends, or until one raises out of the loop. |
| MsgpackBridge.Bridge.FinishStop | engine/msgpack_bridge.py:79-88 | Raises, and cleans up nothing, if and only if the read loop has died; otherwise every undone future in the table fails with the shutdown error, and the table is empty. |
| MsgpackBridge.ReadingIsDispatching | engine/msgpack_bridge.py:122-137 | A read loop at work dispatches its messages in order, and dies exactly of a payload that decodes to something other than a mapping. |
| MsgpackBridge.ReadsWhatWasWritten | engine/msgpack_bridge.py:104-134 | What one side frames, the other reads; all mappings are dispatched, with undecodable payloads anywhere between, if and only if nothing ends the loop early. |
| MsgpackBridge.AllDispatchedIff | engine/msgpack_bridge.py:126-137 | All mappings are dispatched if and only if no decodable payload that is no mapping comes before one. |
| MsgpackBridge.EachCallHasItsOwnFate | engine/msgpack_bridge.py:85-147 | In every interleaving of calls, replies, timeouts, cancelled callers and shutdown, each future is what the first event concerning its own id makes of it. |
| MsgpackBridge.PendingIffUndone | engine/msgpack_bridge.py:85-147 | If its caller is not cancelled, an id is in the table if and only if its future is undone. |
| MsgpackBridge.DoneOnce | engine/msgpack_bridge.py:85-147 | In every run a future that is done never changes again. |
| MsgpackBridge.DoneByItsOwnEvent | engine/msgpack_bridge.py:85-147 | In every run a done future was completed at one point, while undone, by a reply with its id, its own timer, its caller or shutdown. |
| MsgpackBridge.DoneIffCompleted | engine/msgpack_bridge.py:85-147 | In every run a future is done if and only if one event has completed it, and keeps the outcome of that event. |
| MsgpackBridge.OutcomeTellsReply | engine/msgpack_bridge.py:113-147 | In every run, a future holds a remote error if and only if a working read loop took in a reply with its id and this error while it was undone, and a result if and only if one without an error and with this result. |
| MsgpackBridge.OutcomeTellsEnd | engine/msgpack_bridge.py:85-116 | In every run, a future has timed out if and only if its own timer fired while it was undone, has the shutdown error if and only if stop() ended then, and is cancelled if and only if its caller was then. |
| MsgpackBridge.StopLeavesNobodyWaitingIff | engine/msgpack_bridge.py:68-88 | In every run, stopping leaves nobody waiting if and only if its read loop has not got a payload that is no mapping since it was started, or nobody was waiting; otherwise it changes nothing. |
| MsgpackBridge.WaitingHasTimer | engine/msgpack_bridge.py:99-116 | In every run, stopped or not, whoever waits has a timer armed, and is told when it fires. |
| MsgpackBridge.WaitsForItsTimer | engine/msgpack_bridge.py:68-147 | After one payload that is no mapping, whoever waits keeps waiting through any replies and shutdowns, until its own timer fires, it is cancelled, or the bridge is started anew. |
| Batching.BatchStage | engine/pipeline.py:57-65 | The stage's loop emits the chunks of its input. |
| Batching.ChunksKeepItems | engine/pipeline.py:57-65 | Chunks in order are the input again; all but the last are full, and none is empty. |
| Batching.FullBatchesAreChunks | engine/pipeline.py:57-65 | Batches that are full but for the last are the chunks of their items, so chunks are the only such batching. |
| Batching.BatchAccumulator.Take | engine/batch.py:34-37 | Returns the buffer, empties it and clears the event. |
| Batching.BatchAccumulator.Add | engine/batch.py:39-45 | Batch and buffer together are the buffer before and the item; a batch comes out exactly when it is full. |
| Batching.BatchAccumulator.Flush | engine/batch.py:47-49 | Returns what is buffered, leaving nothing. |
| Batching.RunIsSound | engine/batch.py:55-82 | In every interleaving of producer and timer, failures and wake-ups by an event cleared since included: batches taken, then the buffer, are the items consumed so far; batches have 1 to max_size items; the event is set exactly while something is buffered; nothing is buffered after the last flush. |
| Batching.FinishedTookEverything | engine/batch.py:70-76 | When the producer has finished, the batches taken are the whole source in order. |
| Batching.DeliveredAllIff | engine/batch.py:55-82 | A run that is over without a failure of its producer has delivered every batch taken if and only if no delivery of the timer task was cut off by its cancellation or failed; at most one batch is missing. |
| Batching.CanLoseIff | engine/batch.py:55-82 | Some such run loses a batch if and only if batches may have more than one item and the source is not empty. |
| Batching.NoTimerFlushMeansChunks | engine/batch.py:55-82 | A finished run without a timer flush has taken exactly the batches that BatchStage emits. |
| QueryBus.Bus.Enter | engine/query.py:52-54 | Under the lock the cache is looked at again. |
| QueryBus.Bus.Store | engine/query.py:55-57 | The result is stored and the lock released. |
| QueryBus.SingleFlight | engine/query.py:49-63 | With any number of askers, between two handler results stored for a key there is an invalidation of it or a clearing. |
| QueryBus.AllGetTheSame | engine/query.py:49-57 | In a run without these, all askers of a key get the same value. |
| QueryBus.HitsNeedNoLock | engine/query.py:49-51 | In every run, who asks for a key gets its current value at once, without the lock, if and only if it has one. |
| QueryBus.HandlerEnds | engine/query.py:52-57 | In every run, the value a handler returns becomes the current one, reaches its asker and frees the lock; one that raises changes no value and frees the lock. |
| QueryBus.ServedAfterDrop | engine/query.py:49-63 | Who asks after an invalidation gets a value stored after it. |
| QueryBus.StaleAfterDropIff | engine/query.py:49-63 | In every run: after an invalidation of a key or a clearing, somebody who asks later can still be served a value whose handler began before it, if and only if a handler for the key is running at that moment. |
| QueryBus.InvalidationMissesRunningHandler | engine/query.py:55-60 | In any state with a handler running, its result is stored when it returns and served to the next asker, whatever was dropped meanwhile. |
| Deadline.DeadlineContext.Enter | engine/deadline.py:26-33 | The expiry is the narrower of its own and the ambient one, and becomes the ambient one. |
| Deadline.DeadlineContext.Exit | engine/deadline.py:35-37 | Restores what was there on entry, once; a second exit on the same token raises. |
| Deadline.TightestIsMinimum | engine/deadline.py:26-33 | The deadline computed by narrowing is the minimum of the expiries asked for. |
| Deadline.AmbientIsTightest | engine/deadline.py:26-37 | Under any nesting of contexts the ambient deadline is the minimum over the open ones, and no exit raises. |
| Deadline.ExitRestores | engine/deadline.py:35-37 | Leaving a context restores the deadline there was before it, whatever was opened and closed inside. |
| Deadline.RaisesIffClosedTwice | engine/deadline.py:26-37 | In every run, nested or not, some exit raises if and only if a context is closed twice without being opened in between. |
| Deadline.ReenteredContextRaises | engine/deadline.py:26-37 | After any run, entering a context twice and leaving it twice raises, and the deadline of its first entry stays in force. |
| RetryPolicy.Attempt | engine/retry_policy.py:49-75 | Calls until one does not fail retryably; sleeps once between calls, for the computed delay, and only if the sleep is to end by the deadline; gives up early only if it would not. |
| RetryPolicy.Execute | engine/retry_policy.py:49-75 | At most max_attempts calls, the exact number reported on exhaustion, no sleep past the deadline, no more sleep in total than the capped backoffs. |
| RetryPolicy.SleepsWithinBudget | engine/retry_policy.py:45-71 | The delays add up to at most the sum of the caps, and that to at most max_delay per sleep. |
| RetryPolicy.DelayWithinCap | engine/retry_policy.py:45-47 | With or without jitter a delay lies between 0 and its cap, and the cap below max_delay. |
| RetryPolicy.CapsGrow | engine/retry_policy.py:45-47 | With a factor of at least one the caps never shrink. |
| RetryPolicy.CapsGrowByFactor | engine/retry_policy.py:45-46 | The caps start at the base delay; with a factor of at least one, each is the factor times the one before, cut off at max_delay. |
| RetryPolicy.CapsShrinkByFactor | engine/retry_policy.py:45-46 | With a factor of at most one and a base within max_delay, each cap is the factor times the one before. |
| RetryPolicy.DelayIsPartOfCap | engine/retry_policy.py:47-47 | A delay is its cap, or with jitter the part of it that is drawn. |
| BatchRun.PollJob | engine/api_client.py:243-293 | Ends in the first round that starts too late or fetches success, outputs or an error, lateness first; the status is completed if and only if that round is in time and fetches success or outputs, and exactly the right one of the three counters rises by one. |
| BatchRun.RunIsSound | engine/api_client.py:332-396 | In every interleaving permits and tasks inside add up, and counters and progress match the tasks counted. |
| BatchRun.ConcurrencyIsBounded | engine/api_client.py:354-362 | Never more than max_concurrent tasks inside the semaphore. |
| BatchRun.ProgressInOrder | engine/api_client.py:393-395 | Progress is reported as 1, 2, 3 and so on of n, once for each task done. |
| BatchRun.CollectJobs | engine/api_client.py:402-419 | One job per payload in input order; a task whose callback raised gives an error job and one more failure. |
| BatchRun.CountersMatchBatch | engine/api_client.py:332-419 | A finished batch of n has raised the three counters by n plus the number of raising callbacks: by exactly n if and only if none raised. |
| BatchRun.StatusFollowsEvents | engine/api_client.py:332-396 | In every run a task ends completed if and only if its poll found success, and in error if and only if the breaker was open, its poll failed or timed out, or something raised. |
| BatchRun.CountersCountEvents | engine/api_client.py:257-391 | In every run each counter counts its events: successful polls, timed out polls, and failed polls, open breakers and recovered exceptions together. |
| BatchRun.BatchEnds | engine/api_client.py:374-400 | A batch makes at most 5 * n steps, and until it is finished some task can make one: no deadlock on the semaphore. |
| DeadLetter.DictRoundTrip | engine/dead_letter_queue.py:41-51 | To a dictionary and back gives the entry; a dictionary that can be read is given back; one cannot be read if and only if its reason is unknown. |
| DeadLetter.DictFields | engine/dead_letter_queue.py:17-45 | The dictionary holds every field as it is, and for each reason its own word. |
| DeadLetter.DeadLetterQueue.Add | engine/dead_letter_queue.py:79-107 | Appends and writes a file; above the bound the oldest goes, with its file. |
| DeadLetter.DeadLetterQueue.Cleanup | engine/dead_letter_queue.py:193-208 | Removes the old entries and their files one by one; with distinct ids the others stay in order, and the number removed is returned. |
| DeadLetter.RemovingOldIsCleaning | engine/dead_letter_queue.py:199-203 | With distinct ids, removing the old entries one by one is filtering. |
| DeadLetter.DeadLetterQueue.Replay | engine/dead_letter_queue.py:146-183 | Counts a replay in memory, not on disk, if the entry and a handler exist, and reports whether the handler returned. |
| DeadLetter.DeadLetterQueue.LoadFromDisk | engine/dead_letter_queue.py:230-243 | The readable files, in any listing order, sorted by creation time. |
| DeadLetterRuns.AddKeepsValid | engine/dead_letter_queue.py:98-107 | Adding a later entry with a new id keeps the bound, the order, distinct ids and disk equal to memory. |
| DeadLetterRuns.CleanupKeepsValid | engine/dead_letter_queue.py:193-203 | So does cleaning up, which keeps exactly the entries not too old. |
| DeadLetterRuns.ReplayKeepsValid | engine/dead_letter_queue.py:174-175 | So does replaying, with disk equal to memory but for the replay fields. |
| DeadLetterRuns.OrderIsUnique | engine/dead_letter_queue.py:242-243 | A strictly ordered list is determined by its elements. |
| DeadLetterRuns.LoadRebuilds | engine/dead_letter_queue.py:230-243 | Loading a mirrored directory, listed in any order, rebuilds the list with the replay fields reset. |
| DeadLetterRuns.RunIsSound | engine/dead_letter_queue.py:98-243 | All this holds in every run of adds, cleanups, replays and reloads from an empty queue. |
| DeadLetterRuns.ReloadAfterAnyRun | engine/dead_letter_queue.py:230-243 | After any run the bound holds and loading loses nothing but the replay fields. |
| DeadLetterHistory.QueueHoldsTheRest | engine/dead_letter_queue.py:98-203 | In every run of adds, cleanups, replays and reloads, the queue holds, in order, exactly the entries added less those gone: all but the last max_entries, and those too old at a cleanup since they were added. |
| DeadLetterHistory.EntriesTellReplays | engine/dead_letter_queue.py:162-175 | In every run an entry says how often and when last its job was replayed, since it was added or loaded. |
| DeadLetterHistory.ReadableFilesAreParsed | engine/dead_letter_queue.py:234-240 | Loading any directory takes in exactly the files that can be read and skips the others. |
| DeadLetterHistory.SortingIsStable | engine/dead_letter_queue.py:242-243 | Sorting is by creation time; entries created at the same time keep their order, and none is lost. |
| Autoscaler.GPUAutoscaler.CalculateLoadScore | engine/gpu_autoscaler.py:272-319 | The capped weighted average of the reported readings, 0 without any; raises when a queue depth meets a pool without nodes. |
| Autoscaler.ScoreWithinReadings | engine/gpu_autoscaler.py:284-319 | Any bounds on the readings are, up to the cap, bounds on the score. |
| Autoscaler.ScoreOfMetrics | engine/gpu_autoscaler.py:272-319 | The score spelled out by metric, scale, cap and weight, for any choice of metrics reported. |
| Autoscaler.ScoreFollowsLoadIff | engine/gpu_autoscaler.py:284-319 | With the same metrics reported, raising any of them never lowers the score, if and only if the maximum node count is not negative. |
| Autoscaler.GPUAutoscaler.GetScalingDecision | engine/gpu_autoscaler.py:127-194 | The decision for a pool at one clock reading, none if scoring raises, nothing for an unknown pool; nothing changes. What it leads to is stated by RoundReaches. |
| Autoscaler.GPUAutoscaler.ApplyScalingDecision | engine/gpu_autoscaler.py:196-224 | Clamps the target; true if and only if the node count changed, and then stamps the change and records the decision. |
| Autoscaler.NodesFollowLoad | engine/gpu_autoscaler.py:143-215 | For fixed nodes and clock, raised metrics lower neither the target nor the node count it leads to. |
| Autoscaler.NodesStayInBounds | engine/gpu_autoscaler.py:196-224 | In every run of the loop, with metrics arriving at any time: each pool stays within its bounds, its count is the minimum plus the changes applied to it, and a change is one up, one down, or up to three up and never beyond the maximum. |
| Autoscaler.ChangesAreSpaced | engine/gpu_autoscaler.py:145-224 | In every run of the loop an applied scale-down or ordinary scale-up comes at least its cooldown after every earlier change of its pool. |
| Autoscaler.RoundReaches | engine/gpu_autoscaler.py:157-224 | In every run, one round of deciding and applying takes a pool of n nodes at a score of 0.95 or more to n + 3 within the maximum; otherwise a tenth above the target or higher to n + 1 within the maximum, and a fifth below or lower to n - 1 within the minimum, if the cooldown since its last change is over, and else leaves it. Other pools stay. |
| Autoscaler.RoundsReach | engine/gpu_autoscaler.py:321-328 | In every run, k rounds at one score, each a cooldown after the last change but in an emergency, take a pool to n + 3k, n + k or n - k within its bounds. |

## Left out

* Web and user interface code, cloud SDK calls, tracing and metrics back ends, logging, and the cryptography in
  engine/security.py: plumbing over libraries that are not part of this model.
* Constructors that raise on invalid arguments (engine/deadline.py:21-22, engine/batch.py:14-17,
  engine/retry_policy.py:36-37, engine/pipeline.py:53-54) have the check as a precondition: otherwise there is no object.
* Floating-point rounding: time, scores and delays are exact numbers.
* Plugins: loading a module and initialising a plugin is an oracle per path, fixed during one discovery. Contexts,
  loaded modules, hooks and hot reload are not modelled.
* Job queue: each public method is one step at one clock reading, and its Redis commands are atomic together. The
  commands inside complete_job do not keep the invariants one by one. The runs complete only claimed jobs;
  CompleteKeepsValidIff and LateCompletion say what other completions do. Publishing and notification handlers are left
  out.
- DistributedQueue.RedisQueue.ClaimJob: the depth at which the interpreter stops a recursion is a parameter.
* Rate limiters: FixedWindow assumes one clock for callers and Redis, and its bounds are for runs without Redis errors.
* Bridge: process handling, writing to a closed pipe, and starting a bridge whose read loop is still at work. Unpacking
  is an arbitrary function of the bytes.
* Batching: an on_batch that catches its own cancellation; here a delivery under way when the timer task is cancelled
  counts as lost. MapStage, FilterStage and the drains of Pipeline would add only easy members.
* Query bus: registration and plain ask; a handler that asks the same bus for a cached query, which waits for its own lock.
- RetryPolicy.Execute: bounds the sleep in total for non-negative delays and factors only; the source accepts any.
- BatchRun.PollJob: assumes that some round starts too late or fetches a terminal history; otherwise the loop never ends.
* Batch runner: HTTP, WebSocket, outputs and gauges. The circuit breaker it calls is modelled in CircuitBreaker;
  here its rejection is one possible outcome of a submission.
* Dead letter queue: a file name is its job id (ids with path separators are not modelled), payloads are JSON-safe
  text, and runs add entries with new ids at increasing times. Listing, statistics and the effects of replay handlers
  are left out.
* Autoscaler: status, cost and history queries; starting and stopping the loop.
