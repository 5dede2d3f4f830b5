# Spider, modelled and proved in Dafny

Spider distributes artifacts over a mesh of nodes. A publisher cuts a file tree into chunks named by
their SHA-256 digest and writes a manifest. Nodes fetch missing chunks from peers or from the origin,
verify each one, and rebuild the tree. A tracker keeps track of who has what. This project models the
parts of that system that share state or move data, and proves what they promise over every input and
every interleaving.

`dafny verify dfyconfig.toml` checks the whole project.

How the model is laid out:

- **One node.** `Node` is a step system: any number of syncs with their workers, direct puts and evictors
  share the chunk directory, the partial files, one lock per hash, the origin semaphore, the quota mutex
  and the quota index. A thread that holds a hash lock may append any bytes to the partial, and a transfer
  may stop anywhere. `NodeSafety`, `NodeProgress`, `NodePool`, `NodeCounts`, `NodeAccounting` and
  `NodeDelivery` prove what every run keeps and where it ends.
- **One chunk.** `ChunkStore`, `Transfer` and `Fetch` are the sequential code a thread runs: partial files,
  framing, resume, verify-then-rename, and the retry loop. `NodeFetch` shows that each attempt of this code is
  a run of one thread of `Node`, with the same effect on the disk and the same outcome.
- **Order of work.** `Sorting`, `Ranking` and `Scheduler`: the stable insertion sorts, rarest chunk first,
  peer statistics, the circuit breaker and the two sorts that compose. `Rounds` runs a round of downloads
  over the scheduler. `SyncScan` is the scan a sync begins with.
- **Quota.** `Eviction` and `Quota`: pins, reference counts, least-recently-used eviction, restart.
- **Uploads and reports.** `Admission` and `Advertiser` are step systems too.
- **Tracker.** `TrackerStore`, `MetaCache` and `CachedStore` are the store, the TTL cache and the
  read-through cache as classes. `TrackerCache` has what each of their operations does to store and cache as
  functions, and what every history of them keeps; `TrackerHistory` says what reads give in terms of what the
  tracker was told; `Liveness` and `Staleness` hold the timed results.
- **Artifacts.** `Paths`, `Manifest`, `Chunker`, `Publisher`, `Tree`, `Materializer`, `Verifier`; `RoundTrip`
  joins them with the node's runs.

Conventions. The digest is a parameter `sha`; where a result needs that two byte strings do not collide
it says for which strings (`NoCollision`). Clocks are parameters in integer ticks, with one reading per
operation, and no operation of the tracker takes time except in `Staleness`. File systems, peers, origins
and refusals of the operating system are parameters. Lists whose order is that of Go's map iteration are
sets. Where a lemma says "any run", a run is a finite sequence of steps of the step system.

Results where the code does less than one might expect:

- Validation sums chunk sizes in 64-bit arithmetic, so a file can pass that its chunks do not tile. It is
  tiled exactly if the sum stays below 2^63 (`Manifest.ValidFileTiles`, `Manifest.OverflowingFilePasses`).
- `SafeJoin` refuses every path when the destination cleans to `.` or `/` (`Paths.SafeJoinIsBelow`).
- `ListPeers` with an expiry can leave out a live node, because the cached list keeps old heartbeat times
  (`CachedStore.StaleListing`). It never names one that the store would not (`Liveness.ListingOnlyOmits`). A
  node that beats every P is always listed if P + hbEvery + ttl <= expiry + 1 ticks, and for every larger P
  there is a run in which it is not (`Liveness.SteadyNodeIsListed`, `Liveness.ListBoundIsTight`). With the
  defaults (5 s, 10 s, 30 s) that is P <= 15 s.
- Suppressed heartbeats count against the expiry: a node that beats every P is never pruned if
  P + hbEvery <= expiry + 1 ticks, and for every larger P some run prunes it (`Liveness.SteadyNodeStays`,
  `Liveness.PruneBoundIsTight`, `CachedStore.PrunedWhileBeating`).
- Under concurrency a fill can leave an old value behind an invalidation, until the entry expires. If writes
  give the key new values, that happens if and only if the last write and invalidation fall inside the fill
  (`Staleness.WrongExactlyOnOverlap`); if values repeat, exactly if also the store does not hold again what the
  fill read (`Staleness.WrongExactly`).
- A peer that ignores the requested offset is resumed correctly only if the offset lies within its first
  frame (`Transfer.OffsetIgnoringPeer`); the digest check catches the rest.
- One attempt at an honest peer does not always commit: it fails exactly when the partial is neither a
  prefix of the chunk nor too long to be one, and then the next attempt commits (`Fetch.HonestAttempt`,
  `Fetch.HonestPeersDeliver`). Another peer in between can spoil the second attempt as well
  (`Fetch.InterruptedPairFails`).
- The audit accepts a directory in place of an empty file if its reported size is zero
  (`RoundTrip.AuditIsExact`).
- The first delay after a failed report and the delay of an overflowed one are the configured initial delay
  even if that exceeds the maximum (`Advertiser.DelayClosedForm`).

## Model

| member | source | states |
|---|---|---|
| `NodeSafety.RunKeepsInv` | pkg/cache/cache.go:218-299 | For every interleaving, with any bytes from peers and origin: each hash lock has one holder, the semaphore counts the threads inside it and is never exceeded, a verified partial still has the bytes that were hashed, and every committed chunk hashes to its name. |
| `NodeSafety.EveryRunIsSafe` | pkg/engine/engine.go:608-726 | From any start, whatever the partial files held, no run commits bytes under a wrong name, lets two threads into one hash, or reads the origin more than `slots` times at once. |
| `NodeSafety.VerifiedPartialIsFrozen` | pkg/cache/cache.go:259-297 | Between digest check and rename no step of another thread changes the verified bytes or the verifying thread. |
| `NodeSafety.HonestPartialsArePrefixes` | pkg/engine/engine.go:608-631 | If every writer so far continued the chunk where the partial ended, every partial is a prefix of its chunk, over every run. |
| `NodeProgress.SomeThreadCanAdvance` | pkg/engine/engine.go:657-677 | No reachable state has every unfinished thread blocked: some thread can take a step that is not a cancellation, because slot, lock and mutex are asked for in one order. |
| `NodeProgress.RestMeansStopped` | pkg/engine/engine.go:402-456 | In a reachable state where no thread can go on, every worker has left its pool and every put has returned. |
| `NodePool.JobInvariant` | pkg/engine/engine.go:404-456 | At every moment of every run, pending, in-flight, fetched and failed hashes partition the missing ones, no hash was handed out twice, the counters agree, and nothing is advertised before it was committed. |
| `NodeCounts.CountersTellTheRoute` | pkg/engine/engine.go:427-445 | In every run the peer counter of a sync is the number of hashes whose worker last turned to a peer before counting them, the origin counter that of hashes it last turned to the origin for; told from the steps of the run alone. Together these are the fetched hashes, and none is counted twice. |
| `NodePool.CompletedJobHasEverything` | pkg/engine/engine.go:404-456 | A job that ended without error fetched every distinct missing hash, its counters say so, and unless an eviction intervened all its chunks are on disk with the right digest. |
| `NodePool.PoolEnds` | pkg/engine/engine.go:402-592 | However a run goes on and whatever other threads do, the workers of a sync take at most a fixed number of further steps, apart from writing bytes into partials: the queue and the attempts a hash still has pay for all of them. |
| `NodePool.RunKeepsPool` | pkg/engine/engine.go:404-445 | The partition, the single hand-out, the counters and the reasons for a worker to leave are kept by every step of every run, for all syncs at once. |
| `NodePool.RunKeepsCommits` | pkg/engine/engine.go:402-445 | What a sync fetched, skipped or advertised was committed; without evictions everything ever committed is still there. |
| `NodeDelivery.RunStaysUnderWay` | pkg/engine/engine.go:402-445 | From the start of a sync, over every run, its plan stays as it is, and what it skipped and fetched stays on disk as long as no eviction removes one of its own chunks. |
| `NodeDelivery.SyncDelivers` | pkg/engine/engine.go:334-456 | A sync that ends without error has every chunk of its plan on disk with the right digest, on a node with any history before the scan and any other syncs, puts and evictions, unless one of its own chunks was evicted after the scan. |
| `SyncScan.Scan` | pkg/engine/engine.go:334-360 | The work items have distinct hashes, are references of the manifest, and are exactly the hashes of references without a committed chunk of the right size; the skipped count is the number of the other references. |
| `SyncScan.PlanCovers` | pkg/engine/engine.go:334-360 | Missing and skipped hashes together are all hashes of the manifest; what is not on disk or has another size than a reference says is missing, a proper chunk on disk is missing only for its size, and every skipped one is on disk. |
| `NodeAccounting.NothingEscapesAccounting` | pkg/cache/manager.go:251-288 | With rename, file removal, index removal and commit hook interleaving, every chunk file is indexed or its hook is still to come, and no step removes a pinned chunk. |
| `NodeAccounting.PinProtects` | pkg/cache/manager.go:188-207 | From the moment a chunk on disk is pinned it stays there, with the right digest, through every run in which no unpin names it. |
| `NodeAccounting.RunKeepsAccounts` | pkg/cache/cache.go:288-297 | The inductive form: a file that reappears during its own eviction belongs to a commit whose hook still waits for the mutex. |
| `ChunkStore.Store.DiscardPartial` | pkg/cache/cache.go:201-210 | Removes the partial and nothing else; only a bad name is an error. |
| `ChunkStore.Store.AppendPartial` | pkg/cache/cache.go:232-256 | Appends to the partial and changes nothing else. |
| `ChunkStore.Store.CommitPartial` | pkg/cache/cache.go:259-299 | Succeeds exactly if there is a partial that hashes to the name; then the chunk has its bytes. The partial is gone either way, other hashes are untouched and every chunk stays authentic. |
| `ChunkStore.Store.PutChunk` | pkg/cache/cache.go:213-229 | Succeeds exactly if name and digest agree; then the chunk is the data and no partial is left. |
| `ChunkStore.Store.DeleteChunk` | pkg/cache/cache.go:406-412 | Removes the chunk, failing exactly if there is none, and keeps the rest authentic. |
| `Transfer.GetChunk` | pkg/peer/server.go:164-238 | From any offset, given in the request or its metadata, the frames carry exactly the rest of the chunk, contiguous, with the total and an end mark; a read error leaves a contiguous part without one; each error code exactly in its case. |
| `Transfer.OffsetGivenEitherWay` | pkg/peer/client.go:185-191 | The client's request is served from its offset, given in the request, its metadata or both; the metadata never overrides a positive one in the request. |
| `Transfer.DownloadChunkTo` | pkg/peer/client.go:196-234 | The receive loop with its skipping computes `Receive`. |
| `Transfer.HonestStreamWritesTheRest` | pkg/peer/client.go:196-234 | However the sender splits the bytes from the offset, exactly the rest of the chunk is written. |
| `Transfer.BrokenStreamWritesAPrefix` | pkg/peer/client.go:196-234 | A stream that breaks off anywhere leaves a prefix of the rest. |
| `Transfer.OffsetIgnoringPeer` | pkg/peer/client.go:211-222 | Against a peer that sends from zero in spite of the offset, the resume is right if and only if the offset lies within the first frame, because later frames are never skipped. |
| `Fetch.DownloadFromPeer` | pkg/engine/engine.go:608-655 | The method leaves the disk as `PeerAttempt` says, for any peer. |
| `Fetch.HonestAttempt` | pkg/engine/engine.go:608-655 | One uninterrupted attempt at a peer that has the chunk commits it if and only if the partial was a prefix or too long; otherwise no partial is left. |
| `Fetch.TwoAttemptsCommit` | pkg/engine/engine.go:608-655 | From any bytes in the partial at most two uninterrupted attempts commit exactly the chunk and touch nothing else. |
| `Fetch.DownloadFromOrigin` | pkg/engine/engine.go:670-726 | The method leaves the disk as `OriginAttempt` says, for any origin. |
| `Fetch.HonestOriginAttempt` | pkg/engine/engine.go:670-726 | The single origin attempt commits if and only if the partial was a prefix or too long. |
| `Fetch.FetchChunk` | pkg/engine/engine.go:536-592 | The retry loop leaves the disk as `FetchResult` says: rounds of peers, each continuing on what the last left, then the origin; at most one try per candidate, pauses by the schedule. What `FetchResult` achieves is in the next rows. |
| `Fetch.OriginDelivers` | pkg/engine/engine.go:584-592 | When no round commits, with or without rounds, the origin is asked: an honest one gets exactly the chunk committed and the partial removed if and only if the peers left a prefix of the chunk or more than the chunk. |
| `Fetch.PeersComeFirst` | pkg/engine/engine.go:536-592 | Where the rounds commit, the disk is the same for every origin; without an origin the failure of the rounds is that of the fetch. |
| `Fetch.BrokenAttempt` | pkg/engine/engine.go:608-655 | A stream that breaks leaves no partial if it was out of range or failed its check, and otherwise the partial with what arrived behind it; chunks and other partials stay. |
| `Fetch.BreakOffKeepsPrefix` | pkg/engine/engine.go:608-655 | A peer that has the chunk and breaks off anywhere leaves a prefix of it, no shorter than before. |
| `Fetch.FetchIsSound` | pkg/engine/engine.go:536-592 | With any peers and any origin a fetch touches no other hash, loses no chunk, and succeeds only with a committed chunk of the right digest. |
| `Fetch.HonestPeersDeliver` | pkg/engine/engine.go:536-592 | Wherever in the retry rounds two consecutive admitted attempts go to peers that hold the chunk, the same or not, in one round or across two, after any other peers: the fetch succeeds, and unless an earlier attempt did, exactly that chunk is committed. |
| `Fetch.InterruptedPairFails` | pkg/engine/engine.go:536-592 | The two have to be consecutive: with a peer in between that writes one wrong byte and breaks off, nothing is committed. |
| `Fetch.RoundsAreAttempts` | pkg/engine/engine.go:536-592 | The rounds with their skipped candidates do what the flat list of admitted attempts does. |
| `Fetch.TryRound` | pkg/engine/engine.go:541-568 | One pass over the ranked candidates leaves the disk as `RoundResult` says and stops at the first success. |
| `Rounds.TryCandidates` | pkg/engine/engine.go:541-568 | The same pass over a scheduler: a candidate is tried exactly if it has an address, is trusted and is below its cap when its turn comes; every begun download is ended, so each in-flight count is as before; and the disk is as `RoundResult` says for those that were tried. |
| `Rounds.TryOne` | pkg/engine/engine.go:541-568 | One candidate: tried exactly if it has an address, is trusted at that moment and is below its cap; otherwise without effect on the disk; the statistics are as `Tried` says. |
| `NodeFetch.PeerAttemptIsARun` | pkg/engine/engine.go:608-655 | Each attempt at a peer is a run of steps of one thread of the node: same chunks, same partials, same outcome, every resource given back. |
| `NodeFetch.OriginAttemptIsARun` | pkg/engine/engine.go:657-726 | The same for the attempt at the origin, with its slot. |
| `NodeFetch.FinishedIs` | pkg/engine/engine.go:657-726 | Where such a run ends: the attempt's disk, every resource as it was, and the worker has the chunk or has left its pool. |
| `NodeFetch.PutIsARun` | pkg/cache/cache.go:213-229 | The same for a direct put. |
| `Fetch.PauseDoubles` | pkg/engine/engine.go:569-581 | The loop's doubling and capping step is the closed form of the schedule. |
| `Sorting.InsertionSort` | pkg/engine/engine.go:594-606 | The in-place swap loop computes the functional insertion sort. |
| `Sorting.SortOrders` | pkg/engine/engine.go:598-605 | For every strict weak order the result is ordered. |
| `Sorting.SortPermutes` | pkg/engine/engine.go:598-605 | The result is a permutation. |
| `Sorting.SortIsStable` | pkg/engine/engine.go:597-605 | Elements the order does not separate keep their order. |
| `Sorting.SortLexicographic` | pkg/engine/engine.go:597-605 | Sorting an already sorted list by a second order is lexicographic: the new order first, the old one among equals. |
| `Sorting.StrLessIsLexicographic` | pkg/scheduler/scheduler.go:98 | The string comparison: the first difference decides, and a proper prefix comes first. |
| `Ranking.RarestFirst` | pkg/scheduler/scheduler.go:167-197 | A permutation of the given hashes: those that some peer has in front, in ascending order of how many peers have them, the others behind. |
| `Ranking.RarestItemsOrder` | pkg/scheduler/scheduler.go:167-197 | A stable permutation, ascending by peer count, chunks without peers last. |
| `Ranking.PendingQueue.Next` | pkg/engine/engine.go:195-210 | Hands out one pending hash and removes it, none only if none is pending; if some peer has a pending hash, the one handed out is held by some peer and by no more than any other. |
| `Ranking.NamesInOrder` | pkg/scheduler/scheduler.go:167-197 | The names taken from the sorted items are a permutation of the given hashes in that order. |
| `Ranking.SortByAssigned` | pkg/engine/engine.go:594-606 | Sorts the array in place: a permutation with the loads ascending, in which peers of equal load keep their order. |
| `Scheduler.HistoryOfPeer` | pkg/scheduler/scheduler.go:102-157 | Over every paired history in-flight equals the open pairs and stays within the cap, and the failure count is the run of failures since the last success or reset. |
| `Scheduler.RttStaysBetween` | pkg/scheduler/scheduler.go:134-139 | Over every history the round-trip average lies between the smallest and largest sample. |
| `Scheduler.ThroughputStaysBetween` | pkg/scheduler/scheduler.go:140-147 | The same for the throughput average. |
| `Scheduler.RttApproaches` | pkg/scheduler/scheduler.go:134-139 | A sample moves the round-trip average an eighth of the way towards it, rounded down; the first is taken as it is. |
| `Scheduler.ThroughputApproaches` | pkg/scheduler/scheduler.go:140-147 | After any history and k equal samples the throughput average has seven eighths to the k of its distance from them left. |
| `Scheduler.BreakerOpensOnThirdFailure` | pkg/scheduler/scheduler.go:149-157 | The breaker opens exactly on failures that make at least three in a row, and only forgiveness closes it. |
| `Scheduler.PeerScheduler.BeginDownload` | pkg/scheduler/scheduler.go:102-111 | Grants and counts a download exactly below the cap. |
| `Scheduler.PeerScheduler.EndDownload` | pkg/scheduler/scheduler.go:127-157 | Updates one record as `Ended` says and no other. |
| `Scheduler.PeerScheduler.RankPeers` | pkg/scheduler/scheduler.go:52-100 | Each candidate as often as it was given, a candidate being a peer with an address that was not shunned for a breaker opened less than fifteen minutes ago, or any with an address if all were. In the list distance ascends, then in-flight, then throughput descends, then round trip ascends, then node ids do not descend. Statistics change exactly by forgiving, at the listed addresses, what is fifteen minutes old. |
| `Scheduler.BetterIsOrder` | pkg/scheduler/scheduler.go:80-100 | The comparison is a strict weak order, so that every stable sort gives one result. |
| `Scheduler.NotWorseMayPrecede` | pkg/scheduler/scheduler.go:80-100 | One peer may stand before another by this comparison if and only if it may by distance, in-flight, throughput, round trip and node id, in numbers. |
| `Scheduler.RankThenAssign` | pkg/engine/engine.go:539-540 | Ranking and then sorting by assigned load is a permutation of the pool in which the load ascends as a number, and among equal loads distance, in-flight, throughput, round trip and node id are in the order above. |
| `Scheduler.PoolIsTrusted` | pkg/scheduler/scheduler.go:52-78 | The pool has every trusted peer and only trusted ones, or only untrusted ones if no peer is trusted. |
| `Scheduler.PoolCounts` | pkg/scheduler/scheduler.go:52-78 | How often each peer is in the pool: as often as it was given if it is a candidate, else not at all. |
| `Quota.RunKeepsCounts` | pkg/cache/manager.go:166-222 | Over every run of touch, pin, unpin, evict, flush and restart each reference count is the number of pinned artifacts that list the hash, so every pinned chunk stays indexed and counted. |
| `Quota.PinIsIdempotent` | pkg/cache/manager.go:188-207 | A second pin of an artifact changes nothing. |
| `Quota.UnpinUndoesPin` | pkg/cache/manager.go:188-222 | Unpinning after pinning a manifest's distinct hashes restores pins, counts and access times; only filled-in sizes and new entries stay. |
| `Quota.PinRaises` | pkg/cache/manager.go:188-207 | A first pin adds one reference to each listed hash, keeps access times and known sizes, and fills in an unknown size from the file. |
| `Quota.UnpinLowers` | pkg/cache/manager.go:209-222 | An unpin takes back one reference for each listing and goes no lower than zero; sizes and access times stay. |
| `Quota.RestartKeeps` | pkg/cache/manager.go:80-125 | From any saved index a restart neither breaks nor repairs the counts. |
| `Quota.PinnedIsReferenced` | pkg/cache/manager.go:267-272 | No chunk of a pinned artifact is an eviction candidate. |
| `Quota.QuotaManager.constructor` | pkg/cache/manager.go:42-125 | Startup with or without an index file: entries on file stay as they are, each unknown chunk file gets an entry with its size, the present and no references, nothing else is added; the index is saved, and the counts are exactly as consistent as on file. |
| `Quota.Reconcile` | pkg/cache/manager.go:104-124 | The loop over the chunk directory computes that index. |
| `Quota.QuotaManager.TouchChunk` | pkg/cache/manager.go:166-177 | The entry gets the present as its access time and the size if that is positive; its references, all other entries and the pins stay, and the index is dirty. |
| `Quota.TouchedGoesLast` | pkg/cache/manager.go:166-177 | Whatever a fair eviction removes from a touched index: the touched chunk, if used later than every other, goes only if every other unreferenced one that can go has gone. |
| `Quota.TouchThenEvict` | pkg/cache/manager.go:251-288 | The two calls on the object, with that outcome. |
| `Quota.QuotaManager.FlushIndex` | pkg/cache/manager.go:149-157 | Whatever came before, the file then holds the index: every operation keeps the invariant that an index that is not dirty is the one on file. |
| `Quota.QuotaManager.PinArtifact` | pkg/cache/manager.go:188-207 | From any index: counts every distinct hash of the manifest once, and keeps counts and pins in agreement if they were. |
| `Quota.QuotaManager.UnpinArtifact` | pkg/cache/manager.go:209-222 | From any index, even one that lists a hash twice: takes the references back, never below zero, and keeps the agreement. |
| `Quota.QuotaManager.MaybeEvict` | pkg/cache/manager.go:251-288 | From any index: below the high mark nothing happens. Else the same hashes leave disk and index; only unreferenced ones that can be deleted go, none used later than one of those that stays; the total is then at most the low mark or nothing removable is left, and without the last of them it would not have been. Counts stay in agreement if they were. |
| `Quota.WhatFairMeans` | pkg/cache/manager.go:251-288 | The same of any fair eviction, in sizes, access times and references. |
| `Quota.SweepIsFair` | pkg/cache/manager.go:275-285 | The loop, from wherever it stands: the same hashes go from disk and index, they are counted, and the result is a fair eviction. |
| `Eviction.LoopEnds` | pkg/cache/manager.go:275-285 | What the loop has reached when it stops: only unreferenced entries went, none newer than one that stayed, the last one was needed, and the target is met or nothing removable is left. |
| `Eviction.LoopEvicts` | pkg/cache/manager.go:275-285 | One eviction keeps `used` equal to the indexed total and the candidates in order. |
| `Eviction.SortByAccess` | pkg/cache/manager.go:267-273 | The candidates, each once, in order of last access. |
| `Admission.EveryRunIsBounded` | pkg/peer/server.go:91-124 | For every interleaving of arrivals, refusals, cancellations and releases at most `maxConcurrency` uploads run, at most `maxQueue` wait, the counter counts the counted, and a release never finds the semaphore empty. |
| `Admission.TicketsAfter` | pkg/peer/server.go:103-107 | The inductive fact: for every k at most k counted requests hold a ticket up to k. |
| `Admission.RefusalIsEarned` | pkg/peer/server.go:95-107 | A request queues only while all slots are taken and is refused for a full queue only while `maxQueue` others are counted. |
| `Admission.FreeSlotIsGiven` | pkg/peer/server.go:95-102 | In every run an arriving request gets a slot at once if and only if fewer than `maxConcurrency` are held; otherwise it is turned away if there is no queue, and goes on to draw a ticket if there is one. |
| `Admission.QueueAdmits` | pkg/peer/server.go:103-107 | A request that draws its ticket after any run, and is checked after anything others do in between, waits if fewer than `maxQueue` were counted at the draw, and is refused otherwise. |
| `Admission.RefusedForCause` | pkg/peer/server.go:103-112 | In every run a refused request had drawn a ticket above `maxQueue` or was cancelled. |
| `Admission.GrantLeadsToActive` | pkg/peer/server.go:108-110 | A waiting request can take a slot exactly while one is free, and then becomes active whatever others do before it returns. |
| `Admission.CancelLeadsToDone` | pkg/peer/server.go:111-112 | A waiting request can be cancelled at any time, and then is done whatever others do before it returns. |
| `Admission.SomeRequestCanAdvance` | pkg/peer/server.go:108-124 | While a request is unfinished some request has a step other than a cancellation. |
| `Admission.Effective` | pkg/peer/server.go:65-71 | The limits in force are positive and not negative whatever was configured. |
| `Advertiser.RunKeepsInv` | pkg/advertise/advertise.go:65-207 | Over every run each accepted hash is in exactly one place, its place says how often it was reported, and channel, batch and retry queue keep their bounds. |
| `Advertiser.StepConserves` | pkg/advertise/advertise.go:95-207 | Each step moves items between places and creates none but the enqueued one. |
| `Advertiser.ReportsAreBounded` | pkg/advertise/advertise.go:185-207 | At most `maxRetries` reports per item; an abandoned item had all of them, an acknowledged one at least one, a dropped one not all. |
| `Advertiser.StopDrains` | pkg/advertise/advertise.go:108-118 | When the loop has ended nothing is left in batch or report, and everything that came through the channel before was reported. |
| `Advertiser.Backoff` | pkg/advertise/advertise.go:136-145 | The doubling loop with its early stop computes `Delay`. |
| `Advertiser.DelayClosedForm` | pkg/advertise/advertise.go:136-145 | The delay is the initial one for attempts 0 and 1 and `min(initial * 2^(k-1), max)` from k = 2 on. |
| `Advertiser.ScheduleRetry` | pkg/advertise/advertise.go:132-162 | Queues as many as fit, in order, with the right time, and drops the rest. |
| `Advertiser.WhereHashesGo` | pkg/advertise/advertise.go:65-76 | An empty hash changes nothing; another one joins the channel while 1024 fit, and is spilled otherwise. |
| `Advertiser.SpilledIsQueued` | pkg/advertise/advertise.go:65-76 | A spilled hash is queued as attempt 0, due after the initial delay, while 4096 fit. |
| `Advertiser.FailedBatchIsQueued` | pkg/advertise/advertise.go:185-207 | While attempts are left and the queue has room, each item of a failed report is queued for the next attempt, due after the initial delay doubled for each attempt but the first, at most the maximum; nothing is dropped. |
| `Advertiser.RetriedWhenDue` | pkg/advertise/advertise.go:164-183 | Over every run in which all collections come before its time, an entry stays queued; the next collection takes it if and only if its time has come or a stop forces it. |
| `Advertiser.WhatGoesOut` | pkg/advertise/advertise.go:95-130 | A batch is reported exactly when it is full, on a tick, and at the end of the drain; it has all that was buffered, in order. |
| `Advertiser.RetryGoesOut` | pkg/advertise/advertise.go:180-183 | Due entries are reported one by one, in order, each with the attempt it was queued for. |
| `Advertiser.WhatReportsDo` | pkg/advertise/advertise.go:185-207 | A report that succeeds acknowledges its batch; one that fails for the last time abandons it. |
| `Advertiser.TakeDue` | pkg/advertise/advertise.go:164-180 | Splits the queue into due and waiting entries, both in order. |
| `Advertiser.Reconcile` | pkg/advertise/advertise.go:78-93 | Enqueues every non-empty hash exactly once. |
| `TrackerStore.MemoryStore.UpsertPeer` | pkg/store/memory.go:41-55 | Stores the peer, with the present for an unset heartbeat and HEALTHY for an empty status, and no other; an empty id changes nothing. |
| `TrackerStore.MemoryStore.Heartbeat` | pkg/store/memory.go:57-67 | Moves the heartbeat of a known peer and says whether it is known. |
| `TrackerStore.MemoryStore.DeregisterPeer` | pkg/store/memory.go:93-104 | The node is not among the peers and the others are as they were; seeds and chunks keep their keys, and each list is the old one without the node; artifacts stay. |
| `TrackerStore.MemoryStore.PruneExpiredPeers` | pkg/store/memory.go:106-126 | The peers left are exactly those heard from within the expiry, as they were; seeds and chunks keep their keys, and each list loses exactly the peers that went; artifacts stay; the count is how many fewer peers there are. |
| `TrackerStore.MemoryStore.ReportSeed` | pkg/store/memory.go:146-156 | One node joins one seed list, and no list changes otherwise. |
| `TrackerStore.MemoryStore.ReportChunks` | pkg/store/memory.go:172-194 | The node joins the list of exactly the non-empty hashes given, its heartbeat moves if it is known, no other peer changes, and the non-empty hashes are counted. |
| `TrackerStore.MemoryStore.LocateChunkNodesBatch` | pkg/store/memory.go:207-219 | Answers every requested hash. |
| `TrackerStore.MemoryStore.GetPeersBatch` | pkg/store/memory.go:221-232 | Answers exactly the known ids. |
| `TrackerStore.FilterExpiry` | pkg/store/cached.go:137-149 | Keeps exactly the peers heard from within the expiry, all if it is not positive. |
| `MetaCache.TextIsInjective` | pkg/store/cached.go:13-20 | Different keys have different texts. |
| `MetaCache.PrefixMeansKind` | pkg/store/cached.go:13-20 | Deleting by a prefix deletes exactly the keys of one kind. |
| `MetaCache.Memory.MGet` | pkg/metacache/memory.go:77-89 | Exactly the live requested entries; only expired ones disappear. |
| `MetaCache.Memory.MSet` | pkg/metacache/memory.go:91-98 | Stores all entries and touches no other key. |
| `MetaCache.Memory.DeletePrefix` | pkg/metacache/memory.go:107-116 | Removes exactly the keys of one kind. |
| `MetaCache.Memory.Sweep` | pkg/metacache/memory.go:32-45 | The janitor changes no answer. |
| `TrackerCache.ReadsAgree` | pkg/store/cached.go:67-330 | After any history of operations, expiries and sweeps, artifact, seed and chunk-node reads through the cache, single or batched, are the store's answers; peer reads and the full list are, except for heartbeat times. |
| `TrackerHistory.ReadsSayWhatWasSaid` | pkg/store/cached.go:67-330 | After any history a seed or chunk read, single or batched, names a node if and only if a report named it there and nothing has taken the node out since, by deregistration or by a prune that found it silent; a peer read or full list finds a node if and only if it registered and was not taken out since. |
| `TrackerHistory.ReadsLastPut` | pkg/store/cached.go:176-196 | After any history an artifact read gives exactly the record last put under that name. |
| `TrackerHistory.ReadsLastRegistered` | pkg/store/cached.go:107-119 | After any history a peer read gives what the node last registered with, apart from the heartbeat time. |
| `TrackerHistory.WhoIsWhere` | pkg/store/memory.go:41-219 | The same of the store behind the cache. |
| `TrackerCache.WriteKeeps` | pkg/store/cached.go:67-230 | A write keeps every cached entry right if it invalidates at least the keys whose answers it can change. |
| `TrackerCache.ExpiryKeeps` | pkg/metacache/memory.go:32-63 | Entries may disappear at any time without breaking the agreement. |
| `TrackerCache.DoKeeps` | pkg/store/cached.go:67-330 | Every operation, read or write, keeps every entry, live or expired, in agreement with the store. |
| `CachedStore.CachedStore.constructor` | pkg/store/cached.go:33-53 | Default lifetime, five seconds between flushes; over any given cache the object is valid exactly if what it holds agrees with the store. |
| `CachedStore.CachedStore.UpsertPeer` | pkg/store/cached.go:67-74 | Store and cache change as `AfterUpsert` says, and every cached entry stays in agreement with the store. |
| `CachedStore.CachedStore.DeregisterPeer` | pkg/store/cached.go:151-161 | The store loses exactly this node, from its peers and every list; the cache changes as `AfterDeregister` says, and every cached entry stays in agreement with the store. |
| `TrackerCache.DeregisteredIsUnnamed` | pkg/store/cached.go:151-161 | Right after it no read of seeds, chunk nodes or peers, single or batched, cached or not, names the node. |
| `CachedStore.CachedStore.PruneExpiredPeers` | pkg/store/cached.go:163-174 | The store loses exactly the peers silent for longer than the expiry, from its peers and every list; every cached entry stays in agreement, with no invalidation when nobody was pruned. |
| `TrackerCache.PrunedIsUnnamed` | pkg/store/cached.go:163-174 | Right after it no read, single or batched, cached or not, names a peer that was silent for longer. |
| `CachedStore.CachedStore.PutArtifact` | pkg/store/cached.go:176-182 | The same for artifacts. |
| `CachedStore.CachedStore.ReportSeed` | pkg/store/cached.go:198-205 | The same for seeds. |
| `CachedStore.CachedStore.ReportChunks` | pkg/store/cached.go:221-230 | The same for chunk locations. |
| `CachedStore.CachedStore.Heartbeat` | pkg/store/cached.go:76-105 | Store, cache, flush record and answer are as `AfterBeat` says; no key but the node's own is touched, and the agreement is kept. |
| `CachedStore.CachedStore.GetPeer` | pkg/store/cached.go:107-119 | The store's peer except for its heartbeat time, absent exactly if the store has none; a found peer is cached. |
| `CachedStore.CachedStore.ListPeers` | pkg/store/cached.go:121-135 | The unexpired part of a list that agrees with the store except for heartbeat times; without an expiry all of the store's peers. |
| `Liveness.ListingOnlyOmits` | pkg/store/cached.go:121-149 | In every registry run a listing names only nodes that the store would name: the times in the cached list never exceed the store's. |
| `CachedStore.StaleListing` | pkg/store/cached.go:121-149 | A run of the object with default settings: register, list, beat, list; the second list leaves out a node whose beat of a second ago is in the store. |
| `CachedStore.PrunedWhileBeating` | pkg/store/cached.go:76-105 | A run of the object: register, beat, look up, beat, prune; both beats are acknowledged and the node is gone. |
| `CachedStore.CachedStore.GetArtifact` | pkg/store/cached.go:184-196 | The store's answer. |
| `CachedStore.CachedStore.ListSeeds` | pkg/store/cached.go:207-219 | The store's answer, cached even if empty. |
| `CachedStore.CachedStore.LocateChunkNodes` | pkg/store/cached.go:232-244 | The store's answer, cached even if empty. |
| `CachedStore.CachedStore.LocateChunkNodesBatch` | pkg/store/cached.go:246-284 | The store's answer for every requested hash, whatever was cached. |
| `CachedStore.CachedStore.GetPeersBatch` | pkg/store/cached.go:286-330 | Exactly the known ids, with the store's records except for heartbeat times. |
| `Liveness.AckIsRecent` | pkg/store/cached.go:76-105 | A heartbeat acknowledged at t leaves the store's time for the node later than t minus `hbEvery`. |
| `Liveness.SteadyNodeStays` | pkg/tracker/registry.go:43-65 | Over every registry run a node that beats at least every P stays and all its beats are acknowledged, if P + hbEvery <= expiry + 1 ticks. |
| `Liveness.SteadyNodeIsListed` | pkg/tracker/registry.go:199-211 | And it is in every list of peers, cached or not, if P + hbEvery + ttl <= expiry + 1 ticks. |
| `Liveness.RegisteredNodeStays` | pkg/tracker/registry.go:43-65 | Both for a node that registers after any history of the tracker. |
| `Liveness.PruneBoundIsTight` | pkg/tracker/registry.go:213-222 | For every period of at least a tick beyond that bound there is a run in which such a node, looked up before each beat, is pruned. |
| `Liveness.ListBoundIsTight` | pkg/tracker/registry.go:199-211 | For every period beyond the bound for lists there is a run in which such a node is left out of a list. |
| `Staleness.AgeIsBounded` | pkg/store/cached.go:184-284 | With fills and writers interleaving, every value returned was the store's value at most ttl plus its fill's duration before it was obtained. |
| `Staleness.WrongExactlyOnOverlap` | pkg/store/cached.go:198-219 | In every run whose writes give the key a value it has not had before, once writers have invalidated, a cached value is wrong if and only if the last write and invalidation fell inside its fill. |
| `Staleness.WrongExactly` | pkg/store/cached.go:198-219 | In every run whatsoever it is wrong if and only if they fell inside its fill and the store does not hold again the value that the fill read. |
| `Staleness.WrongMeansOverlap` | pkg/store/cached.go:198-219 | The half that holds for all writes: a wrong entry means such an overlap. |
| `Staleness.OverlapLeavesOldValue` | pkg/store/cached.go:198-219 | Such a fill does leave the old value behind. |
| `Paths.ValidPathIsInside` | api/v1/manifest.go:53-69 | A relative path is accepted if and only if it stays below its directory. |
| `Paths.NormalizedPath` | api/v1/manifest.go:46-51 | The normal form is valid exactly for paths that stay inside; it keeps the elements and is a fixed point. |
| `Paths.SafeJoinIsBelow` | pkg/materializer/path.go:10-25 | A valid path lands below the destination under its clean name; for the destinations `.` and `/` everything is refused. |
| `Manifest.ReorderingKeepsID` | api/v1/manifest.go:72-88 | With distinct paths any reordering of the files leaves the artifact ID unchanged. |
| `Manifest.SameIDSameContent` | api/v1/manifest.go:72-88 | Where the digest does not collide, equal IDs mean equal manifests up to file order, and conversely. |
| `Manifest.SortedFilesAreUnique` | api/v1/manifest.go:77-80 | With distinct paths every correct sort gives the same list, so an unstable sort is harmless. |
| `Manifest.Validate` | api/v1/manifest.go:119-181 | The loops accept exactly the manifests that satisfy `Valid`. |
| `Manifest.ValidateChunks` | api/v1/manifest.go:149-161 | Accepts exactly the chunk lists with proper names and sizes whose offsets are the running 64-bit sums. |
| `Manifest.ValidFileTiles` | api/v1/manifest.go:149-165 | A file that passes is tiled by its chunks if and only if their sizes sum to less than 2^63. |
| `Manifest.OverflowingFilePasses` | api/v1/manifest.go:149-165 | A file that passes and is not tiled. |
| `Manifest.FinalizedIsValid` | api/v1/manifest.go:91-181 | Finalize followed by Validate succeeds if and only if names, sizes, paths and tilings were good. |
| `Manifest.ArtifactManifest.Finalize` | api/v1/manifest.go:91-116 | Rewrites the object in place as `Finalized` says. |
| `Manifest.ArtifactManifest.Prepare` | api/v1/manifest.go:91-111 | All but the ID: schema version 1 and chunk size 4 MiB where unset, name, version and ID as they were, paths normalized, sizes summed, files sorted. |
| `Manifest.AllChunkHashes` | api/v1/manifest.go:184-196 | Every hash of the manifest, each once. |
| `Chunker.ChunkStream` | pkg/chunk/chunker.go:64-93 | The read loop hands out the pieces of the stream with digest, offset and size, and fails exactly if the stream breaks. |
| `Chunker.PiecesChunk` | pkg/chunk/chunker.go:64-93 | The pieces concatenate to the data, are never empty, and all but the last are full. |
| `Chunker.RefsTile` | pkg/engine/publisher.go:66-78 | Each reference starts where the ones before it end. |
| `Publisher.EntryIsWellMade` | pkg/engine/publisher.go:65-107 | A published entry is good if and only if its path stays inside and the listed size is what was read (given digests that are names). |
| `Publisher.Publisher.PublishFile` | pkg/engine/publisher.go:60-107 | Chunks one file into the cache, losing nothing that was there; the entry has the path, the listed size, the mode (0644 if none) and the references. |
| `Publisher.Publisher.Publish` | pkg/engine/publisher.go:33-122 | Succeeds exactly if the listing was not empty, every read worked and the draft was well made; then the manifest is the valid finalized draft and every chunk is cached. |
| `Tree.OpenedWhenFree` | pkg/materializer/materializer.go:75-122 | The next target can be opened if and only if it and those before it are in nobody's way. |
| `Tree.WrittenAfter` | pkg/materializer/materializer.go:114-122 | Writing a target changes that file and the directories it needs, and nothing else. |
| `Materializer.Assemble` | pkg/materializer/materializer.go:124-154 | Succeeds exactly if every chunk is there, long enough and of the right digest and the sizes add up; then it yields their concatenation. |
| `Materializer.Materialize` | pkg/materializer/materializer.go:55-112 | Succeeds if and only if manifest, destination, chunks and tree allow it and nobody cancels; then every file holds its chunks' bytes and nothing else has changed; a failure touches no file but the targets. |
| `Verifier.VerifyChunks` | pkg/verifier/verifier.go:156-190 | A file's chunk loop accepts exactly if every reference covers bytes of its digest. It counts as verified exactly the references that match and as corrupt the others it could read, up to the first it could not. |
| `Verifier.VerifyContents` | pkg/verifier/verifier.go:144-190 | The report after one file of the declared size: these counts, one more valid or corrupt file, and nothing missing. |
| `Verifier.VerifyMaterializedDirectory` | pkg/verifier/verifier.go:82-209 | For any directory: valid, corrupt and missing files add up to the total, the missing ones are exactly those whose path can be joined and leads to nothing, each result is right, and AllValid holds if and only if every file matches; then every reference was verified. |
| `RoundTrip.AuditDecides` | pkg/verifier/verifier.go:144-190 | A file passes the audit of a chunking if and only if it is the chunked file. |
| `RoundTrip.AuditIsExact` | pkg/verifier/verifier.go:95-206 | A published file passes exactly with the source's bytes, or as a directory of reported size zero if it is empty. |
| `RoundTrip.DeliveredAssembles` | pkg/materializer/materializer.go:114-157 | From chunks that were verified on arrival every published file assembles to the source's bytes. |
| `RoundTrip.MaterializedIsSource` | pkg/materializer/materializer.go:55-157 | From any chunk map whatever, so also after evictions: if every file of a publication can be assembled, the materialized tree has every source file, byte for byte. |
| `RoundTrip.AssembledIsSource` | pkg/materializer/materializer.go:124-154 | The same for one file: chunks that pass the digest check add up to the source's bytes. |
| `RoundTrip.SyncDelivers` | pkg/engine/engine.go:334-456 | A sync of a published manifest, planned by the scan of the node's disk, that ends without error in any run delivers every chunk of every source file, unless one of them was evicted after the scan. |
| `RoundTrip.PremisesCanBeMet` | pkg/engine/publisher.go:65-107 | The premises of the round trip hold together: a tree of one file of one byte, and an empty node one of whose workers fetches that chunk from a peer. |
| `RoundTrip.MaterializeVerify` | pkg/engine/engine.go:458-463 | From any chunks: if materializing succeeds, every source file is reproduced and the audit says AllValid; from delivered chunks it succeeds exactly if the targets are free; other files are never touched. |
| `RoundTrip.PublishSyncVerify` | pkg/engine/engine.go:314-463 | Publish on one node, scan and sync another in any run of its threads, with any evictions, that ends without error, materialize there, audit: success means that every file is reproduced byte for byte and the report says AllValid, and it is exactly that the targets are free if no chunk of the tree was evicted after the scan. |

## Left out

- gRPC, HTTP, Prometheus, logging, command line, configuration loading, benchmarks: plumbing.
- S3, Redis and SQL back ends; the origin is a byte-range function, the store and cache are the in-memory ones.
- SHA-256 and JSON: the digest is a parameter, and encodings are taken to round-trip.
- Upload bandwidth sharing, fleet watch, topology and connection-pool limits; distance is a parameter of the ranking.
- Symbolic links, and other processes in the cache directory.
- `PublishFromMemory`, `LocateChunks` and `LocateArtifact` of the registry, location refresh: they would only add easy members.
- Byte counters of a job and the advertiser's queue-depth gauge: the code does not keep them exact.
- Worker errors of different concrete types in one atomic value: taken not to happen.
- ChunkStore.Store.DiscardPartial: a removal that the system refuses is not modelled here; in `Node` it is the step `Abort`.
- ChunkStore.Store.AppendPartial: a failing open, write or sync is not modelled here; in `Node` it is an `Append` of part of the bytes and then `Abort`.
- ChunkStore.Store.CommitPartial: failures of mkdir and rename, and the commit hook, are not modelled here; in `Node` they are the steps `Abort` and `RunHook`.
- Transfer.DownloadChunkTo: the sink takes every write; a failing one is in `Node` as for `AppendPartial`.
- Fetch.DownloadFromPeer: a failing local append is left to `Node`; a dial error is a peer whose reply is an error without frames.
- Fetch.TryRound: admission by the scheduler is a flag of the candidate; `Rounds.TryCandidates` has the scheduler.
- Fetch.FetchChunk: cancellation during a pause is not modelled, and the candidates of the later rounds are given.
- SyncScan.Scan: the scan sees one state of the disk, where the code looks at one chunk after the other; bytes reused are not counted.
- NodeDelivery.SyncDelivers: a sync with nothing missing has workers that leave at once, where the code starts none.
- Publisher.Publisher.Publish: the listing is given; a failing one has no effect. A cancelled context acts like a file that does not open.
- Materializer.Materialize: hard links and file modes are not modelled.
- Ranking.SortByAssigned: the assigned loads are one snapshot, while the code reads them during the sort.
- Quota.QuotaManager.constructor: the watermarks are given in bytes, without the default limits; an index file that is there is taken to be readable.
- Quota.QuotaManager.FlushIndex: a write of the index that fails is not modelled.
- NodePool.JobInvariant: the counters of one fetched hash and its enqueueing are one step, so the moments between the single atomic additions are not visible.
- NodeAccounting.NothingEscapesAccounting: the quota index is the set of its keys, and pins are the set of hashes with a positive count; the counts are in `Quota`.
- Quota.QuotaManager.MaybeEvict: the watermarks are integers, and sizes are summed without 64-bit wrap-around.
- Scheduler.RttStaysBetween: the average is the integer `(7*old + d) / 8`, where the code rounds a floating-point product.
- Scheduler.ThroughputStaysBetween: throughput is a real number, without floating-point rounding.
- Scheduler.RankThenAssign: the assigned loads are one snapshot, while the code reads them during the sort.
- Advertiser.Backoff: durations do not wrap around, which would need a maximum above 2^62 nanoseconds.
- Advertiser.StopDrains: entries whose forced last retry fails stay in the queue, so nothing is said about their delivery.
- Liveness.SteadyNodeStays: a heartbeat is one step; two concurrent beats of one node are not interleaved.
- Staleness.AgeIsBounded: follows one key at a time; a batch is the same steps for each of its keys.
- RoundTrip.SyncDelivers: a run in which eviction removes chunks of the artifact may not deliver; `RoundTrip.PublishSyncVerify` covers it.
- RoundTrip.PublishSyncVerify: the materializer sees one state of the chunk directory, where the code opens one chunk after the other.
- Verifier.VerifyMaterializedDirectory: read errors of the operating system other than reading a directory, and cancellation, are not modelled.
- Manifest.Validate: text is a sequence of characters; the source counts bytes.
