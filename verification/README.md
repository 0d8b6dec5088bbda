# ECS metrics exporter: a verified model

A Dafny model of the exporter's runtime: the resilient request engine, the collectors and the
cache they share, the parsers of Flux tables, version and profile resolution, and the two
readers of the cache. Each part is a specification, the loops and state changes of the program
proved against it, and theorems over every input, every run or every reachable state.

- **Requests** (`Breaker`, `Backoff`, `Limiter`, `Auth`, `Retry`, `Calls`, `Api`): the circuit
  breaker as a function of its history, exact 64-bit backoff, a token bucket with a window bound,
  a login cache over every interleaving of callers, and the retry loop with one free
  re-authentication.
- **Collectors** (`Lifecycle`, `WorkerPool`, `Paginator`, `Conversations`, `Billing`,
  `NodeMachine`): state machines whose steps are those of the program's threads, and loops over
  servers that may answer anything. `InForce` says which inventory the resolution in force comes from; `EarlyTurns` and
  `EarlyInventories`, with `Continuations` and `ExampleCluster`, say exactly what can go wrong
  before bootstrap has completed. `Collectors`, `BucketCollector` and `Inventories` are the other
  collectors from the answers of the API to the store.
- **Cache** (`HeapRecords`, `HeapReplications`, `HeapFlats`, `Recovery`, `Cache`, `Listing`):
  records with pointers and slices on the heap. Every operation is specified by the values its
  records stand for and by which objects are new, so isolation of snapshots is proved.
  `NodeCache` runs the node domains of all clusters over one such store.
- **Flux tables** (`Flux`, `NodeReadings`, `NodeAccumulator`, `NodeResources`, `NodeDomain`,
  `NodeFacts`, `Merging`, `Performance`, `PerformanceSeries`): row accumulators that refine "the
  unique row with this label", merging across queries, and the nodes and metrics that result, told
  from the rows. `SingleRows`, `MemoryOrder` and `InterfaceLimit` are answers that show what merging does not keep.
- **Profiles** (`Version`, `Catalog`): the version pattern, disjoint ranges and a meet over
  capabilities. **Freshness** and `Agreement`: health and metrics read the same states alike.
- `Common` and `Text` hold shared vocabulary: NUL-joined keys, string order, sorting, name
  normalisation.

Conventions. A Go string is its byte sequence. Floating-point numbers are reals and times are
integers in nanoseconds. Cluster names are free of NUL bytes, as configuration validation
requires. Library routines (trimming, case, number and time readers) and everything a server
answers are parameters. Iteration over a Go map is a choice of any remaining key. A library
sort is a sorting function proved to give the only sorted arrangement when keys are distinct.
A context that may be cancelled is a parameter that says when. The store's replacements accept
arguments made of any memory, its own lists included, as they copy before they store; only the
merge in place, `MergeRecovery`, asks for an argument apart from it. No operation hands out any.

Results that qualify what one might expect: a merge of resource records does not keep memory
order or the interface limit (`MemoryOrderAfterMerge` and `InterfacesAddUp` say exactly when it
does); a node collection that begins while bootstrap is between publishing the
resolution and replacing the nodes can lose a node or bring back old resources, and leave a store
that the resolution does not come from (`DropsIffThreatened`, `MixesUpIffOvertaken` and
`FitIsLostIff` say exactly when); a
cancelled parent lets the quota step end early without an error (`CancelledParentCanSkip`), which
only the failing billing requests after it keep from being published (`SuccessIsComplete`); a
batch of recovery entries that repeats an unknown id leaves it repeated (`DistinctAfterMerge`).

## Model

| member | source | states |
|---|---|---|
| Breaker.CircuitBreaker.Allow | internal/ecs/client.go:559-570 | a call is refused iff the breaker is open and its time has not come; an expired opening is forgotten together with the failures |
| Breaker.CircuitBreaker.Success | internal/ecs/client.go:572-577 | a success forgets failures and opening time |
| Breaker.CircuitBreaker.Failure | internal/ecs/client.go:579-586 | a failure is counted, and from the fifth on opens the breaker for 30 s |
| Breaker.StateMeansHistory | internal/ecs/client.go:553-586 | after any trace of calls the counter is the number of failures since the last reset, and the breaker is open iff that is at least five, until 30 s after the latest failure |
| Breaker.RefusalMeansHistory | internal/ecs/client.go:559-570 | a call is refused iff at least five failures were recorded since the last success or expired admission and less than 30 s have passed since the latest failure |
| Breaker.HalfOpenAdmitsAll | internal/ecs/client.go:559-570 | once expired, the breaker admits any number of calls until five new failures |
| Backoff.Delay | internal/ecs/client.go:735-745 | the doubling loop on 64-bit integers computes exactly min(max(initial * 2^(attempt-1), asked), cap) without overflow |
| Backoff.AddJitter | internal/ecs/client.go:746-751 | jitter is below a fifth of the delay, absent when a fifth rounds to zero, and the sum stays within 64 bits |
| Backoff.ParseRetryAfter | internal/ecs/client.go:761-775 | the wait asked for is never negative and fits a duration, for seconds as for dates (section 10.2.3 of RFC 9110) |
| Backoff.BackoffTimer | internal/ecs/client.go:729-759 | header, loop and jitter together: the timer is the promised delay plus less than a fifth of it |
| Backoff.PromisedMonotone | internal/ecs/client.go:735-745 | later attempts and longer requested waits never give a shorter delay |
| Backoff.CapReached | internal/ecs/client.go:735-745 | from some attempt on the delay is the cap |
| Limiter.RequestLimiter.TryTake | internal/ecs/client.go:679-692 | one pass under the lock refills, caps at the burst and takes one token iff there is one, else gives the timer for the rest |
| Limiter.RequestLimiter.WaitAlone | internal/ecs/client.go:677-706 | a caller alone is admitted after at most two timers, at once when a token is there, and gives up only when cancelled |
| Limiter.TimerSuffices | internal/ecs/client.go:686-698 | although the timer is truncated to nanoseconds, after it the caller is served or lacks less than a nanosecond of refill, and then the next timer serves it |
| Limiter.Conservation | internal/ecs/client.go:677-706 | over any sequence of passes 0 <= tokens <= burst, and tokens plus grants never exceed the start plus the refill |
| Limiter.WindowBound | internal/ecs/client.go:677-706 | any window of clock readings [s, t] admits at most burst + rate * (t - s) calls, whoever they are |
| Limiter.BurstIsServed | internal/ecs/client.go:677-706 | the lower bound: k <= burst passes at one reading are all granted iff the tokens held and the rate times the time since the last reading together make k |
| Limiter.IdleRestoresBurst | internal/ecs/client.go:679-685 | after an idle time of burst / rate a whole burst is admitted at one reading, whatever was left before |
| Limiter.StaleReading | internal/ecs/client.go:679-685 | a reading that is not later than the last one adds nothing and takes nothing away |
| Limiter.TimerIsTight | internal/ecs/client.go:686-692 | a caller that has to wait is given the time that the missing part of a token takes, to the nanosecond |
| Api.LoginResult | internal/ecs/client.go:437-493 | a login yields a token iff the answer is 2xx and the token it brings, the header before the cookie, is not empty, at most 4096 bytes and free of line breaks; otherwise the error tells the status and the reason, and is retryable iff a retryable transport error or one of 429, 500, 502, 503 and 504 caused it |
| Auth.AuthManager.Token | internal/ecs/client.go:417-495 | a cached token is returned as it is; otherwise there is a token iff the limiter admits a login that is answered with 2xx and a sendable token, and it is that token that is cached |
| Auth.AuthManager.Invalidate | internal/ecs/client.go:497-501 | the cached token is gone |
| Auth.AuthManager.Logout | internal/ecs/client.go:503-551 | a held token stays only when the limiter does not admit the exchange or the request cannot be built; no error iff none was held or the exchange was answered with 2xx |
| Auth.LoginsArePaidFor | internal/ecs/client.go:417-551 | over every interleaving of callers: successful logins = tokens thrown away + the one held, hence at most 1 + invalidations + logouts |
| Auth.NeverTwoLogins | internal/ecs/client.go:417-424 | no two logins are ever in flight |
| Auth.CallsRefineClass | internal/ecs/client.go:417-551 | an undisturbed call in the interleaving model does what the class does |
| Calls.LoginsPerCall | internal/ecs/client.go:177-272 | over every interleaving of whole request loops with each other and with logouts, successful logins are at most 1 + calls + logouts |
| Retry.Client.DoJSON | internal/ecs/client.go:177-272 | the loop with its free re-authentication ends in the outcome of the first final round, with exactly the requests, invalidations and waits of the rounds before it, and reports to the breaker failure iff the final error is retryable, success iff it returns none |
| Retry.CallBounds | internal/ecs/client.go:205-271 | at most MaxAttempts + 1 requests, MaxAttempts - 1 waits and one invalidation, for every sequence of exchanges |
| Retry.WaitsAreNumbered | internal/ecs/client.go:205-271 | the k-th wait is the wait of attempt k: the free round does not count |
| Retry.SuccessIsReal | internal/ecs/client.go:240-271 | a call returns no error iff the last round had a token, a successful status and a decodable body; the waits before it are its attempts less one |
| Retry.EarlierRoundsFailed | internal/ecs/client.go:205-271 | every round before the last one was the free re-authentication or a retryable error with attempts left and an uncut wait |
| Retry.RetryableMeansExhausted | internal/ecs/client.go:246-271 | a retryable error is returned iff the last attempt ended in one, and then every attempt did, with all MaxAttempts - 1 waits made in full; a cut wait gives a cancellation instead |
| Retry.OtherExchangesEnd | internal/ecs/client.go:205-271 | after any number of transient failures (retryable transport or login errors, 429, 500, 502, 503, 504) below the limit, a round of another kind ends the call: a 2xx answer that decodes with success, everything else with its own error; each failure before it was waited for once, under its number and with the Retry-After its server asked |
| Retry.LastFailureIsTold | internal/ecs/client.go:205-271 | as many transient failures as attempts: the last one is returned, after one wait fewer |
| Retry.RejectedTokenIsFree | internal/ecs/client.go:205-245 | the first 401 costs one invalidation and neither wait nor attempt, and the round after it concludes in its place; a second 401 is returned |
| Lifecycle.OneOpenRun | internal/collector/runner.go:464-489 | over every interleaving of runs at most one run of a (cluster, collector) pair is open |
| Lifecycle.CountersAreExact | internal/cache/store.go:113-158 | runs = successes + errors + skips + the open run; the error counter is the number of runs that ended in error; a pair is marked running iff a run is open on it |
| Lifecycle.SuccessNeedsNewData | internal/collector/runner.go:464-489 | the time of the last success changes only when a run of that collector ends as success, during which its generation strictly rose |
| Lifecycle.RecordsTellHistory | internal/cache/store.go:113-158 | in every reachable state the record of a pair tells its history: last success is the time of the latest run that ended as success, last attempt that of the latest admitted beginning, and the last error is the first 256 bytes of the message iff the latest run ended in error, otherwise empty |
| Lifecycle.EndsAsReturned | internal/collector/runner.go:471-483 | a run that returned an error ends as that error, otherwise as skip iff its generation did not move since it was captured |
| Lifecycle.OnlySuccessPublishes | internal/collector/runner.go:464-489 | no other run interferes: if collectors publish at most once and nothing after an error, then over every interleaving a run about to end as error or skip leaves its domain generation as it was when it began, and a success has raised it by one. That the collectors do keep to this is proved of their bodies in `Collectors`, `BucketCollector` and `Inventories`, and of the two node collectors in `NodeMachine` |
| Lifecycle.OneRecordPerPair | internal/cache/store.go:113-158 | in every reachable state each (cluster, collector) pair has one record |
| Lifecycle.OtherPairsStay | internal/cache/store.go:289-291 | joining the two names with a NUL byte keeps pairs apart, given cluster names without NUL |
| Lifecycle.OtherGenerationsStay | internal/cache/store.go:191-193 | a bump raises exactly one (cluster, resource) generation by one |
| Lifecycle.SanitizeError | internal/cache/store.go:293-299 | a stored message is the whole message up to 256 bytes, and exactly its first 256 bytes otherwise |
| HeapRecords.ClonePointer | internal/cache/store.go:281-287 | a new cell with the same value, or nil for nil |
| HeapRecords.CloneNetwork | internal/cache/store.go:205-214 | a new interface slice with new cells and equal values |
| HeapRecords.CloneNode | internal/cache/store.go:197-215 | every object the copy consists of is new, and it stands for the same node |
| HeapRecords.CloneNodes | internal/cache/store.go:195-217 | a new slice of such copies |
| HeapReplications.CloneReplications | internal/cache/store.go:266-279 | a new slice of new replication records with equal values |
| HeapFlats.CloneFlat | internal/cache/store.go:219-264 | clusters, namespaces, buckets and performance samples: each named pointer and slice of the record is copied into new memory, and the copy stands for the same record |
| HeapFlats.CloneFlatSlice | internal/cache/store.go:230-264 | a new slice of such copies |
| HeapReplications.MergeEntries | internal/cache/store.go:90-103 | the in-place loop over a batch gives the declarative merge |
| Recovery.MergeStep | internal/cache/store.go:90-103 | one more value extends the declarative merge: the last entry of its id takes the recovery fields, an unknown id is appended |
| Recovery.MergeKeepsEntries | internal/cache/store.go:94-99 | a merge keeps every entry in place with its replication fields, and leaves alone what the batch does not name |
| Recovery.MergeTakesLast | internal/cache/store.go:94-99 | an entry that the batch names has kind, status, progress and time of the last value with its id, field by field |
| Recovery.DistinctAfterMerge | internal/cache/store.go:90-103 | ids are distinct afterwards iff they were and the batch repeats no unknown id |
| Recovery.BatchCanRepeat | internal/cache/store.go:90-103 | it can be lost: two values with one unknown id leave that id twice |
| Cache.Store.ReplaceNodes | internal/cache/store.go:44-49 | the nodes of that cluster become the given values, even when these lie in the store's own memory; all else stays, its "node" generation rises by one, and only new objects enter the store |
| Cache.Store.ReplaceNodeResources | internal/cache/store.go:51-56 | the same with the generation of "node-resources" |
| Cache.Store.ReplaceReplications | internal/cache/store.go:79-84 | the same for replications |
| Cache.Store.ReplaceCluster | internal/cache/store.go:35-42 | the same for the cluster record |
| Cache.Store.ReplaceNamespaces | internal/cache/store.go:58-63 | the same for namespaces |
| Cache.Store.ReplaceBuckets | internal/cache/store.go:65-70 | the same for buckets |
| Cache.Store.ReplacePerformances | internal/cache/store.go:72-77 | the same for performance samples |
| Cache.ReplacementsAreLocal | internal/cache/store.go:32-83 | a replacement sets one list of one cluster; its other lists and all other clusters stay |
| Cache.Store.MergeRecovery | internal/cache/store.go:86-105 | the replications of that cluster become the merge, its nodes and all other clusters stay, and only copies enter the store |
| Cache.Store.Generation | internal/cache/store.go:107-111 | the number of bumps recorded for the pair |
| Cache.Store.Start | internal/cache/store.go:113-128 | the lifecycle step: refused without change while the pair is running |
| Cache.Store.Finish | internal/cache/store.go:130-146 | the lifecycle step of a success or an error |
| Cache.Store.FinishSkipped | internal/cache/store.go:148-158 | the lifecycle step of a skip |
| Cache.Store.TakeSnapshot | internal/cache/store.go:160-180 | whatever order the maps are visited in, the seven lists consist of new objects only and stand for everything stored of their kind, sorted by key |
| Cache.Store.OutsideIsInvisible | internal/cache/store.go:35-105 | any change to memory outside the store, hence to arguments passed in and snapshots handed out, leaves its contents as they were |
| Cache.ScribbleOnSnapshot | internal/cache/store.go:160-180 | a reader may overwrite a snapshot, down to cells and interface entries, without effect on the store |
| Cache.ScribbleOnInput | internal/cache/store.go:35-105 | a writer may overwrite what it passed in |
| Cache.SnapshotsAgree | internal/cache/store.go:160-180 | with distinct keys two snapshots without a write in between are equal, list by list |
| Cache.StatesAgree | internal/cache/store.go:160-180 | so are their collector states, which have one record per pair in every run |
| Cache.SnapshotShowsNodes | internal/cache/store.go:301-308 | the nodes of a snapshot are the stored ones of all clusters, each once, sorted by cluster and then id, where the first difference of the bytes decides |
| Cache.SnapshotShowsReplications | internal/cache/store.go:324-329 | the same for replications |
| Cache.SnapshotShowsFlats | internal/cache/store.go:302-341 | the same for clusters by name, namespaces by cluster and name, buckets by cluster, namespace and name, performance samples by all seven labels |
| Cache.SnapshotShowsStates | internal/cache/store.go:342-347 | the same for collector states by cluster and collector |
| Common.TuplesInOrder | internal/cache/store.go:330-341 | comparison of key tuples: the first component that differs decides |
| Common.StringsInOrder | internal/cache/store.go:350-359 | comparison of strings: the first byte that differs decides, and a proper prefix comes first |
| Listing.AnyOrder | internal/cache/store.go:164-179 | sorting makes the visiting order of a map irrelevant when keys are distinct |
| NodeCache.EveryViewIsARun | internal/collector/runner.go:74-276 | all clusters over one store: seen from any cluster, every run of the whole system is a run of its node domain |
| NodeCache.AllStoredNodesAreWellFormed | internal/collector/runner.go:74-276 | in every reachable state the stored nodes of every cluster are filed under it with distinct ids, CPU in [0, 1], disk amounts paired and in order, interfaces strictly sorted |
| NodeCache.StoreGivesSnapshots | internal/cache/store.go:160-180 | in every reachable state of the whole system a snapshot of the store, in whatever order it visits the clusters, is one that the node collections are modelled to read: each stored node once, sorted |
| NodeCache.WriteNodes | internal/cache/store.go:44-56 | a write step carried out on the heap store leads to the store of the next state |
| NodeCache.ReadNodes | internal/cache/store.go:160-180 | a read step on the heap store gives new memory and nodes that the read step of the state machine may read |
| WorkerPool.ReachableInvariant | internal/collector/runner.go:533-575 | over every interleaving of sender and workers each bucket is unsent, held by one busy worker, or finished, and only a successful call writes it |
| WorkerPool.ExclusiveBuckets | internal/collector/runner.go:540-568 | no two workers ever hold the same bucket |
| WorkerPool.Outcome | internal/collector/runner.go:533-575 | the step returns an error iff a quota call failed; in the billing step each bucket was written at most once, all were sent unless the parent context was cancelled, and all are enriched iff all were sent |
| WorkerPool.NeverStuck | internal/collector/runner.go:533-575 | some step is possible until the outcome is reached |
| WorkerPool.RunsAreBounded | internal/collector/runner.go:533-575 | every run is finite, with a bound computed from workers and buckets |
| WorkerPool.CancelledParentCanSkip | internal/collector/runner.go:562-573 | for every number of workers and buckets a run without any failing call, in which only the parent is cancelled, reaches the billing step without error and with no bucket enriched |
| Collectors.CollectReplication | internal/collector/runner.go:399-435 | publishes iff every group and link can be read, and then stores exactly these; otherwise contents and generations stay |
| Collectors.CollectRecovery | internal/collector/runner.go:437-462 | publishes iff it is enabled and every link can be read, and then merges exactly these; a disabled capability changes nothing and is no error |
| Collectors.CollectPerformance | internal/collector/runner.go:360-397 | publishes iff a capability is enabled and all queries are answered with payloads acceptable together; stores exactly all their series, with distinct labels, under the VDC of the snapshot; otherwise contents and generations stay |
| Collectors.VdcIsStored | internal/collector/runner.go:369-374 | the default VDC is that of the stored cluster record of that name |
| Collectors.QuerySeries | internal/collector/runner.go:376-393 | the query loop gives all series of all answers iff every query is answered and all answers are acceptable together |
| Collectors.EndRun | internal/collector/runner.go:471-483 | the end of a run, which reads the outcome off error and generation, records an error for a failure, a success for a publication and a skip for neither |
| Collectors.LawfulMoves | internal/collector/runner.go:464-489 | a collector raises its own generation by one iff it published, and no other generation |
| BucketCollector.EnrichBuckets | internal/collector/runner.go:533-575 | succeeds iff no quota call failed and all billings can be joined, and then every listed bucket has its billing |
| BucketCollector.SuccessIsComplete | internal/collector/runner.go:533-575 | if requests under a cancelled context fail, success means that every bucket has its quota, even when the parent was cancelled meanwhile |
| BucketCollector.CollectBuckets | internal/collector/runner.go:330-358 | end to end: publishes iff all namespaces can be listed and enriched, and then stores exactly the listing, each bucket with the billing wanted for it and, if requests under a cancelled context fail, with its quota; otherwise contents and generations stay |
| Inventories.CollectNamespaces | internal/collector/runner.go:278-328 | publishes iff the inventory and every quota and billing can be read, and then stores each namespace with them and the number of its buckets in the snapshot |
| Inventories.NamespaceIsShown | internal/collector/runner.go:278-328 | what is stored for a namespace, field by field: its name or else its id, its own quotas, billing and sample time, and as many buckets as the snapshot holds under that name |
| Inventories.CollectCluster | internal/collector/runner.go:104-165 | publishes iff health and capacity can be read, and then stores one record with the counts and the node versions of the snapshot |
| Inventories.ClusterIsShown | internal/collector/runner.go:104-165 | what is stored for a cluster, field by field: health and the three capacities from their requests, the numbers of its buckets and namespaces in the snapshot, and the sum of the objects that its namespaces tell, if any tells |
| Inventories.VersionsAreListed | internal/collector/runner.go:155-159 | the versions stored are those of the cluster's nodes in the snapshot |
| Inventories.OneVersionEach | internal/collector/runner.go:155-159 | one for each of them |
| Paginator.ParsePage | internal/ecs/parser.go:416-504 | a page is accepted iff its marker is short and free of line breaks and its buckets are named, distinct and readable; all of them are returned, with the next marker |
| Paginator.ParseRecord | internal/ecs/parser.go:457-501 | a bucket is readable iff its quotas are at least -1 and in order, its timestamps parse, the two names of the last change agree, and its retention is -1, -2 or a whole number of seconds; a negative quota or retention is none, and quotas are scaled to bytes |
| Paginator.BucketTells | internal/ecs/parser.go:457-501 | each attribute of a bucket record is the entry's of that name: empty texts and negative amounts are none, quotas are decimal gigabytes in bytes, and the time of the last change comes from whichever name has one |
| Paginator.CollectPages | internal/collector/runner.go:577-630 | succeeds iff the server answers as a conversation of at most 1000 pages, within the page size, with distinct markers and distinct names of one namespace, and returns exactly its pages |
| Paginator.ConversationIsUnique | internal/collector/runner.go:577-630 | a server holds at most one such conversation, so the listing is determined |
| Conversations.ConversationMeans | internal/collector/runner.go:577-630 | what such a conversation is, told without parser and loop: 1 to 1000 pages from the empty marker on, each within the page size, with a sendable marker that asks for the next one, and with entries of the namespace that are named, readable and told by the buckets attribute by attribute; no marker and no name twice; no next marker at the end |
| Paginator.CollectAll | internal/collector/runner.go:330-358 | every namespace is listed completely and no (namespace, name) pair repeats across namespaces |
| Paginator.UnlistableMeansNoListing | internal/collector/runner.go:577-630 | what the loop rejects has no listing at all |
| Billing.ParseBatch | internal/ecs/parser.go:573-623 | a batch is accepted iff all items are named, priced and distinct, and maps each pair to its item |
| Billing.RequestedOnly | internal/collector/runner.go:670-678 | a batch with any unrequested key is rejected |
| Billing.BillingFor | internal/collector/runner.go:682-692 | the batch entry of that very bucket, or its own lookup |
| Billing.EnrichBillings | internal/collector/runner.go:649-695 | whatever order the namespaces come in, it succeeds iff every batch is usable and every bucket's billing can be had, and then each bucket carries exactly that billing and nothing else has changed |
| Billing.WantedIsLookup | internal/collector/runner.go:682-692 | looking up the joined key is looking up the pair |
| Billing.RefusalsStopJoin | internal/collector/runner.go:680-682 | a batch that fails otherwise than with 404, 405 or 501 stops the join |
| Billing.WithoutBatches | internal/collector/runner.go:713-721 | with those every bucket is asked for on its own, and the join succeeds iff all these requests do |
| Flux.BuildIndex | internal/ecs/parser.go:657-669 | a header is accepted iff no column repeats and none required is missing |
| Flux.PermutedSeries | internal/ecs/parser.go:653-656 | any permutation of the series gives the same payload |
| Flux.PermutedRows | internal/ecs/parser.go:670-673 | reordering the rows of a series gives the same payload |
| NodeReadings.RowMeaning | internal/ecs/parser.go:670-777 | the value an acceptable row supplies, told label by label: measurement, field and dimension decide |
| NodeReadings.RowAccepted | internal/ecs/parser.go:670-777 | which rows are read, told without the reader: the time reads; neither range column is there, or both are, both read and start <= time < stop; the value reads and is not negative; the node is named; total CPU is at most 100 percent, a disk names a file system and traffic an interface |
| NodeAccumulator.RowStep | internal/ecs/parser.go:688-779 | the branching row loop keeps the maps equal to a table of labels, and refuses a row iff its label is taken or its interface is one too many |
| NodeAccumulator.RefusalIsHopeless | internal/ecs/parser.go:688-779 | a refused row makes the payload as a whole unacceptable |
| NodeResources.ParseNodeResources | internal/ecs/parser.go:631-815 | accepts iff every row is one of those `RowAccepted` tells, no label is read twice and each node passes its checks on the whole; each field is then the unique reading with its label, disk amounts are sums over allowed file systems, interfaces are the visible ones, sorted |
| NodeFacts.PassingMeans | internal/ecs/parser.go:692-800 | the checks on a node, told by its rows: no more interfaces than allowed, memory used at most the total, and of each file system both amounts or neither, in order |
| NodeResources.EveryRowIsTheRow | internal/ecs/parser.go:631-815 | every labelled row of an accepted payload is the one that supplies its label |
| NodeResources.OrderIsIrrelevant | internal/ecs/parser.go:631-815 | permuting series and rows changes neither acceptance nor result |
| NodeResources.RecordsAreWellFormed | internal/ecs/parser.go:692-813 | CPU in [0, 1], disk amounts both or neither and used <= total, memory used <= total, interfaces strictly sorted and at most the limit, file systems only allowed ones |
| NodeResources.SumTakes | internal/ecs/parser.go:786-800 | the disk sums do not depend on the order of the file systems |
| NodeResources.ArrangeNetwork | internal/ecs/parser.go:801-811 | bond preference removes likely members only, and the list is strictly sorted |
| NodeFacts.ReportedInterfaces | internal/ecs/parser.go:801-811 | an interface is reported unless bonds are preferred, one is there, and its lower-case name begins like a port and has a digit after that |
| NodeDomain.ParseNodes | internal/ecs/parser.go:187-231 | accepts iff there are nodes, all complete, no id and no name twice; the nodes come in order without resources |
| NodeDomain.GoodMeans | internal/ecs/parser.go:194-228 | which lists are accepted: not empty, every id, name and version there, no id and no name twice |
| NodeFacts.InventoryIsListed | internal/ecs/parser.go:187-231 | a listed node has the texts of its entry, absent where they are empty, and neither health nor services nor resources |
| NodeDomain.ApplyNodeStatuses | internal/ecs/parser.go:1107-1120 | health and services of the nodes that have a status, in place |
| NodeFacts.StatusIsJudged | internal/ecs/parser.go:1107-1120 | what a status changes in a node: health, and the services if they are wanted and none if not; without a status nothing |
| NodeDomain.PreserveNodeResources | internal/collector/runner.go:742-759 | each node gets the resources of the last previous node of its cluster and id, in place |
| NodeFacts.PreservedMeans | internal/collector/runner.go:742-759 | no later entry of the previous list with that cluster and id overrides the one taken, and nothing but the resources is taken |
| NodeDomain.ApplyNodeResources | internal/ecs/parser.go:1082-1105 | the enabled groups of the nodes that have a record, in place |
| NodeDomain.RefreshNodes | internal/collector/runner.go:247-275 | own nodes with enabled groups exactly as collected, absent where nothing was, and disabled groups kept; fails iff there is no own node |
| NodeDomain.MergeNodeResources | internal/collector/runner.go:799-843 | succeeds iff no part of any node is brought twice, in any order of nodes, and merges part by part |
| NodeDomain.MergeKeeps | internal/collector/runner.go:799-843 | a merge keeps CPU ratio, disk pairing and strict interface order, and loses no interface |
| NodeDomain.MemoryOrderAfterMerge | internal/collector/runner.go:810-821 | used <= total memory survives exactly when no record brings a total below what the other brought as used |
| MemoryOrder.MergeCanDisorderMemory | internal/collector/runner.go:810-821 | it does not always survive: two queries, each answered with one legible row about the memory of the same node, the total being the smaller amount, merge into a record with more memory used than there is |
| NodeDomain.InterfacesAddUp | internal/collector/runner.go:829-839 | a merge does not recheck the interface limit: after all queries of a run a node has as many interfaces as the queries together brought |
| InterfaceLimit.MergeCanExceedLimit | internal/collector/runner.go:829-839 | it can be lost: with a limit of one, two legible rows about different interfaces of a node, each accepted on its own, merge into two |
| NodeDomain.Gather | internal/collector/runner.go:228-246 | the queries of one run succeed iff every payload is accepted on its own and all results merge |
| NodeDomain.GatheredIsWellFormed | internal/collector/runner.go:228-246 | what a run gathers from Flux rows is well formed |
| NodeFacts.AmountsComeFromRows | internal/collector/runner.go:228-246 | from rows to nodes: after all queries of a run a node has a CPU ratio, a used or a total memory iff some row of some query names the node and supplies just that |
| NodeFacts.GatheredInterfaces | internal/collector/runner.go:829-839 | and an interface iff one of the queries brought it |
| NodeMachine.DisabledDisksAreReadOver | internal/collector/runner.go:220-246 | while disk capacity is disabled, disk rows are ignored whatever they say, and no disk amount is gathered |
| NodeMachine.StoredNodesAreWellFormed | internal/collector/runner.go:74-276 | in every reachable state of a cluster's node domain its stored nodes are filed under it with distinct ids, CPU in [0, 1], disk amounts paired and in order, interfaces strictly sorted; of all clusters at once this is `NodeCache.AllStoredNodesAreWellFormed` |
| NodeMachine.ReadInventory | internal/collector/runner.go:81-88 | bootstrap and inventory collection both begin by parsing the inventory and resolving its versions: they go on iff the inventory is good and every version is supported, with the nodes and the resolution of that inventory, which the state machine starts from |
| InForce.InForceIsMeet | internal/collector/runner.go:74-206 | in every reachable state the resolution in force is the one of the inventory published last: each capability is the meet over the profiles of its versions, and a mixed cluster has no interval rates |
| InForce.FitIsLostIff | internal/collector/runner.go:94-100 | whether the stored nodes are the ones that the resolution comes from: an inventory collection always ends so; it is lost only between a publication and its write, or by the write of bootstrap, and by that iff the inventory published last is another one |
| InForce.FitsForEver | internal/collector/runner.go:74-206 | once bootstrap has completed and they fit, they fit for ever, but for the moment between publication and write of a newer inventory |
| InForce.BootstrapCanMisfit | internal/collector/runner.go:94-100 | it can be lost that way: whenever another inventory is collected between the two publications of bootstrap |
| InForce.EnabledForEveryNode | internal/collector/runner.go:515-524 | where they fit, what is enabled for the cluster is enabled by the profile of every single stored node |
| InForce.CollectedIsSupported | internal/collector/runner.go:208-276 | a resource collection begun after bootstrap over such a store refreshes a group only where the own version of every stored node supports it |
| NodeMachine.InventoryKeepsResources | internal/collector/runner.go:167-206 | an inventory collection begun after bootstrap installs the fresh inventory, and every surviving id keeps the resources stored at the moment of the replacement |
| NodeMachine.ResourcesKeepInventory | internal/collector/runner.go:208-276 | a resource collection begun after bootstrap keeps every node with its inventory, health and disabled groups, and sets the groups enabled by the resolution in force to what was gathered |
| NodeMachine.FailureChangesNothing | internal/collector/runner.go:167-276 | a node collection that fails leaves nodes, generations and resolution as they were when it began |
| NodeMachine.NodesNeverVanish | internal/collector/runner.go:74-102 | once a cluster has stored nodes it is never without any, however bootstrap, collections and failures interleave |
| NodeMachine.RefreshIsAskedFor | internal/collector/runner.go:208-219 | resources are written only by a run that found a capability enabled; one that finds none publishes nothing |
| NodeMachine.LaterTurnsAreCalm | internal/collector/runner.go:74-102 | bootstrap once completed stays completed, so all later collections are of that kind |
| EarlyTurns.DropsIffThreatened | internal/collector/runner.go:94-101 | exactly when a resource collection can drop a stored node: iff at its beginning bootstrap has still to write its nodes, one of them is not stored yet, some nodes are stored, some group is enabled and the interface limit is one the parser accepts |
| EarlyTurns.EarlyTurnCanDropNode | internal/collector/runner.go:94-101 | such a beginning is reached from any two usable inventories of which the second, collected in the window, lacks a node of the first and has a resolution that enables a group |
| EarlyInventories.MixesUpIffOvertaken | internal/collector/runner.go:94-101 | exactly when an inventory collection can end with resources other than those stored: iff at its beginning bootstrap has still to write its nodes and some node of the inventory has resources stored |
| EarlyInventories.EarlyInventoryCanMixUp | internal/collector/runner.go:94-101 | such a beginning is reached whenever an inventory and then resources are collected in the window and some legible row tells the memory of a node |
| ExampleCluster.ReleaseIsExample | profiles/ecs-3.8.0.json:3-6 | two nodes of version 3.8.0.0 and the profile for 3.8.0 are a cluster to which these results apply, with a loaded catalogue |
| ExampleCluster.NodeCanBeDropped | internal/collector/runner.go:94-101 | in that cluster a node can be dropped |
| ExampleCluster.ResourcesCanComeBack | internal/collector/runner.go:94-101 | in that cluster an inventory collection can bring back resources |
| ExampleCluster.ResolutionCanMisfit | internal/collector/runner.go:94-100 | in that cluster bootstrap can leave a store that the resolution does not come from |
| Performance.DispatchMeaning | internal/ecs/parser.go:886-972 | a row yields a sample iff it is the one told for its measurement and field: which metric, read or write, which operation, status class and quantile, and the value in the unit given; failed-request aggregates are never counted |
| Performance.RowAccepted | internal/ecs/parser.go:840-972 | which rows are classified, told without the reader: time and range as for node rows, a value that is not negative, cluster and VDC, and operation, class, quantile and unit as the measurement asks |
| Performance.RowYields | internal/ecs/parser.go:840-988 | and which sample such a row yields |
| Performance.ThroughputUnits | internal/ecs/parser.go:1392-1412 | the unit table of throughput |
| Performance.LatencyUnits | internal/ecs/parser.go:1414-1423 | the unit table of latency |
| Performance.NormalizersMean | internal/ecs/parser.go:1425-1467 | operations and status classes by name |
| Performance.QuantilesMean | internal/ecs/parser.go:1487-1498 | quantiles by name |
| Performance.OperationsMean | internal/ecs/parser.go:1435-1454 | the operations of latency and of field names |
| Performance.FieldClasses | internal/ecs/parser.go:1469-1485 | the status class of each request field by name |
| Performance.RowsArePlain | internal/ecs/parser.go:864-972 | every accepted row has cluster and VDC, labels without NUL bytes, and exactly the labels of its metric |
| Performance.KeysAreLabels | internal/ecs/parser.go:976-984 | the joined key identifies the label tuple |
| PerformanceSeries.ParsePerformance | internal/ecs/parser.go:817-988 | accepts iff every row is one of those `RowAccepted` tells and no labels repeat, and returns the series in row order |
| PerformanceSeries.MergePerformances | internal/collector/runner.go:883-897 | succeeds iff no labels repeat in the concatenation |
| PerformanceSeries.CollectSeries | internal/collector/runner.go:360-397 | over all queries: succeeds iff every payload is acceptable and no labels repeat anywhere |
| PerformanceSeries.EmissionIsInjective | internal/metrics/metrics.go:297-329 | two samples that are exported as one Prometheus series have the same labels |
| PerformanceSeries.EmittedAsNamed | internal/metrics/metrics.go:297-329 | under each of the five registered names exactly the samples of that metric are exported, of the VDC or of a namespace, with their values; nothing is exported iff the namespace is set and the metric is not requests |
| PerformanceSeries.EmittedLabels | internal/metrics/metrics.go:189-193 | the value under each registered label name is the sample's field of that name |
| PerformanceSeries.NoDuplicateMetric | internal/metrics/metrics.go:297-329 | a collected list never emits one Prometheus series twice |
| PerformanceSeries.NoDuplicateAcrossClusters | internal/metrics/metrics.go:297-329 | nor do the lists of two clusters |
| Version.ParseVersion | internal/profile/version.go:24-53 | the loop accepts exactly the readings of the pattern that fit, and fills the four parts |
| Version.ParseMeansReading | internal/profile/version.go:10-53 | a string is accepted iff it is four digit groups joined by dots plus a suffix in the pattern's sense, and parts and suffix are read off it |
| Version.PatternIsComplete | internal/profile/version.go:10-14 | there is at most one way to read a string |
| Version.CoreRoundTrip | internal/profile/version.go:68-70 | parsing a printed core succeeds without suffix and compares equal |
| Version.CompareIsTotalPreorder | internal/profile/version.go:55-66 | comparison is total and transitive, and antisymmetric up to the suffix |
| Version.FirstDifferenceDecides | internal/profile/version.go:55-66 | one version is below another iff they agree up to some part and that part is smaller |
| Catalog.ValidRangesAreInhabited | internal/profile/profile.go:148-163 | validation accepts exactly two suffix-free bounds between which some version lies |
| Catalog.LoadProfiles | internal/profile/catalog.go:22-55 | from range texts to the catalogue: succeeds iff every range is valid, ids are distinct and ranges pairwise disjoint |
| Catalog.LoadCatalog | internal/profile/catalog.go:22-55 | succeeds iff ids are distinct and ranges pairwise disjoint, and returns the profiles in order |
| Catalog.NeighboursDecide | internal/profile/catalog.go:42-53 | checking neighbours in sorted order decides disjointness of all pairs |
| Catalog.Match | internal/profile/catalog.go:67-74 | a loaded catalogue finds a profile iff one supports the version |
| Catalog.MatchIsUnique | internal/profile/catalog.go:67-74 | no other profile supports it |
| Catalog.SupportsMeans | internal/profile/profile.go:96-100 | a profile supports its lower bound and what comes between the bounds in the order of first differences |
| Catalog.IntersectSupport | internal/profile/catalog.go:149-158 | the intersection is the greatest lower bound of two supports |
| Catalog.Resolve | internal/profile/catalog.go:79-126 | fails iff a version is malformed or unsupported or there is none; otherwise the resolution of the set of versions |
| Catalog.ResolutionIsMeet | internal/profile/catalog.go:102-121 | each capability is the meet over all matched profiles, with interval rates forced unavailable on a mixed cluster |
| Catalog.EnabledMeans | internal/collector/runner.go:515-524 | a capability is enabled iff all profiles of the node versions grant it natively, or all as derived, or it is switched on and none denies it; interval rates only under a single profile |
| Catalog.MoreVersionsNeverRaise | internal/profile/catalog.go:79-126 | a further version never raises a capability |
| Catalog.EnabledSurvivesUpgradeEnd | internal/collector/runner.go:515-524 | what is enabled on a mixed cluster is enabled under any of its versions alone |
| Catalog.ResolutionIgnoresPresentation | internal/profile/catalog.go:79-126 | order, repetition and spelling of versions do not matter, only the profiles they match |
| Freshness.EvaluateCluster | internal/health/health.go:67-126 | the scan computes the status a cluster deserves from the ages of its required successes |
| Freshness.DownMeans | internal/health/health.go:67-126 | a cluster is DOWN iff one of cluster, node, namespace and bucket has never succeeded, or not within the limit |
| Freshness.UpMeans | internal/health/health.go:67-126 | otherwise it is UP iff all those successes are within the tolerance, its record does not say unhealthy and no collector reports an error |
| Freshness.Evaluate | internal/health/health.go:31-65 | the report has every cluster once, sorted, with the status it deserves; overall UP iff all are UP, DOWN iff none exists or all are DOWN |
| Freshness.DomainFresh | internal/metrics/metrics.go:331-348 | fresh iff the first state of the pair, if there is one, has a success that is not too old; a pair without a state counts as fresh |
| Freshness.FirstStateDecides | internal/metrics/metrics.go:331-348 | the first state of the pair decides, by its last success and the limit if there is one |
| Freshness.ReadersAgree | internal/health/health.go:67-126 | with one state per pair and a positive limit, a cluster is not DOWN iff all four required domains have a state and are fresh for metrics |
| Agreement.ReadersAgreeInRuns | internal/health/health.go:67-126 | so it is in every reachable state of the collectors, whatever order the snapshot visits the states in |
| Freshness.ClusterOnlyAges | internal/health/health.go:67-126 | without new data a cluster never looks better later |
| Freshness.ReportOnlyAges | internal/health/health.go:31-65 | nor does the whole report |
| Freshness.StaleStaysStale | internal/metrics/metrics.go:331-348 | nor does an exported domain come back |

## Left out

- HTTP, TLS, redirects, response reading and JSON decoding: an exchange is its status, error kind and decoded body.
- Observers, logging, correlation ids and the wording of error messages.
- Scheduler timers and jitter: any collector may run at any step.
- Float rounding, overflow to infinity and the finiteness checks it needs; wrap-around of 64-bit counters and generations.
- Unicode: trimming, case and control characters are library parameters with the properties that are used.
- The one-branch field mappings: capacity, whoami, cluster health, namespace and quota envelopes, node health parsing, replication fields.
- Cancellation between the requests of a collector: a cancelled request is a request that fails.
- The decimal text of a bucket's retention: it is the number of seconds.
- The label function of the metrics: identity on names that are already normalised; SHA-256 shortening is not modelled.
- The backing arrays of slices while they are being built: a clone loop collects its elements in a sequence and makes the array at the end, and the elements of a sorted slice are arranged before it is made.
- Cache.Store.TakeSnapshot: when keys repeat, the order among equal keys is that of one particular sort, while the library leaves it open.
- Catalog files, their other validation rules and the directory walk of profile loading.
- Configuration, command line, HTTP API of the exporter, release tooling and the Flux probe.
- Panics in goroutines and real timer accuracy.
