# KubePivot controller and informer: a Dafny model

KubePivot's controller brings its own list/watch informer, cache, leader election, work queue,
limiters and migration runner. This project models them and proves what they keep, over every
input, every run and every interleaving. `dafny verify dfyconfig.toml` checks it all.

How it is built:

* What the source updates in place is a class (or a method with a loop) here, with the same
  branches. Its methods are proved against a small pure form - "the simple form" - and the
  laws are proved about that form.
* Concurrency is a transition system: a run is a sequence of states, each step one atomic
  action of one goroutine, process, pod or server, in any order. "In every run" means a lemma
  over all such sequences.
* Clocks, the network, the API server, etcd and kubectl are parameters or steps of the
  environment, and may fail wherever the source handles a failure.
* Where a promise fails, the code is modelled as it is: a lemma gives a concrete run or input
  that breaks the promise, and the theorem carries the exact condition or hypothesis.

| file | models |
|---|---|
| `Resources.dfy`, `ResourceCache.dfy`, `CacheCounter.dfy` | the copy-on-write cache on the heap, its flat form, and its size counter |
| `Informer.dfy`, `Subscriber.dfy`, `Mirror.dfy` | lists, watch lines and events; bounded subscriptions; rebuilding the cache from events |
| `History.dfy` | the cache against the history of the API server |
| `WatchLoop.dfy` | the watch loop and ForceResync |
| `JsonBytes.dfy`, `BufPool.dfy` | byte-level JSON fields; the slab allocator |
| `EtcdElection.dfy`, `K8sLease.dfy` | the two leader elections |
| `WorkQueue.dfy`, `TokenBucket.dfy`, `RollbackTracker.dfy`, `MachineCache.dfy` | the controller's queue, limiter, rollback guard and per-namespace machines |
| `Migration.dfy`, `ValuesDiff.dfy`, `EtcdBootstrap.dfy` | ordered migrations; the diff of Helm values; etcd cold start and catch-up |

Main results, hardest first:

* **Cache and history.** Whatever is cached for a key is what the server had at some version,
  and every later change to it, up to the stream's position, fell into a gap that was skipped
  (`NothingIsMadeUp`). That every live object is cached at its latest version is false in
  general: a failed list followed by a watch that breaks while it sends the live objects
  loses a live object (`BrokenPrimingLosesALiveObject`). It holds for a key, against any version
  of the server, if and only if no change to the key lies between what the informer was last
  told about it and that version (`CurrentExactlyIfToldOfTheLastChange`); for a stream that has
  caught up, if and only if the key was not left behind, changed and unsent, when such a watch
  broke (`CaughtUpCacheIsCurrent`). No key is left behind, and only lists skip changes, as long
  as no list has failed since one succeeded (`ListsThatSucceedTearNothing`).
* **Lines and lists.** After any lines each key is cached as the last line about it says, the
  version is that of the last line that carries one, and each subscription was offered one
  event for each line that announces one (`ReadLines`); reading the lines of the next n changes
  leads n versions on (`ReadingReplays`). A list leaves for each key its last item over all
  pages (`DoInitialList`).
* **Events.** A subscription that has lost nothing rebuilds an earlier cache from what it has
  handled, and the present one from what it has handled or queued, up to equal skeletons
  (`HandledIsAnEarlierCache`). A list sends no events; a mirror survives it if and only if the
  list brings its shard nothing new (`ListKeepsMirrorIff`).
* **Elections.** etcd: at most one live leader, without timing assumptions
  (`AtMostOneLiveLeader`), two fns run at once only without etcd or after a lease has ended
  (`FnsOverlapOnlyAfterALease`), and an attempt that was granted a lease returns only with the
  lease revoked, unless it has lost it (`TryBecomeLeader`). Kubernetes Lease, with reads and writes apart: timely leaders
  are the stored holder all the way if and only if no patch has stolen the lease of one
  (`HolderKeptExactlyWithoutStealing`); two pods lead only while one is overdue, as long as no
  patch takes another pod's unexpired lease (`OverlapMeansOverdue`), which a resourceVersion on
  the patches would ensure (`FreshWritesTakeNothing`). Both hypotheses are needed
  (`TwoTakeOvers`, `ErrorsKeepAnOldLeader`).
* **Rollback guard.** n >= 3 rollbacks without a sweep between take 2^(n-3) - 1 minutes if and
  only if n <= 31: up to there the bound is reached, beyond it the int64 overflow lets a run be
  faster (`RollbacksAreSpacedOut`, `BoundHoldsExactlyUpTo31`).
* **Resync.** A request is served by the fifth step of the loop at the latest
  (`ServedWithinFiveSteps`). A watch under way goes on uncanceled only if the call's cancel
  fell into one gap of the loop, and if it fell there it does go on, until the watch ends or
  another call cancels it (`OnlyTheGapDelaysAResync`). A list begins if and only if a request is
  taken, the timer fires, or the last watch ended with 410 (`RelistsExactlyOnDemand`).
* **Restart equals clean run** for migrations with distinct versions, unless a run is blind:
  with the default tool a version query that fails counts as version 0
  (`FailAndRestartEqualsCleanRun`). Both hypotheses are needed: a blind run applies everything
  again (`BlindRunAppliesAllTwice`) and is the only kind that applies anything twice
  (`AppliedAgainOnlyIfBlind`); with a version twice a run can stop where a file is lost for good
  (`StoppingBetweenLosesAFile`).

## Where the code and its comments disagree

The model follows the code.

* An ERROR line with code 410 is described as a reason to relist; `doWatch` only logs it
  (`internal/eventstream/informer_impl.go:708-712`). Only the response status 410 ends a watch
  as gone.
* `doWatch` injects an empty kind into watch objects, which injects nothing
  (`internal/eventstream/informer_impl.go:767`).
* The size classes of the allocator are not successive powers of four, the last one is twice
  the one before it, `Alloc` gives exactly the length asked for where its comment says at least,
  and `Stats` counts free memory only (`internal/eventstream/buf_pool.go`).
* `peerHasData` means to read "no such file" as "no data", but the failing `test -f` is an error
  and so means waiting (`internal/etcdmanager/bootstrap.go:132-143`).
* A migration target of 0 means no limit, like -1 (`cmd/kp/migrate_plan.go:423-457`).
* `List("")` lists all namespaces (`internal/eventstream/cache.go:139-141`).

## Model

| member | source | states |
|---|---|---|
| Resources.StringMapEqualIsEqual | internal/eventstream/resource.go:190-200 | comparing sizes and one direction decides equality of the maps |
| Resources.SkeletonChangedIsProjection | internal/eventstream/resource.go:130-172 | two objects count as changed exactly when their skeletons differ, so unchanged is an equivalence |
| ResourceCache.SkeletonCache.constructor | internal/eventstream/cache.go:107-112 | a new cache is empty with counter 0 |
| ResourceCache.SkeletonCache.Get | internal/eventstream/cache.go:119-127 | lookup in the two-level index agrees with the flat map |
| ResourceCache.SkeletonCache.List | internal/eventstream/cache.go:138-152 | the objects of the namespace, each once, nothing else; all objects for the empty name |
| ResourceCache.SkeletonCache.ListAll | internal/eventstream/cache.go:162-172 | all objects of the flat map, each once, nothing else |
| ResourceCache.SkeletonCache.Put | internal/eventstream/cache.go:189-227 | the flat map gets the object, the counter grows exactly for a new key, only the root pointer changes, no empty inner map |
| ResourceCache.SkeletonCache.PutBulk | internal/eventstream/cache.go:251-306 | merging group by group stores what putting item by item stores; the counter grows by what the code counts, against the old inner maps |
| ResourceCache.SkeletonCache.Delete | internal/eventstream/cache.go:313-351 | removes exactly that key and counts it; an absent key changes nothing; an emptied namespace disappears |
| ResourceCache.CopyEntries | internal/eventstream/cache.go:203-214 | a fresh inner map with the same entries, without the one to be dropped |
| ResourceCache.ItemsWith | internal/eventstream/cache.go:189-227 | the new outer map shares every inner map but the one that gets the object |
| ResourceCache.ItemsWithout | internal/eventstream/cache.go:325-351 | the new outer map shares every inner map but the one that loses the object, which is dropped if empty |
| ResourceCache.GroupByNamespace | internal/eventstream/cache.go:256-268 | each item lands in its namespace's group, in order; nil items are left out |
| ResourceCache.MergeGroup | internal/eventstream/cache.go:272-294 | a cached namespace is copied and merged; names are counted against the old entries |
| ResourceCache.ItemsWithGroups | internal/eventstream/cache.go:269-306 | all namespaces, old and new, hold their merged entries, and the counter is the old one plus counted items plus keys of new namespaces |
| ResourceCache.FlattenPut | internal/eventstream/cache.go:189-227 | putting into the two-level index is putting into the flat map, and keeps it well formed |
| ResourceCache.FlattenDelete | internal/eventstream/cache.go:313-351 | deleting from the two-level index is deleting from the flat map, and leaves no empty inner map |
| ResourceCache.FlattenPutAll | internal/eventstream/cache.go:251-306 | grouping by namespace and merging is the same as putting the items one by one |
| CacheCounter.BatchDrift | internal/eventstream/cache.go:281-286 | a batch never lowers counter minus entries, and leaves it alone exactly when it repeats no new name of a cached namespace |
| CacheCounter.StepDrift | internal/eventstream/cache.go:189-351 | of all writes only such a batch makes the counter drift |
| CacheCounter.CounterExactIff | internal/eventstream/cache.go:281-286 | over any history the counter is at least the number of entries, and equal if and only if no batch so far repeated a new name of a cached namespace |
| CacheCounter.BatchVersusOneByOne | internal/eventstream/cache.go:229-306 | PutBulk stores what Put folded over the items stores, and its counter agrees exactly without such a repetition |
| CacheCounter.CounterCanDrift | internal/eventstream/cache.go:281-286 | a history of two writes after which two entries are counted as three |
| CacheCounter.Write | internal/eventstream/cache.go:189-351 | any write leaves a snapshot loaded before it unchanged |
| CacheCounter.WriteAll | internal/eventstream/cache.go:119-351 | a reader's snapshot survives any sequence of writes, and the heap cache goes through the states of the flat form |
| Subscriber.Subscription.Dispatch | internal/eventstream/informer_impl.go:405-415 | never blocks; an open subscription queues the event unless 1024 wait, else drops and counts it |
| Subscriber.Subscription.Turn | internal/eventstream/informer_impl.go:372-399 | handles the oldest queued event once, counting a panic instead of a delivery, or leaves after a stop |
| Subscriber.Subscription.Stop | internal/eventstream/informer_impl.go:361-366 | closing is idempotent |
| Subscriber.Subscription.InOrder | internal/eventstream/informer_impl.go:372-415 | handled plus queued is an in-order part of what was dispatched, all of it exactly when nothing was dropped or came after the stop, and while open every missing event is a counted drop |
| Subscriber.NothingMissing | internal/eventstream/informer_impl.go:405-415 | a subsequence as long as the whole is the whole |
| Informer.InformerImpl.Subscribe | internal/eventstream/informer_impl.go:223-240 | a new, open, empty subscription at the end of the list |
| Informer.InformerImpl.Unsubscribe | internal/eventstream/informer_impl.go:336-349 | stopped, and exactly this subscription is cut out of the list |
| Informer.InformerImpl.DispatchToSubscribers | internal/eventstream/informer_impl.go:816-838 | counts every event in total and by type; offers it to every subscription exactly if its namespace is owned |
| Informer.InformerImpl.HandleWatchLine | internal/eventstream/informer_impl.go:738-810 | the whole new state - cache, counter, version - and what each subscription is offered, for every kind of line; an ERROR line changes nothing |
| Informer.InformerImpl.Added | internal/eventstream/informer_impl.go:782-786 | the object is cached and announced |
| Informer.InformerImpl.Modified | internal/eventstream/informer_impl.go:787-797 | the object is cached; announced unless the cached one has the same skeleton |
| Informer.InformerImpl.Deleted | internal/eventstream/informer_impl.go:798-803 | the key is removed and announced with the cached object |
| Informer.InformerImpl.ReadLines | internal/eventstream/informer_impl.go:694-713 | after any lines each key is cached as the last line about it says - the object of an ADDED or MODIFIED line, nothing after a DELETED one, and as before if no line is about it; the version is that of the last object line that carries one, a bookmark or an object that cannot be parsed included; each subscription was offered one event for each line that announces one, in order |
| Informer.InformerImpl.DoWatch | internal/eventstream/informer_impl.go:668-721 | ends as gone if and only if the response status is 410, never because of a line; at status 200 cache, version and offers are as its lines say, otherwise nothing changes |
| Informer.InformerImpl.DoInitialList | internal/eventstream/informer_impl.go:572-657 | a failing page changes nothing; otherwise each listed key is cached as its last item of all pages, any other key keeps its object, the version is that of the first page that carries one, and nobody is told |
| Informer.LinesInPieces | internal/eventstream/informer_impl.go:450-497 | it makes no difference, to the cache and to the events, where a stream of lines is broken and resumed |
| Informer.LinesOfResponse | internal/eventstream/informer_impl.go:450-497 | the lines of a series of responses are, response by response, those of the ones with status 200 |
| Informer.LatestIsLast | internal/eventstream/informer_impl.go:698-713 | what the lines leave for a key is determined by the last line about it, and by what there was if there is none |
| Informer.CacheIsLatest | internal/eventstream/informer_impl.go:738-810 | reading lines one by one caches exactly that |
| Informer.VersionIsLast | internal/eventstream/informer_impl.go:759-764 | and leaves the version of the last line that carries one |
| Informer.SentIsAnnounced | internal/eventstream/informer_impl.go:775-833 | the events sent are one for each line that announces one, ascending: additions and deletions always, modifications of an uncached object or skeleton, in owned namespaces only; each with the object and with what was cached before |
| Informer.InformerImpl.WatchUntilGone | internal/eventstream/informer_impl.go:478-511 | watch after watch up to a response that calls for a list: cache, version and offers are as all the lines together say |
| Informer.ParsedStoresTheSame | internal/eventstream/informer_impl.go:625-637 | leaving unparsable items out of the batch makes no difference to the cache |
| Informer.LastListing | internal/eventstream/informer_impl.go:625-643 | a key that is listed at all is listed somewhere for the last time, so a list determines every key |
| Informer.CollectedFollows | internal/eventstream/informer_impl.go:625-646 | collecting the items page by page stores for each listed key its last item, and touches no other |
| Informer.FirstVersionIsFirst | internal/eventstream/informer_impl.go:619-622 | the version of a list is that of the first page that carries one, none if no page does |
| Mirror.MirrorStep | internal/eventstream/informer_impl.go:775-803 | one line moves a mirror, by its event, as it moves the cache, up to equal skeletons - also when the event is suppressed |
| Mirror.MirrorFollows | internal/eventstream/informer_impl.go:738-833 | replaying the events of any lines on the owned part of the cache gives the owned part of the later cache, up to equal skeletons |
| Mirror.SentUpTo | internal/eventstream/informer_impl.go:738-833 | every first part of the events is what a first part of the lines sends |
| Mirror.HandledIsAnEarlierCache | internal/eventstream/informer_impl.go:372-415 | a subscription without losses rebuilds an earlier cache from what it handled, and the present one including its queue |
| Mirror.ListKeepsMirrorIff | internal/eventstream/informer_impl.go:646-657 | a mirror survives a silent list if and only if the list brings the shard nothing that is not cached with the same skeleton |
| History.LiveSince | internal/eventstream/informer_impl.go:659-667 | a live object was set at its own version and not touched since |
| History.DeletedBetween | internal/eventstream/informer_impl.go:798-803 | between being live and not, a key is deleted |
| History.DeliverChangeKeeps | internal/eventstream/informer_impl.go:738-803 | a change sent by the watch keeps every key's account in order |
| History.LineForIsAbout | internal/eventstream/informer_impl.go:738-803 | the line of a change is about the key of the change, and says what the server has after it |
| History.ReadingReplays | internal/eventstream/informer_impl.go:698-713 | from a cache as of one version, the lines of the next n changes lead to a cache as of n versions later, and to its version |
| History.DeliverInitialKeeps | internal/eventstream/informer_impl.go:759-786 | so does a live object sent at the start of a watch without version |
| History.OpenKeeps | internal/eventstream/informer_impl.go:871-888 | so does opening a watch, with the version or without one |
| History.CutKeeps | internal/eventstream/informer_impl.go:715-720 | so does a disconnect at any point |
| History.Listed | internal/eventstream/informer_impl.go:646-648 | after a list whose pages show the server at one version live objects are as there, all other keys stay, and the version is that one |
| History.ListOkKeeps | internal/eventstream/informer_impl.go:572-657 | a successful list keeps every key's account: fresh, or deleted in the gap it skipped |
| History.ListFailsKeeps | internal/eventstream/informer_impl.go:513-518 | so does a failed one, after which there is no version |
| History.StepKeepsInv | internal/eventstream/informer_impl.go:437-810 | every step of server, stream and informer keeps the invariant, for every key |
| History.ReachableInv | internal/eventstream/informer_impl.go:437-810 | every reachable state satisfies it |
| History.NothingIsMadeUp | internal/eventstream/informer_impl.go:437-810 | what is cached is from some version of the server, later changes up to the stream were skipped, the informer never resumes beyond what it was sent, and its version being the newest it has seen means having caught up |
| History.Untouched | internal/eventstream/informer_impl.go:659-667 | an object that is not touched stays what it is |
| History.SameExactlyIfUntouched | internal/eventstream/informer_impl.go:659-667 | a live object is what was there earlier if and only if the key was not touched between |
| History.CaughtUpCacheIsCurrent | internal/eventstream/informer_impl.go:437-810 | once caught up, a live object is cached at its latest version if and only if its key is not torn - live, unsent and out of date when a watch without version was cut - and an extra key was deleted in a skipped gap |
| History.CachedAsLastSent | internal/eventstream/informer_impl.go:572-810 | what is cached for a key is the server's object as of the last line, list or initial event that told of it |
| History.CurrentExactlyIfToldOfTheLastChange | internal/eventstream/informer_impl.go:437-810 | against any later version a live object is cached as it is if and only if no change to the key lies between, and a key that is not live is cached if and only if it was live then |
| History.ListsThatSucceedTearNothing | internal/eventstream/informer_impl.go:443-520 | while lists succeed no key is torn, every watch resumes from a version, and every skipped change lies in the gap of a list |
| History.WatchRepairsExactlyWhatChanges | internal/eventstream/informer_impl.go:698-713 | within one watch a key becomes, or stays, current if and only if it was so at the start or the watch sends a change to it |
| History.BrokenPrimingLosesALiveObject | internal/eventstream/informer_impl.go:443-448 | a run in which a live object is missing although the stream has caught up with the server |
| WatchLoop.InstalledWhileWatching | internal/eventstream/informer_impl.go:457-489 | the cancel function is installed exactly while there is a watch, so the cancel before a forced relist never has anything to do |
| WatchLoop.RequestStaysUntilServed | internal/eventstream/informer_impl.go:285-300 | from any call on the channel stays full until a relist begins or the loop stops, whatever was merged |
| WatchLoop.AfterAWatch | internal/eventstream/informer_impl.go:484-526 | the step after a watch: a response 410 begins a list at once, without back-off or another watch; a cancellation leads to the head of the loop; anything else to a back-off or to giving up |
| WatchLoop.RelistsExactlyOnDemand | internal/eventstream/informer_impl.go:450-561 | a list begins exactly when a request is taken, the resync timer fires, or the last watch ended with 410 |
| WatchLoop.WatchesAgain | internal/eventstream/informer_impl.go:450-484 | after a list or a back-off that ran out, the loop watches again unless a request or a stop is waiting |
| WatchLoop.NoWatchAfterAStop | internal/eventstream/informer_impl.go:451-456 | once a stop is requested no watch is started, and a loop that has stopped takes no step |
| WatchLoop.RankRunsOut | internal/eventstream/informer_impl.go:450-561 | with a full channel every step of the loop but a relist brings it nearer to one: five at most are left |
| WatchLoop.ServedWithinFiveSteps | internal/eventstream/informer_impl.go:450-561 | the fifth step of the loop after a call, at the latest, begins a relist or stops the loop |
| WatchLoop.OnlyTheGapDelaysAResync | internal/eventstream/informer_impl.go:285-300 | between a call and its relist no watch is started; one that goes on uncanceled means that the call's cancel fell between the look at the channel and the installation, and, until the watch ends or another call cancels it, the cancel having fallen there means that it does go on |
| WatchLoop.LostWakeUp | internal/eventstream/informer_impl.go:475-484 | a run in which it does: the call has returned and the new watch is not canceled |
| JsonBytes.ExtractJsonString | internal/eventstream/informer_impl.go:967-991 | the scan computes the string after the first occurrence of the quoted key, empty if there is none |
| JsonBytes.ReadValue | internal/eventstream/informer_impl.go:975-990 | blanks, a quote, and everything up to the next quote; empty if the form is different |
| JsonBytes.ReadsTheQuotedValue | internal/eventstream/informer_impl.go:967-991 | after the first quoted key and its colon, any number of blanks and tabs, and a quote, everything up to the next quote is read |
| JsonBytes.ReadsNothingElse | internal/eventstream/informer_impl.go:980-990 | nothing is read if anything else follows the blanks, or if there is no second quote |
| JsonBytes.NothingWithoutTheKey | internal/eventstream/informer_impl.go:969-973 | nor if the quoted key with its colon does not occur |
| JsonBytes.RemovingTheSnippetRestores | internal/eventstream/informer_impl.go:949-963 | cutting the inserted bytes out gives the original back; without a brace nothing is inserted |
| JsonBytes.InjectThenExtract | internal/eventstream/informer_impl.go:949-991 | the injected value is extracted again if the key does not occur before the first brace |
| JsonBytes.OtherKeyMoves | internal/eventstream/informer_impl.go:949-991 | the first occurrence of any other key moves exactly as the bytes do |
| JsonBytes.OtherKeysUnchanged | internal/eventstream/informer_impl.go:949-991 | extraction of another key is unchanged if and only if its value does not run over the first brace |
| JsonBytes.ItemsGetTheirKind | internal/eventstream/informer_impl.go:939-945 | a list item reads back the kind that the list names |
| JsonBytes.InjectsExactlyForLists | internal/eventstream/informer_impl.go:939-963 | an object is left alone if and only if it has no brace or the list kind is not a word followed by List - as for watch objects, whose list kind is empty |
| BufPool.FirstFit | internal/eventstream/buf_pool.go:55-71 | the first class that fits, all earlier ones are too small |
| BufPool.FirstFitIsSmallest | internal/eventstream/buf_pool.go:55-71 | no fitting class is smaller; none fits exactly beyond 8 MiB |
| BufPool.SlabClass.Pop | internal/eventstream/buf_pool.go:58-64 | hands out the last free block, which was not live |
| BufPool.SlabClass.Push | internal/eventstream/buf_pool.go:76-81 | takes any block of its size back, adopting it if it was not the class's own; the class stays in order exactly unless the block was free already |
| BufPool.BufPool.constructor | internal/eventstream/buf_pool.go:41-51 | every class starts with the given number of blocks, none live |
| BufPool.BufPool.Alloc | internal/eventstream/buf_pool.go:55-71 | exactly the requested length, sharing memory with no live buffer, from the smallest fitting class or fresh; all other classes untouched |
| BufPool.BufPool.Free | internal/eventstream/buf_pool.go:73-84 | any block joins a class if and only if its capacity is that class's size; the pool stays in order if and only if the block was not free already, in particular for every live one |
| BufPool.BufPool.Stats | internal/eventstream/buf_pool.go:87-95 | the bytes in free blocks, class size by class size |
| BufPool.BufPool.BlocksAreConserved | internal/eventstream/buf_pool.go:41-95 | after any operations free plus live blocks of a class are the preallocated plus the adopted ones |
| BufPool.Serve | internal/eventstream/buf_pool.go:55-84 | over any sequence of requests and returns no two buffers held ever share memory, and no block of any class is lost |
| EtcdElection.StepKeepsSafe | internal/controller/leader.go:75-143 | every step of any process, and every expiry, keeps the election invariant |
| EtcdElection.AtMostOneLiveLeader | internal/controller/leader.go:75-143 | in every interleaving at most one process is elected under an unexpired lease, and the key then holds its identity under that lease |
| EtcdElection.DeadLeasesStayDead | internal/controller/leader.go:77-80 | a lease that has ended never comes back |
| EtcdElection.KeyMovesOnlyWhenLeaseEnds | internal/controller/leader.go:83-88 | while a live leader's lease lasts the key does not change |
| EtcdElection.LeaseStaysWithItsProcess | internal/controller/leader.go:77-80 | what one process held no other ever holds |
| EtcdElection.LeaseComesFromAGrant | internal/controller/leader.go:75-80 | the lease a process holds was granted to it by a call of its own, and it has not revoked since |
| EtcdElection.RevokedForGood | internal/controller/leader.go:133-140 | a revoke that succeeds ends the lease and frees the key of it, for good |
| EtcdElection.GaveBack | internal/controller/leader.go:75-143 | a revoke in an attempt that began without a lease is of the lease that the attempt was granted |
| EtcdElection.HandOverNeedsEndOfLease | internal/controller/leader.go:75-143 | between two live leaders the first one's lease ended, for good |
| EtcdElection.FnsOverlapOnlyAfterALease | internal/controller/leader.go:33-143 | in every reachable state two processes run fn at once only if one of them runs without etcd or the lease of one of them has ended |
| EtcdElection.EndedLeaseExpiredUnderItsLeader | internal/controller/leader.go:104-142 | if a process is still elected under a lease that has ended, the lease expired while it was elected under it |
| EtcdElection.TwoFnsCanOverlap | internal/controller/leader.go:119-142 | a run in which a deposed leader's fn still runs while the next one has started |
| EtcdElection.TryBecomeLeader | internal/controller/leader.go:75-143 | the code of an attempt, with any steps of others between its own, is a run of the protocol that ends where it began; it has run fn exactly if it says so; after a successful grant it returns only with its lease revoked - if the revoke succeeded, dead for good and the key free of it - except after losing the lease, when it does not revoke; a failed grant or transaction is an error, a failed keep-alive too unless the key was found taken, and then it has followed until the key was released; without any failure the one other error is a lease that died before the transaction |
| EtcdElection.Lead | internal/controller/leader.go:104-142 | the monitoring part: fn runs; an error exactly when the keep-alive breaks, and then there is no revoke; otherwise there is one |
| EtcdElection.Prepare | internal/controller/leader.go:75-80 | the grant, with any steps of others around it: a lease exactly if the call succeeded |
| EtcdElection.Compete | internal/controller/leader.go:75-100 | grant and transaction: no lease, won, about to follow because the key is taken, or failed - each with its cause |
| EtcdElection.Resign | internal/controller/leader.go:104-109 | without a keep-alive the lease is revoked and fn never runs |
| EtcdElection.Contest | internal/controller/leader.go:82-100 | the key is won only if it was absent and then holds this process's lease; following means that it is present; failing without a failed call means that the lease had died |
| EtcdElection.Etcd.Leave | internal/controller/leader.go:89-99 | the lease is revoked, whatever the result and whatever others do around it, a follower then watches until the key is released, and the process is back without running fn |
| EtcdElection.Etcd.Meanwhile | internal/controller/leader.go:56-71 | the steps of others do not move this process |
| K8sLease.Elector.TryAcquireOrRenew | internal/controller/lease.go:110-250 | create, renew, take over, follow or fail, with the stored lease that results, for every reply |
| K8sLease.Elector.Tick | internal/controller/lease.go:75-105 | the role after a try: errors keep it |
| K8sLease.TryIsTick | internal/controller/lease.go:75-250 | the atomic step of the protocol is what the code's try does, and is a read immediately followed by its write |
| K8sLease.StepKeepsHolder | internal/controller/lease.go:75-250 | every atomic step keeps: a leader that is not overdue is the stored holder |
| K8sLease.StealingIsTaking | internal/controller/lease.go:207-250 | a patch that steals the lease of a timely leader takes an unexpired one |
| K8sLease.TakingIsStale | internal/controller/lease.go:207-250 | a patch that takes an unexpired lease is not the one that reading the object again would lead to |
| K8sLease.HolderLostExactlyByStealing | internal/controller/lease.go:75-250 | of all steps, with reads and writes apart, exactly a stealing patch makes a timely leader lose the stored lease |
| K8sLease.HolderKeptExactlyWithoutStealing | internal/controller/lease.go:75-250 | over whole runs every timely leader is the stored holder all the way if and only if no patch has stolen the lease |
| K8sLease.ReachableHolder | internal/controller/lease.go:75-250 | as long as no patch has taken another pod's unexpired lease, every timely leader is the stored holder |
| K8sLease.FreshWritesTakeNothing | internal/controller/lease.go:207-250 | if no patch is stale, which a resourceVersion on it would enforce, nothing unexpired is taken |
| K8sLease.AtomicTriesTakeNothing | internal/controller/lease.go:110-250 | nor is it if nothing comes between a read and its write |
| K8sLease.OverlapMeansOverdue | internal/controller/lease.go:75-250 | as long as no patch takes another pod's unexpired lease, two pods lead at once only while one had no successful try for more than ttl |
| K8sLease.TimelyLeadersAreUnique | internal/controller/lease.go:75-250 | under the same hypothesis, if no leader is overdue at most one pod leads, and it is the stored holder |
| K8sLease.CleanTrySettlesRole | internal/controller/lease.go:86-104 | a try without error leaves its pod leading only if it is the stored holder |
| K8sLease.ErrorKeepsRole | internal/controller/lease.go:86-92 | a try is an error exactly if the read fails, or a create or renewal does; then the role stays |
| K8sLease.TransitionsCountTakeOvers | internal/controller/lease.go:196-203 | in every run the transition count is at most the number of changes of the holder, and as long as no write is stale it is that number: one more at every take-over, the same at every renewal |
| K8sLease.TwoTakeOvers | internal/controller/lease.go:229-250 | the hypothesis is needed: two pods both take over an expired lease, neither overdue; the last patch, and only that one, is stale and takes an unexpired lease |
| K8sLease.ErrorsKeepAnOldLeader | internal/controller/lease.go:86-92 | with atomic tries a leader cut off by errors stays leader beside its successor |
| WorkQueue.ReconcileQueue.Add | internal/controller/workqueue.go:29-47 | marks the key dirty; queues it exactly if it was neither dirty nor being processed |
| WorkQueue.ReconcileQueue.Get | internal/controller/workqueue.go:52-80 | takes the oldest key into processing, or nothing if cancelled after a wait |
| WorkQueue.ReconcileQueue.Done | internal/controller/workqueue.go:83-95 | ends processing; queues the key again exactly if it became dirty meanwhile |
| WorkQueue.ReachableGood | internal/controller/workqueue.go:29-109 | in every reachable state the queue lists, once each, the dirty keys nobody processes, and workers hold different keys |
| WorkQueue.NeverProcessedTwiceAtOnce | internal/controller/workqueue.go:52-109 | no key is processed by two workers, none is handed out while being processed |
| WorkQueue.DirtyUntilStarted | internal/controller/workqueue.go:29-95 | a dirty key stays dirty until some get hands it out |
| WorkQueue.NoEventLost | internal/controller/workqueue.go:29-95 | a run that reaches an empty dirty set has started fn(k) after each Add(k), also if k was being processed |
| WorkQueue.DirtyHasAnOwner | internal/controller/workqueue.go:29-95 | a dirty key waits in the queue or a worker holds it |
| WorkQueue.QueueAdvances | internal/controller/workqueue.go:52-80 | what is queued moves forward by one place at each get and is never overtaken |
| WorkQueue.FirstInFirstOut | internal/controller/workqueue.go:29-109 | the key at position i is handed out by the (i+1)-th later get |
| WorkQueue.EveryStartHasItsAdd | internal/controller/workqueue.go:29-109 | every start of fn(k), and a pending one, has an Add(k) of its own |
| TokenBucket.Limiter.Allow | internal/controller/token_bucket.go:38-59 | the decision and the whole new state |
| TokenBucket.StateIsLevel | internal/controller/token_bucket.go:38-59 | the bucket on the clock is the bucket in units of credit |
| TokenBucket.TokensStayInBounds | internal/controller/token_bucket.go:38-59 | 0 <= tokens <= burst at every point of every run |
| TokenBucket.GrantedExactlyWhenEveryWindowHasRoom | internal/controller/token_bucket.go:38-59 | a call is granted if and only if that keeps every window ending there within burst + rate * span |
| TokenBucket.FreshLimiterIsExact | internal/controller/token_bucket.go:23-59 | from its creation with a positive rate a limiter grants a call if and only if that keeps every window ending there within rate + rate * span |
| TokenBucket.NoRateNoLimit | internal/controller/token_bucket.go:38-41 | with a rate of 0 or less every call of every run is granted |
| TokenBucket.WindowBound | internal/controller/token_bucket.go:38-59 | any run of consecutive calls grants at most burst + rate * span |
| TokenBucket.SpacedCallsAreGranted | internal/controller/token_bucket.go:38-59 | for rate >= 1 a call at least 1/rate seconds after the previous one is granted |
| TokenBucket.SlowBucketNeverGrants | internal/controller/token_bucket.go:23-35 | for 0 < rate < 1 no call of any run is granted; from rate 1 on the first one is |
| RollbackTracker.BackoffExact | internal/controller/heal.go:515-530 | up to a count of 30 the wait is 2^(count-3) minutes, without overflow |
| RollbackTracker.BackoffWrapsAt31 | internal/controller/heal.go:515-530 | at 31 the int64 product is negative |
| RollbackTracker.Tracker.ShouldBlock | internal/controller/heal.go:515-530 | blocked exactly when at least three rollbacks are counted and the wait is not over, with the time that remains |
| RollbackTracker.Tracker.Record | internal/controller/heal.go:533-540 | the namespace's count grows by one and its time is now; others are untouched |
| RollbackTracker.Tracker.Cleanup | internal/controller/heal.go:543-557 | forgets exactly the namespaces that were quiet for more than two hours |
| RollbackTracker.RollbacksAreSpacedOut | internal/controller/heal.go:579-593 | n <= 31 rollbacks of a namespace without a sweep between take at least 2^(n-3) - 1 minutes |
| RollbackTracker.FastestRun | internal/controller/heal.go:515-557 | for every n a run without sweeps whose rollbacks come at the first moment the guard allows, and the time it takes |
| RollbackTracker.BoundHoldsExactlyUpTo31 | internal/controller/heal.go:515-557 | for n <= 31 some run takes no longer than the bound, and for every n >= 32 some run is faster: the bound holds if and only if n <= 31 |
| RollbackTracker.OverflowUnblocks | internal/controller/heal.go:515-530 | with 31 rollbacks counted the next one is let through at the very same instant |
| RollbackTracker.CountNeverPasses11 | internal/controller/heal.go:543-557 | with sweeps at most two hours apart no count passes 11, so nothing overflows |
| RollbackTracker.EveryCountUpTo11IsReached | internal/controller/heal.go:515-557 | and with such sweeps a run reaches 11, so the cap is exact |
| MachineCache.GlobalState.GetOrCreateMachine | internal/controller/global_state.go:199-226 | the whole call around what other threads do meanwhile: a cached entry wins over the own one, a failed creation adds nothing |
| MachineCache.GlobalState.Lookup | internal/controller/global_state.go:199-208 | the first critical section: what is cached |
| MachineCache.GlobalState.Install | internal/controller/global_state.go:209-226 | the second critical section: the new entry is used only if nobody was faster |
| MachineCache.GlobalState.RemoveProject | internal/controller/global_state.go:121-136 | drops the project and its machine, nothing if there is no such project |
| MachineCache.GlobalState.RemoveOrphanProjects | internal/controller/global_state.go:269-292 | keeps exactly the owned projects, drops exactly the orphans' machines, reports each orphan once |
| MachineCache.GlobalState.RemoveMachine | internal/controller/global_state.go:242-249 | drops the machine of the namespace only |
| MachineCache.StepsAreTheCode | internal/controller/global_state.go:199-249 | what a thread's two checks and a removal do to the cache, and which entry it gets, is what the methods promise |
| MachineCache.StepKeepsOnePerEpoch | internal/controller/global_state.go:199-249 | every step of every thread keeps one entry per namespace between removals |
| MachineCache.SameEntryBetweenRemovals | internal/controller/global_state.go:199-249 | two calls for a namespace return the same entry if and only if no removal came between their returns |
| MachineCache.SectionsDoNotOverlap | internal/controller/global_state.go:199-249 | two locked sections of a namespace overlap only across a removal |
| MachineCache.RemovalLetsSectionsOverlap | internal/controller/global_state.go:121-136 | and across a removal they can |
| MachineCache.EpochsCountRemovals | internal/controller/global_state.go:242-249 | the epochs in these statements change exactly at removals that took an entry away |
| Migration.VersionIsTheLeadingNumber | cmd/kp/migrate_plan.go:460-468 | a name has the positive version n if and only if it starts with a number and an underscore and the number is n, or too large for int64 and n is the largest |
| Migration.SortByVersion | cmd/kp/migrate_plan.go:450-456 | an ascending rearrangement |
| Migration.ScanMigrationFiles | cmd/kp/migrate_plan.go:423-457 | exactly the files of entries that are no directory, end in .up.sql, and have a version above the current one and not above a positive target; none twice; ascending |
| Migration.ScanIsWhatIsPending | cmd/kp/migrate_plan.go:423-457 | the same for any scan of a directory, in any order that the sort may leave |
| Migration.Database.ExecuteFile | cmd/kp/migrate_run.go:123-180 | the file and its version row are committed together or not at all; a lost commit reply reports a failure |
| Migration.Database.ApplyAll | cmd/kp/migrate_run.go:109-116 | files in order up to the first failure |
| Migration.StopsAtTheFirstFailure | cmd/kp/migrate_run.go:109-180 | a run commits the files in front of its first failure, and the failing one only if its commit reply was lost, each with its version row |
| Migration.DetectVersion | cmd/kp/migrate.go:127-150 | a run starts from the answer to the version query; without one it stops, or with the default tool takes 0 |
| Migration.StartsWrongExactlyIfBlind | cmd/kp/migrate.go:127-150 | a run that goes on starts from a wrong version if and only if it is blind - default tool, failed query - and the table is not at 0 |
| Migration.ScanIsStrict | cmd/kp/migrate_plan.go:423-457 | with distinct versions every later scan is strictly ascending |
| Migration.RescanLeavesTheRest | cmd/kp/migrate_plan.go:423-457 | scanning again after the first k pending files leaves exactly the others |
| Migration.RunCommitsAPrefix | cmd/kp/migrate_run.go:109-179 | a run commits a first part of its files, all of them if it finishes, and the recorded version follows |
| Migration.SeriesCommitsAPrefix | cmd/kp/migrate_run.go:59-179 | any series of failing and restarted runs, none of them blind, commits a first part of what was pending, each file once, ascending |
| Migration.FailAndRestartEqualsCleanRun | cmd/kp/migrate_run.go:59-179 | once such a series finishes, database and version are those of one clean run |
| Migration.AppliedAgainOnlyIfBlind | cmd/kp/migrate.go:127-168 | in any series of runs a file whose version is not above a recorded one is applied again only if some run was blind |
| Migration.NotAboveRecordedNeverApplied | cmd/kp/migrate.go:154-168 | in a series without a blind run it is never applied again |
| Migration.AppliedWithinTarget | cmd/kp/migrate_run.go:59-116 | whatever any series of runs applies is a migration file of the directory, and with a positive target never above the target |
| Migration.BlindRunAppliesAllTwice | cmd/kp/migrate.go:127-150 | whatever is pending, a clean run followed by a blind one applies every file twice |
| Migration.DoubledVersionsAreNeighbours | cmd/kp/migrate_plan.go:423-457 | if two pending files carry one version, two neighbours in the scanned order do |
| Migration.StoppingBetweenLosesAFile | cmd/kp/migrate_run.go:109-179 | then there is a point at which a run can stop such that no series of later runs, blind ones apart, applies the next file |
| Migration.SecondOfAVersionIsLost | cmd/kp/migrate_run.go:109-179 | with a version twice, stopping after the first of the two loses the second for good, blind runs apart |
| ValuesDiff.DiffValues | cmd/kp/diff.go:152-195 | terminates, and reports each difference at or below the node exactly once with its kind and printed path, nothing else |
| ValuesDiff.DiffKey | cmd/kp/diff.go:160-184 | the same for one key of the first loop |
| ValuesDiff.OneChangePerPath | cmd/kp/diff.go:152-195 | a path differs in one way only |
| ValuesDiff.PatchSettlesOne | cmd/kp/diff.go:152-195 | applying a reported change removes that change, and no other, from the comparison |
| ValuesDiff.PatchAllReachesTarget | cmd/kp/diff.go:152-195 | applying all of them, in any order, leads to a tree that cannot be told from the target |
| ValuesDiff.Diff | cmd/kp/diff.go:107 | what diffValues returns for two trees: each change once, under its printed path; empty exactly if the trees cannot be told apart - with an injective rendering, exactly if they are equal - and applied to the first it gives the second |
| ValuesDiff.ReportIsExact | cmd/kp/diff.go:152-195 | the same for any complete report without repetitions, in any order |
| ValuesDiff.DottedKeysCollide | cmd/kp/diff.go:158-161 | anywhere in a tree a key with a dot prints like the two levels it seems to name |
| ValuesDiff.PlainLabelsAreUnique | cmd/kp/diff.go:152-195 | with plain keys the printed path determines the path |
| EtcdBootstrap.FindReachablePeer | internal/etcdmanager/bootstrap.go:111-125 | the first healthy peer, none exactly if there is none |
| EtcdBootstrap.PeerHasData | internal/etcdmanager/bootstrap.go:132-143 | an error, or otherwise data exactly if the output is blank |
| EtcdBootstrap.DetectClusterState | internal/etcdmanager/bootstrap.go:80-108 | existing exactly if some listed peer is healthy; a cold start exactly if none is, the pod is the first, has no data, and every other peer answers with something that is not blank; otherwise waiting |
| EtcdBootstrap.ColdStartOnlyAlone | internal/etcdmanager/bootstrap.go:132-143 | with what `test -f` answers, a cold start happens exactly on the first pod without data that sees no other peer |
| EtcdBootstrap.CreatedOnlyWithoutData | internal/etcdmanager/bootstrap.go:80-143 | through any history with one first pod and peer lists that name the pods with data, a cluster is created only when no pod holds data |
| EtcdBootstrap.AtMostOneClusterWhileDataSurvives | internal/etcdmanager/bootstrap.go:80-143 | under the same two hypotheses no second cluster is created while some pod keeps data |
| EtcdBootstrap.TwoFirstPods | internal/etcdmanager/bootstrap.go:371-381 | the first hypothesis is needed: a run with complete peer lists in which two pods that both count as the first create two clusters |
| EtcdBootstrap.UnlistedPeer | internal/etcdmanager/bootstrap.go:80-108 | so is the second: a run with one first pod in which a peer list that leaves out a pod with data leads to a second cluster beside the first one's data |
| EtcdBootstrap.WaitForCatchUp | internal/etcdmanager/bootstrap.go:245-289 | succeeds at the first sample at which every sample over a trailing span of at least the window was below the limit, and times out exactly if there is none |
| EtcdBootstrap.StableInNumbers | internal/etcdmanager/bootstrap.go:262-283 | what stable means: a trailing span of 5 s up to 3 pods, 8 s up to 5, as configured beyond, with the leader's index less than the limit ahead at every sample, and a failed query counting as 0 |
| EtcdBootstrap.FailuresCountAsCaughtUp | internal/etcdmanager/bootstrap.go:318-335 | failed queries count as caught up: two ticks a window apart are enough |

## Left out

- History.CaughtUpCacheIsCurrent: the server's objects are assumed to be parsable; a watch line whose object is not is skipped by the code although its version is taken, so such an object would stay stale. A page of a list is taken as one version of the server.
- History.NothingIsMadeUp: versions are numbers; the source compares them only with the empty string and otherwise hands them back.
- WatchLoop.ServedWithinFiveSteps: counts steps instead of time; that a list or a cancelled watch returns at all is an assumption about the network.
- WatchLoop: runWatchLoop itself is a transition system and not a method, since its selects race with ForceResync; attempt counts and back-off lengths are left out, giving up may happen whenever it can.
- Informer.InformerImpl.HandleWatchLine: parsing is a parameter of the line (malformed, an ERROR with its code, or type, version and object); cache hit counters, logging and URLs are left out.
- Informer.InformerImpl.Subscribe: the handler goroutine is the steps of Subscription.Turn; a stop does not wait for it.
- EtcdElection.TryBecomeLeader: RunWithLeaderElection's retry loop and its time-outs appear as the process being idle again; a process without etcd runs fn without any election, as in the code.
- EtcdElection.AtMostOneLiveLeader: is about leases that have not expired at the server; that fn may run on for a while afterwards is shown by TwoFnsCanOverlap.
- K8sLease.OverlapMeansOverdue: all pods share one clock; that no patch takes an unexpired lease is a hypothesis which the code, whose patches carry no resourceVersion, does not enforce, as TwoTakeOvers shows.
- TokenBucket.Limiter.Allow: float64 rounding is not modelled; tokens and times are real numbers.
- RollbackTracker.RollbacksAreSpacedOut: the first clean-up and the goroutine's ticker are steps at arbitrary times; that check and record are serial per namespace is an assumption: the caller's lock makes them so as long as the namespace's machine is not removed in between.
- BufPool.BufPool.Alloc: assumes a pool in order, that is, that no block has been freed while it was free; slices of a buffer are not modelled.
- MachineCache.GlobalState.Install: a machine and its lock are one opaque entry; UpsertProject and the read-only queries are left out.
- Migration.FailAndRestartEqualsCleanRun: the database is the sequence of committed files; what SQL does is a function of it. No snapshot is restored between runs, a version row counts whatever its dirty flag says, as in the code. The Atlas table, which the default tool asks when the first query fails, is left out, and so is a missing version table.
- EtcdBootstrap.DetectClusterState: localHasData is taken as truthful; pods, peers and answers are parameters.
- ValuesDiff.DiffValues: fmt's rendering of values is a parameter; the order of the report is that of the maps, which is arbitrary.
- JsonBytes.ExtractJsonString: works on bytes, as the source does; escapes inside strings are not interpreted by either.
- kubectl, helm and etcdctl commands, TLS, files, HTTP details and credentials.
- ReconnectPolicy, PodCache, the state machine's transition table, sharding's hash and the planner.
- Liveness under fair scheduling: a follower eventually leads, a watch eventually reconnects.
- PVC restore and Helm rollback after a failed migration, SQL parsing and risk classes.
- Easy parts: layered configuration, size recommendations, memory bumps, crash-log classes, worker counters, printing, prompts and the CLI.
