# Verification of projgit

projgit mounts a git commit as a read-only filesystem. Objects arrive lazily in one shared,
growing object database, fetched on demand or ahead of time by several threads, sidecars and
a daemon. This project models that machinery in Dafny and proves what it keeps.

`dafny verify dfyconfig.toml` checks everything.

## How it is built

* **World and residency.** `Git.World` maps every object name to its immutable content;
  `resident` is the part that is on disk. It only grows.
* **Concurrency.** `Coalesce`, `OnDemandFetch` and `BatchPool` are transition systems whose
  steps are single mutex sections, pipe reads and writes, or failures, so their theorems are
  about every interleaving. `BatchRoom` is about batches longer than the pipes of a child and
  `BatchEnds` about what a call ends with.
  `GitCli` and `Hydrate` are the same code as sequential methods; their method `Others`, called
  between their steps, stands for whatever other threads do there, and the ghost `trace` records
  what each caller claims and sends to git.
* **Caches.** `GenIndex`, `CountLru` and `BlobLru` are the map-plus-generation-index caches,
  each proved to refine a recency list; `Recency` proves what that list implies.
* **Trees and paths.** `Paths`, `TreeWalk`, `Overlay`, `Projection` and `DotGit` give paths a
  meaning component by component and prove every loop against it. `WarmTree` proves eager
  warming an exact breadth-first search and `WarmProjection` what that buys.
* **The filesystem and its surroundings.** `Inodes`, `FsTypes` and `ProjectionFs` are the
  provider, `Prefetch` its worker, `Chunks` piecewise reads and directory paging, `Probes`,
  `Wire`, `Framing` and `Daemon` the way of a batch to the daemon and back.

A ghost parameter `me` names the caller where a prefetch claim has to be told apart.

## Assumptions

* The fetch work itself does not panic; a panicking leader would never publish its result.
* Two 64-bit facts are taken as unbounded: cache generations and mount identifiers.
* `ProjectionFs` assumes nothing about its hash: agreement of `getattr` with a repeated `lookup`
  is stated for as long as no two things asked for share a number, which
  `Inodes.InodeAllocator.CollisionFreeIffResolving` shows can be read off the allocator.
* Residency of every cached header holds for the no-op and the `git` backend whatever the
  children print. That headers are also *true* needs git to print true ones, the constant
  `honest`.
* A child's pipes hold a bounded number of lines. `BatchPool.NeverStuck` and the last clause of
  `BatchPool.CallsAreBounded` ask that every batch fits; `BatchRoom` says what happens to others.
* References do not move while a projection is used (`refs` is constant).
* JSON is a pair of functions with decode after encode the identity where a theorem says so.

## Where the code and its comments differ

* `blob_cache.rs:195-201` relies on a constructor that keeps the per-entry cap within the
  capacity. `BlobCache::new` does not check this; `ObjectStore::open`, its only caller outside
  tests, fixes limits that satisfy it (`BlobLru.DefaultLimitsNeverFlush`). The emptied cache of
  `BlobLru.CachedAfterPutIff` and the overflow of `BlobLru.ReplaceCanOverflow` are therefore facts
  about the type and not about the program. The byte budget does not depend on the relation: only
  replacing a cached blob by a longer one can exceed it (`BlobLru.BudgetKeptIff`), and a name has
  one length (`BlobLru.BudgetHoldsForever`).
* `git_cli.rs:163-190` writes a whole batch before it reads an answer, on the ground that git
  buffers the requests. Nothing bounds a batch: `fetcher.rs:431` passes a whole level and
  `server.rs:910` any request. Once requests and unread answers exceed what the two pipes and the
  child hold, writer and child wait for each other for ever, with the slot locked and the OIDs
  claimed (`BatchRoom.BatchSticksIffTooLong`, `BatchRoom.LongBatchNeverReturns`).
* `fetcher.rs:99-102` says that a presence means resident. For an OID that a peer has in flight
  `git_cli.rs:736-753` reports a presence although the object is absent
  (`BatchPool.PeerSkipsAtOnce`); that is the only such case (`GitCli.BatchKeepsThePromise`), besides
  an OID repeated within one batch (below).
* `git_cli.rs:892-893` says a repeated OID gets a clone of its probe; it gets the fallback
  (`Probes.DrainAt`). In `fetcher.rs:323-325` and 381-383 that fallback is a presence
  (`Probes.DuplicateInventsPresence`). `Probes.FaithfulIff` says exactly when repetition matters.
* `git_cli.rs:664-676` recovers typed errors from text by words that only ever occur in the
  free part of a message, never in the part that names the variant. `GitCli.VariantKeptIff` says
  for every error whether it comes back as what it was.
* `git_cli.rs:508-526` re-checks presence to avoid a redundant query; a prefetch can still land
  the object between that check and the query (`OnDemandFetch.PrefetchCanWasteAQuery`, with the
  exact condition in `OnDemandFetch.RedundantQueryIff`).
* `dotgit.rs` accepts a branch with a component that is empty, `.` or `..` or has a NUL, for which
  a path walk from HEAD does not reach the file that was written (`DotGit.HeadLeadsToTheBranchIff`).
* `lookup` resolves through the store that never fetches (`projection_fs.rs:391-394`) while
  `readdir` of a directory fetches its tree (`projection_fs.rs:474`). In a directory whose own tree
  is absent every lookup is an I/O error until something lists it
  (`FsTypes.LookupBeforeAndAfterListing`); they agree exactly on local directories
  (`ProjectionFs.ProjectionFsProvider.LookupAgreesWithReaddir`), so always after a `readdir`
  (`ProjectionFs.ProjectionFsProvider.AgreesAfterReaddir`) or an error-free warm.
* The FUSE adapter resumes `readdir` at an offset, but the projection provider lists nothing past
  offset zero, so a directory larger than one reply is cut short
  (`Chunks.ProjectionPagingStopsAfterOneReply`).

## Model

| member | source | states |
|---|---|---|
| Coalesce.StepKeepsInv | crates/projgit-core/src/fetcher/coalesce.rs:58-101 | Every mutex section of `do_or_join` keeps the invariant tying the in-flight map, the slots and every caller's program counter together |
| Coalesce.ReachableInv | crates/projgit-core/src/fetcher/coalesce.rs:58-101 | That invariant holds after every interleaving of any number of callers |
| Coalesce.SingleFlight | crates/projgit-core/src/fetcher/coalesce.rs:58-90 | Per key at most one caller is between installing and removing a slot; the key is in the map exactly while such a leader exists, and the map names its slot |
| Coalesce.ResultsAreShared | crates/projgit-core/src/fetcher/coalesce.rs:79-99 | Callers that returned through one slot returned the leader's result, and each began before that slot left the map |
| Coalesce.PublishedIsFinal | crates/projgit-core/src/fetcher/coalesce.rs:81-88 | A published result, its key and its leader never change afterwards |
| Coalesce.NeverStuck | crates/projgit-core/src/fetcher/coalesce.rs:80-99 | While a call is unfinished some step other than a new call is enabled: no wake-up is lost |
| Coalesce.ProductiveStepDescends | crates/projgit-core/src/fetcher/coalesce.rs:58-101 | Every such step strictly lowers the work ahead of all callers together |
| Coalesce.RunsAreBounded | crates/projgit-core/src/fetcher/coalesce.rs:58-101 | A run without new calls and spurious wake-ups is no longer than the work ahead at its start |
| Coalesce.QuiescentMeansDone | crates/projgit-core/src/fetcher/coalesce.rs:58-101 | When no productive step is left every call has returned |
| Coalesce.NoLeak | crates/projgit-core/src/fetcher/coalesce.rs:80-90 | The in-flight map is empty once all calls have returned |
| Coalesce.StaysDecided | crates/projgit-core/src/fetcher/coalesce.rs:79-99 | Once a slot's outcome is fixed no later step changes what its callers will get |
| Coalesce.EveryoneGetsTheLeadersResult | crates/projgit-core/src/fetcher/coalesce.rs:79-99 | Leader and followers of a slot all return exactly what the leader's work produced |
| OnDemandFetch.StepRefinesCoalescer | crates/projgit-core/src/fetcher/git_cli.rs:514-568 | Each step of `fetch_object`/`raw_fetch` is one step of the coalescer or leaves it alone |
| OnDemandFetch.StepKeepsInv | crates/projgit-core/src/fetcher/git_cli.rs:514-581 | The composed machine keeps its invariant and the database only grows |
| OnDemandFetch.OkMeansResidentForever | crates/projgit-core/src/fetcher/git_cli.rs:657-662 | An `Ok` from `fetch_object`, to leader, follower or fast path, means the object is resident then and after every later step |
| OnDemandFetch.RedundantQueryIff | crates/projgit-core/src/fetcher/git_cli.rs:514-545 | In any run a query is about to be sent for a resident object exactly when some prefetch in the run landed it after this thread last looked |
| OnDemandFetch.MarkRecordsTheRun | crates/projgit-core/src/fetcher/git_cli.rs:514-545 | The mark behind that is exactly what the run did since the last look |
| OnDemandFetch.NoQueryForResidentObject | crates/projgit-core/src/fetcher/git_cli.rs:514-568 | With on-demand fetches only, no interleaving ever queries for an object that is already resident |
| OnDemandFetch.PrefetchCanWasteAQuery | crates/projgit-core/src/fetcher/git_cli.rs:522-545 | A concrete run in which a prefetch makes a query redundant |
| OnDemandFetch.SharedIsWhatTriesCameTo | crates/projgit-core/src/fetcher/git_cli.rs:514-581 | In any run what a leader publishes is what its tries since it entered come to: at most two queries, the second only after a broken pipe and always then; an answered line by its verdict; success without an answer only for an object that is there |
| Claims.LeadIsWhatIsFree | crates/projgit-core/src/fetcher/git_cli.rs:378-387 | A claim wins exactly the candidates nobody holds, each once |
| Claims.PrefetchClaims.Claim | crates/projgit-core/src/fetcher/git_cli.rs:378-387 | Marks all candidates in flight, returns the lead set and keeps the in-flight set the disjoint union of the guards |
| Claims.PrefetchClaims.TakeFree | crates/projgit-core/src/fetcher/git_cli.rs:379-385 | The loop under the lock computes the lead set and adds every candidate |
| Claims.PrefetchClaims.Release | crates/projgit-core/src/fetcher/git_cli.rs:405-415 | Dropping a guard removes exactly what it held |
| Claims.PrefetchClaims.EmptyWhenNoGuards | crates/projgit-core/src/fetcher/git_cli.rs:362-415 | No guard, nothing in flight |
| BatchPool.FullPassVisitsEachSlotOnce | crates/projgit-core/src/fetcher/git_cli.rs:267-283 | The scan `(start + i) % n` looks at every slot, and at none twice |
| BatchPool.StepKeepsInv | crates/projgit-core/src/fetcher/git_cli.rs:131-341 | Every lock, pipe and claim step of any thread keeps slots, pipes and claims consistent |
| BatchPool.ReachableInv | crates/projgit-core/src/fetcher/git_cli.rs:131-341 | That consistency holds in every reachable state |
| BatchPool.PipesStayAligned | crates/projgit-core/src/fetcher/git_cli.rs:131-190 | In every reachable state an unlocked slot is empty or holds a child with nothing left to read, and the i-th line of a finished batch answers its i-th OID, across failures, retries and resets |
| BatchPool.SlotsAreExclusive | crates/projgit-core/src/fetcher/git_cli.rs:267-310 | No slot is in two hands |
| BatchPool.BlocksOnlyIfAllWereBusy | crates/projgit-core/src/fetcher/git_cli.rs:274-292 | A caller blocks only if, since it last began a scan, every single slot was held by another thread at some state of the run |
| BatchPool.ClaimsPartitionTheWork | crates/projgit-core/src/fetcher/git_cli.rs:732-882 | In every reachable state the in-flight set is the disjoint union of the live claims, and it is empty when every call has returned by any exit |
| BatchPool.NeverStuck | crates/projgit-core/src/fetcher/git_cli.rs:163-334 | In every consistent state in which all batches fit into their pipes, an unfinished call leaves some step of a thread or a child possible in which nothing breaks |
| BatchPool.StuckIff | crates/projgit-core/src/fetcher/git_cli.rs:163-334 | Nothing but failures and new calls is possible exactly when every unfinished call is jammed, its writer and the child each waiting for room in a full pipe, or waits for the slot of one that is |
| BatchPool.JammedIsLong | crates/projgit-core/src/fetcher/git_cli.rs:163-190 | A jammed call has written exactly what there is room for, and its batch is longer than that |
| BatchPool.EveryStepIsProgress | crates/projgit-core/src/fetcher/git_cli.rs:773-819 | Every step of a call lowers that call's own bound and no other call's |
| BatchPool.CallsAreBounded | crates/projgit-core/src/fetcher/git_cli.rs:514-882 | Whatever the schedule a call takes at most its bound of steps, its child's included; and when nothing healthy is possible although every batch fits, it has returned and holds no claim |
| BatchPool.PeerSkipsAtOnce | crates/projgit-core/src/fetcher/git_cli.rs:736-753 | A concrete run: a batch of what a peer has claimed returns at once with nothing asked and nothing fetched |
| BatchEnds.EndsByItsOwnFaults | crates/projgit-core/src/fetcher/git_cli.rs:511-581 | In any run a call that is over ended by its own faults alone: answered after at most one broken pipe, for want of git at the first failed spawn, in failure after exactly two broken pipes |
| BatchEnds.FirstBreakIsRetried | crates/projgit-core/src/fetcher/git_cli.rs:773-819 | After the first broken pipe a call scans for a slot again; after the second it has failed |
| BatchEnds.ScansStartInTurn | crates/projgit-core/src/fetcher/git_cli.rs:267-273 | In any run the scans of all threads together start at the slots in turn |
| BatchRoom.FittingBatchesNeverStick | crates/projgit-core/src/fetcher/git_cli.rs:163-190 | If no batch names more objects than the pipes and the child have room for, no interleaving of any calls gets stuck |
| BatchRoom.LongBatchNeverReturns | crates/projgit-core/src/fetcher/git_cli.rs:163-190 | As long as nothing breaks a longer batch never reaches its first answer in any interleaving, and its OIDs stay claimed |
| BatchRoom.BatchSticksIffTooLong | crates/projgit-core/src/fetcher/git_cli.rs:163-190 | A batch alone in the pool can get stuck if and only if it names more distinct objects than input, child and output have room for |
| StatusLine.ParseInvertsPrint | crates/projgit-core/src/fetcher/git_cli.rs:610-646 | What git prints for an object, of any kind and any 64-bit size, or for a missing one is read back exactly |
| StatusLine.EchoNamesTheObject | crates/projgit-core/src/fetcher/git_cli.rs:616-621 | The case-insensitive echo test is the same as reading the echoed name back as this OID |
| StatusLine.OtherAnswersAreRejected | crates/projgit-core/src/fetcher/git_cli.rs:610-621 | A line is accepted only if it names the object asked for; any other name is a backend error |
| StatusLine.DigitsOfDecimal | crates/projgit-core/src/fetcher/git_cli.rs:625-630 | Decimal sizes survive printing and parsing |
| StatusLine.LineOfABlob | crates/projgit-core/src/fetcher/git_cli.rs:610-646 | A concrete line, written and read |
| GitCli.GitCliFetcher.RawFetch | crates/projgit-core/src/fetcher/git_cli.rs:514-581 | Which result each sequence of tries gives, and that exactly these queries are sent: at most two, the second only after a broken pipe, none if the object is there; `Ok` only if resident |
| GitCli.GitCliFetcher.Classify | crates/projgit-core/src/fetcher/git_cli.rs:589-605 | The verdict on one status line, with the post-fetch check |
| GitCli.GitCliFetcher.FetchObject | crates/projgit-core/src/fetcher/git_cli.rs:657-677 | A resident object is not fetched; a caller leads exactly when nobody is fetching the object, and a follower gets what that leader's own tries gave; both answer it retyped from its text, `Ok` only if resident, and a leader sends its tries and nothing else |
| GitCli.GitCliFetcher.Lead | crates/projgit-core/src/fetcher/git_cli.rs:657-662 | The leader's part: fetched while others can join, and taken off the list of fetches in progress whatever came of it |
| GitCli.TextIsShared | crates/projgit-core/src/fetcher/git_cli.rs:662-676 | What comes back depends on the leader's result alone, names this object and is never the error of a fetcher that cannot fetch |
| GitCli.GitCliFetcher.Partition | crates/projgit-core/src/fetcher/git_cli.rs:705-722 | Local objects are filed as present, and nothing else is; everything else is to be asked, and nothing that was there before |
| GitCli.GitCliFetcher.TakeLead | crates/projgit-core/src/fetcher/git_cli.rs:724-732 | One claim for all that is to be asked; led is exactly what peers did not hold at that moment |
| GitCli.GitCliFetcher.ClaimAndFile | crates/projgit-core/src/fetcher/git_cli.rs:705-753 | Everything before git is asked: whatever is not resident by the time of the claim is claimed, and every other OID has its answer |
| GitCli.GitCliFetcher.FileSkipped | crates/projgit-core/src/fetcher/git_cli.rs:736-753 | OIDs a peer claimed get a header if the store has one, and a bare presence only if the object was absent when skipped; led OIDs are not touched |
| GitCli.GitCliFetcher.QueryTwice | crates/projgit-core/src/fetcher/git_cli.rs:771-819 | One retry after a broken pipe, none after a failed spawn; each try sends the whole lead set and nothing else is sent |
| GitCli.GitCliFetcher.FileLed | crates/projgit-core/src/fetcher/git_cli.rs:788-877 | Each led OID gets the probe its own line, or the failure, calls for |
| GitCli.GitCliFetcher.PrefetchHeaders | crates/projgit-core/src/fetcher/git_cli.rs:700-882 | What is local, claimed, skipped and asked for, and how each is answered; the call makes one claim, sends exactly its lead set once or twice, and gives the claim back on every way out |
| GitCli.GitCliFetcher.PrefetchSome | crates/projgit-core/src/fetcher/git_cli.rs:705-882 | The same for a non-empty batch |
| GitCli.BatchKeepsThePromise | crates/projgit-core/src/fetcher/git_cli.rs:700-903 | Every header batch returns one probe per OID, in order, naming it; a header only for a resident object; a bare presence means resident by the time of the claim exactly unless a peer held the OID, and then it means absent at the claim |
| GitCli.VariantKeptIff | crates/projgit-core/src/fetcher/git_cli.rs:664-676 | For every fetch error, whether it comes back from the coalescer as the variant it was: it depends on words in its message alone |
| GitCli.FoundInMessage | crates/projgit-core/src/fetcher/git_cli.rs:664-674 | The words looked for are in an error's text exactly when they are in its message |
| GitCli.QuotedLineCanLookRefused | crates/projgit-core/src/fetcher/git_cli.rs:641-669 | A backend error quoting a line with the word comes back as a refusal |
| GitCli.VariantsAreLost | crates/projgit-core/src/fetcher/git_cli.rs:664-676 | In particular a refusal by git and a failed post-fetch check reach the caller as backend errors |
| Probes.Reassemble | crates/projgit-core/src/fetcher/git_cli.rs:886-903 | The reorder loop equals draining the filed answers in input order |
| Probes.DrainAt | crates/projgit-core/src/fetcher/git_cli.rs:886-903 | Position by position: the first occurrence of an OID gets its filed answer, any other the fallback |
| Probes.BatchNamesItsInputs | crates/projgit-core/src/fetcher.rs:312-325 | One probe per input, in order, naming that input |
| Probes.FaithfulIff | crates/projgit-core/src/fetcher.rs:312-325 | Every position reports its OID's own answer if and only if no OID whose answer differs from the fallback is repeated |
| Probes.DuplicateInventsPresence | crates/projgit-core/src/fetcher.rs:323-325 | Asking twice for a refused object gives a presence for the second copy |
| Probes.CollectAt | crates/projgit-core/src/fetcher.rs:312-322 | With distinct OIDs, filing keeps every probe |
| Hydrate.HydratingStore.Header | crates/projgit-core/src/fetcher.rs:244-258 | A header of an absent object is fetched and of a present one is not; an error is that fetch's own; `Ok` implies resident, and the object's own header when git is truthful |
| Hydrate.HydratingStore.ReadTree | crates/projgit-core/src/fetcher.rs:224-241 | Fetched exactly if absent, which queries that sent, the fetch's own error if it failed, and otherwise the database's answer; a missing object never shows as such |
| Hydrate.HydratingStore.ReadBlob | crates/projgit-core/src/fetcher.rs:206-220 | The same for blobs |
| Hydrate.HydratingStore.FetchObject | crates/projgit-core/src/fetcher.rs:54-58 | The no-op fetcher refuses and sends nothing; the `git` one is led or followed, with the queries and the result that gave, and never refuses |
| Hydrate.HydratingStore.FetchBatch | crates/projgit-core/src/fetcher.rs:78-111 | Both backends: one probe per OID, in order, a header only for a resident object; which claims and queries that took |
| Hydrate.HydratingStore.Publish | crates/projgit-core/src/fetcher.rs:293-307 | Every answer of a batch that is not an error is published, in order; never a header ahead of its object |
| Hydrate.HydratingStore.PublishOne | crates/projgit-core/src/fetcher.rs:293-307 | A header goes into the cache as it is, a presence has its header looked up there, an error changes nothing |
| Hydrate.HydratingStore.PrefetchHeaders | crates/projgit-core/src/fetcher.rs:271-326 | Asks exactly for OIDs absent at their check, everything else being resident, and gives the drained answers |
| Hydrate.HydratingStore.FetchObjects | crates/projgit-core/src/fetcher.rs:336-384 | The same for whole objects |
| Hydrate.HydratingStore.AskFor | crates/projgit-core/src/fetcher.rs:285-325 | The shared half: ask, publish, put back in order; presences if nothing is asked. What is asked may have landed since its check; all else is resident |
| Hydrate.HydratedBatchKeepsThePromise | crates/projgit-core/src/fetcher.rs:271-384 | A hydrated batch still answers every input in order by name and a header implies resident; what was not asked for is resident and present, and the first answer about an OID is a presence only if it is resident or a peer was fetching it |
| Hydrate.DistinctBatchIsFaithful | crates/projgit-core/src/fetcher.rs:271-384 | For distinct OIDs each position is the fetcher's own probe, or a presence, of a resident object, for an OID that was not asked |
| WarmTree.PushNew | crates/projgit-core/src/fetcher.rs:416-422 | Queues an entry list's unvisited subdirectories once each, in order |
| WarmTree.KidsByNumber | crates/projgit-core/src/fetcher.rs:416-422 | A tree leads to exactly what its entries of mode 0o40000 name |
| WarmTree.VisitedByNumber | crates/projgit-core/src/fetcher.rs:409-422 | Every tree visited but the root is named by such an entry of a tree that was read, so a submodule is never asked for or counted |
| WarmTree.ReadLevel | crates/projgit-core/src/fetcher.rs:409-426 | Reads each tree of a level once, fetching it if need be; the next level and the counts follow from which could be read; a tree is an error exactly if its own fetch failed or it does not decode, and then could not be read when the level began |
| WarmTree.WarmTreeClosure | crates/projgit-core/src/fetcher.rs:402-435 | Terminates on any object graph; statistics are the counts of an exact level-by-level search; all that is sent is one batch a level for what it lacks and then the fetches of single trees; what could be read when its level began was read |
| WarmTree.LayersAreDisjoint | crates/projgit-core/src/fetcher.rs:404-421 | No tree is visited in two levels or twice in one |
| WarmTree.LayersAreDistances | crates/projgit-core/src/fetcher.rs:409-433 | Level k is exactly the trees at shortest distance k through the trees that were read, and every tree so reached is visited |
| WarmTree.LevelsIsGreatestDistance | crates/projgit-core/src/fetcher.rs:410-433 | `levels` is one more than the greatest such distance |
| WarmTree.GoodIsBetween | crates/projgit-core/src/fetcher.rs:409-426 | The trees read are visited trees that can be read afterwards, and include every visited tree that could be read before |
| WarmTree.LocalTreesAreVisited | crates/projgit-core/src/fetcher.rs:402-435 | Whatever is reached through trees that were local before is visited, at that distance or nearer, and warm if it was local itself |
| WarmTree.NoErrorsMeansRealDistances | crates/projgit-core/src/fetcher.rs:402-435 | Without errors level k is exactly the trees at shortest distance k in the graph of all trees that decode |
| WarmTree.LocalGraphHasNoErrors | crates/projgit-core/src/fetcher.rs:402-435 | If every tree of that graph is local at the start, there are no errors |
| WarmTree.CountsAreExact | crates/projgit-core/src/fetcher.rs:404-425 | `trees_warmed + errors` is the number of distinct trees visited; no errors means every one was read |
| WarmTree.WarmIsClosed | crates/projgit-core/src/fetcher.rs:409-426 | After a search without errors every visited tree is readable and its subdirectories are visited |
| WarmTree.WarmingMakesWalkingLocal | crates/projgit-core/src/tree.rs:108-151 | After a warm with no errors no path lookup from that root ever fails in the store |
| WarmProjection.WarmedProjectionNeverMissesATree | crates/projgit-core/src/projection.rs:76-163 | ... nor does any lookup or root listing of a projection showing that root |
| GenIndex.PromoteKeepsIndex | crates/projgit-core/src/tree_cache.rs:123-139 | Restamping keeps entries and index inverse and moves the key to the recent end |
| GenIndex.InsertKeepsIndex | crates/projgit-core/src/tree_cache.rs:176-188 | Stamping a new key appends it |
| GenIndex.EvictKeepsIndex | crates/projgit-core/src/tree_cache.rs:167-174 | Removing the smallest generation removes the least recently used key |
| CountLru.CountLru.Get | crates/projgit-core/src/tree_cache.rs:123-139 | A hit answers and promotes, a miss changes nothing |
| CountLru.CountLru.Put | crates/projgit-core/src/tree_cache.rs:147-189 | Keeps exactly the last `capacity` keys by use, with their payloads, and counts each eviction |
| CountLru.CountLru.MakeRoom | crates/projgit-core/src/tree_cache.rs:167-174 | The eviction loop drops the shortest oldest prefix that makes room |
| CountLru.CountLru.Promote | crates/projgit-core/src/header_cache.rs:121-157 | A cached key is replaced and becomes the most recent |
| CountLru.CountLru.InsertNew | crates/projgit-core/src/header_cache.rs:137-179 | A new key is stored, keeping the last `capacity` |
| Recency.CacheIsStackPrefix | crates/projgit-core/src/tree_cache.rs:123-189 | After any trace of reads the cache is the last `capacity` keys by last use |
| Recency.SmallerIsIncluded | crates/projgit-core/src/tree_cache.rs:123-189 | What a smaller cache holds a larger one holds |
| Recency.HitsAreMonotone | crates/projgit-core/src/tree_cache.rs:123-189 | Hits never fall as capacity grows |
| Recency.HeldIffRecent | crates/projgit-core/src/tree_cache.rs:123-189 | A key is held exactly when fewer than `capacity` other keys were read since it was |
| BlobLru.VictimsAreFewest | crates/projgit-core/src/blob_cache.rs:191-208 | The evicted prefix is the shortest that makes room |
| BlobLru.PutUses | crates/projgit-core/src/blob_cache.rs:160-221 | How `put` changes the bytes used, case by case, keeping the counter exact |
| BlobLru.BudgetKeptIff | crates/projgit-core/src/blob_cache.rs:160-221 | `put` stays within budget if and only if it does not replace a cached blob by one too long for the rest |
| BlobLru.ReplaceCanOverflow | crates/projgit-core/src/blob_cache.rs:173-187 | A concrete replacement by a longer payload, which the type allows, overflows the budget |
| BlobLru.CachedAfterPutIff | crates/projgit-core/src/blob_cache.rs:160-221 | When a key is cached afterwards and with which payload; limits that let a payload over the capacity through have the cache emptied by it |
| BlobLru.DefaultLimitsNeverFlush | crates/projgit-core/src/object_store.rs:88-103 | With the limits every store is opened with, a blob within the per-entry cap is always stored and only the oldest entries make room |
| BlobLru.BudgetHoldsForever | crates/projgit-core/src/blob_cache.rs:142-221 | When one name has one length, every run of reads and insertions stays within budget, whatever the two limits |
| BlobLru.RecencyIsByUse | crates/projgit-core/src/blob_cache.rs:142-210 | After any run of reads and insertions the recency list is in the order of the last operation that succeeded for each key |
| BlobLru.EvictsLeastRecent | crates/projgit-core/src/blob_cache.rs:156-210 | In any run whatever an insertion evicts was last used before everything it keeps; replacing a cached key evicts nothing |
| BlobLru.RunAnswers | crates/projgit-core/src/blob_cache.rs:142-210 | After any run what is cached is what was stored last, and hits, inserts, evictions and skips are counted exactly |
| BlobLru.BlobLru.InOrderOfUse | crates/projgit-core/src/blob_cache.rs:142-210 | The cache itself is at any time in the order of last use over its whole history |
| BlobLru.BlobLru.Get | crates/projgit-core/src/blob_cache.rs:142-155 | A read: the payload, promotion and the hit counter, logged |
| BlobLru.BlobLru.Put | crates/projgit-core/src/blob_cache.rs:160-221 | An insertion under both limits with every counter, logged |
| BlobLru.BlobLru.MakeRoom | crates/projgit-core/src/blob_cache.rs:190-208 | The eviction loop, including the bail-out on an empty cache |
| ObjectStore.AnswersAreStable | crates/projgit-core/src/object_store.rs:144-268 | Objects are immutable: an answer about a resident object is final |
| ObjectStore.ObjectStore.Header | crates/projgit-core/src/object_store.rs:158-175 | Cache or database; errs exactly on absence, and keeps the header cache behind the database |
| ObjectStore.ObjectStore.PutHeaderCache | crates/projgit-core/src/object_store.rs:183-185 | Publishing keeps residency if the object is resident, and truth if the header is its own |
| ObjectStore.ObjectStore.ReadTree | crates/projgit-core/src/object_store.rs:234-268 | The cache is invisible: the answer is the database's, and recency moves as an LRU read |
| ObjectStore.ObjectStore.ReadBlob | crates/projgit-core/src/object_store.rs:196-223 | The answer is the database's; a read is tried in the cache, a miss counted and its blob inserted |
| ObjectStore.ObjectStore.Land | crates/projgit-core/src/object_store.rs:144-149 | Objects arriving from anyone keep every cache truthful |
| Paths.SplitPath | crates/projgit-core/src/tree.rs:155-177 | The loop yields the non-empty components and rejects NUL, `.` and `..` |
| Paths.ComponentsRoundTrip | crates/projgit-core/src/tree.rs:155-177 | Exactly which paths are accepted, and that joining their components and splitting again gives them back |
| Paths.ComponentsOfJoin | crates/projgit-core/src/tree.rs:155-177 | Splitting a join of valid components gives them back |
| Paths.ComponentsOfPair | crates/projgit-core/src/tree.rs:155-177 | The components of `p/q` are those of p then those of q |
| TreeWalk.Lookup | crates/projgit-core/src/tree.rs:108-151 | The loop equals the component-wise walk over the database |
| TreeWalk.WalkIsAChain | crates/projgit-core/src/tree.rs:108-151 | For any components and database the walk is a chain of first-listed entries: it goes on below an entry exactly if its mode is 0o40000, and each error has its place and parent |
| Git.ModesByNumber | crates/projgit-core/src/tree.rs:36-50 | The kinds by mode number; any other number is a regular file |
| TreeWalk.WalkComposes | crates/projgit-core/src/tree.rs:108-151 | Walking p then q is walking both, errors included |
| TreeWalk.LookupComposes | crates/projgit-core/src/tree.rs:108-151 | Looking up `p/q` is looking up q in the directory p names, with parents prefixed by p |
| TreeWalk.WalkIsStable | crates/projgit-core/src/tree.rs:108-151 | A path that resolved resolves the same however the store grows |
| Projection.RootTree | crates/projgit-core/src/projection.rs:76-99 | The root tree of each kind of projection, with its errors |
| Projection.LookupPath | crates/projgit-core/src/projection.rs:109-127 | Overlay first by first component, otherwise the tree |
| Projection.ReadRoot | crates/projgit-core/src/projection.rs:135-163 | Synthetic entries in name order, then unshadowed tree entries |
| Projection.SubtreeIsTheSame | crates/projgit-core/src/projection.rs:76-127 | With no overlay a subtree projection at p resolves q exactly as the commit resolves `p/q`, errors up to the parent |
| Projection.RefShowsItsCommit | crates/projgit-core/src/projection.rs:76-99 | A reference shows what its commit shows, at every path and in the root listing; an unknown one lists nothing |
| Projection.CommitShowsItsTree | crates/projgit-core/src/projection.rs:76-127 | Without an overlay a commit shows what its tree holds |
| Overlay.DescendIsAt | crates/projgit-core/src/projection.rs:168-211 | Walking synthetic entries finds an entry exactly when every step is there |
| Overlay.DescendFailsAt | crates/projgit-core/src/projection.rs:168-211 | Where such a walk fails and with which error and parent |
| Overlay.ResolveInSynthetic | crates/projgit-core/src/projection.rs:168-211 | The loop equals that walk |
| DotGit.SpliceSucceedsIff | crates/projgit-core/src/dotgit.rs:222-249 | The splice avoids its panic exactly when only directories lie on the way |
| DotGit.SpliceLaw | crates/projgit-core/src/dotgit.rs:222-249 | After a splice the path holds the file, its ancestors are directories, nothing is below it, all else is as before |
| DotGit.OverlayEntries.SpliceDotgitChild | crates/projgit-core/src/dotgit.rs:203-209 | Replaces one file under `.git`, in place |
| DotGit.OverlayEntries.SpliceNestedDotgitFile | crates/projgit-core/src/dotgit.rs:222-249 | The descending loop with write-back equals the recursive splice, in place |
| DotGit.OverlayEntries.ApplyA2RefVisibility | crates/projgit-core/src/dotgit.rs:174-196 | HEAD, then the ref file |
| DotGit.A1IsFresh | crates/projgit-core/src/dotgit.rs:77-107 | What the detached overlay contains where the splice will write |
| DotGit.A1Layout | crates/projgit-core/src/dotgit.rs:63-107 | The whole detached overlay, file by file, and nothing else |
| DotGit.A2Law | crates/projgit-core/src/dotgit.rs:174-249 | After giving a branch every path under `.git` is accounted for and no other top-level entry moves |
| DotGit.A2SucceedsIff | crates/projgit-core/src/dotgit.rs:174-196 | On a fresh overlay exactly the branches under `refs/heads/` can be given |
| DotGit.HeadLeadsToTheBranchIff | crates/projgit-core/src/dotgit.rs:174-196 | Following HEAD by a path walk leads to the file that was written exactly when no component of the branch is empty, `.` or `..` or has a NUL |
| DotGit.HeadResolvesIff | crates/projgit-core/src/dotgit.rs:174-196 | ... and yields the commit exactly then, if no other file under `.git` held the commit line |
| DotGit.A1HoldsOnce | crates/projgit-core/src/dotgit.rs:77-107 | In the detached overlay none does |
| Inodes.NamespacesAreDisjoint | crates/projgit-core/src/fs_provider.rs:301-382 | Root, tree and synthetic inodes never share a number, whatever the hash |
| Inodes.NumbersTellApart | crates/projgit-core/src/fs_provider.rs:301-382 | With a hash that tells its inputs apart below the synthetic bit, different objects, paths and sorts have different numbers |
| Inodes.InodeAllocator.Issue | crates/projgit-core/src/fs_provider.rs:301-353 | The number is the hash's and the first kind to get it keeps it |
| Inodes.InodeAllocator.CollisionFreeIffResolving | crates/projgit-core/src/fs_provider.rs:329-353 | There was no collision exactly when everything asked for resolves back to itself |
| FsTypes.RootAgrees | crates/projgit-core/src/projection.rs:109-163 | A root listing has a pair exactly when looking the name up finds it |
| FsTypes.TreeAgrees | crates/projgit-core/src/projection_fs.rs:473-500 | The same inside a tree directory |
| FsTypes.SyntheticAgrees | crates/projgit-core/src/projection_fs.rs:503-526 | The same inside a synthetic directory |
| FsTypes.RootNamesOnce | crates/projgit-core/src/projection.rs:135-163 | At the root each name is listed once, shadowed names as synthetic |
| FsTypes.LookupIsStable | crates/projgit-core/src/projection.rs:109-127 | A path that resolved keeps resolving to the same entry |
| ProjectionFs.SameInodeSameSnap | crates/projgit-core/src/projection_fs.rs:381-384 | Without a collision one number means one path and, with truthful headers, one snapshot |
| ProjectionFs.ProjectionFsProvider.Lookup | crates/projgit-core/src/projection_fs.rs:388-398 | Which entry and inode; its kind, permissions and size case by case, the size that of the object; which error for each cause; the header fetched exactly if absent; what is answered is what `getattr` then answers; nothing handed out before changes |
| ProjectionFs.DescribedIsShown | crates/projgit-core/src/projection_fs.rs:283-398 | The attributes made from a snapshot are those `stat` should show |
| ProjectionFs.ProjectionFsProvider.RootIsShown | crates/projgit-core/src/projection_fs.rs:400-422 | What `getattr` says of the root and of numbers never given out |
| FsTypes.KindByNumber | crates/projgit-core/src/projection_fs.rs:256-368 | The kind shown for an entry by its mode number |
| ProjectionFs.ProjectionFsProvider.ResolvePath | crates/projgit-core/src/projection_fs.rs:391-394 | Resolution reads the local store only |
| ProjectionFs.ProjectionFsProvider.SnapshotFor | crates/projgit-core/src/projection_fs.rs:256-368 | Inode and snapshot of an entry, its size from a hydrated header |
| ProjectionFs.ProjectionFsProvider.Remember | crates/projgit-core/src/projection_fs.rs:381-397 | Publishing keeps the first snapshot of an inode and stays faithful to what was answered |
| ProjectionFs.ProjectionFsProvider.Readdir | crates/projgit-core/src/projection_fs.rs:423-538 | The listing numbered, typed and named, and what is posted for prefetch, for every sort of inode; a directory of the tree is fetched exactly if absent |
| ProjectionFs.ProjectionFsProvider.Listing | crates/projgit-core/src/projection_fs.rs:442-537 | Which pairs a directory has, and when listing fails |
| ProjectionFs.ProjectionFsProvider.Emit | crates/projgit-core/src/projection_fs.rs:449-462 | The loop numbering each pair |
| FsTypes.HarvestIsTheBlobs | crates/projgit-core/src/projection_fs.rs:449-500 | What is posted for prefetch is one object for every file and symlink listed, in order |
| FsTypes.TreeAgreesIffLocal | crates/projgit-core/src/projection_fs.rs:388-538 | A lookup in a tree directory agrees with the listing it has once fetched, on any name, if and only if its tree is already there |
| FsTypes.LookupBeforeAndAfterListing | crates/projgit-core/src/projection_fs.rs:388-500 | A concrete directory in which a name is not found before, and found after, the directory is listed |
| ProjectionFs.ProjectionFsProvider.ListedIffFound | crates/projgit-core/src/projection_fs.rs:388-538 | In a local directory a pair is listed exactly when looking that name up finds that entry; in one not fetched yet every lookup fails in the store |
| ProjectionFs.ProjectionFsProvider.LookupAgreesWithReaddir | crates/projgit-core/src/projection_fs.rs:388-538 | For every known directory: lookup finds exactly the names the directory lists once fetched, with the same inode and kind, if and only if the directory is local |
| ProjectionFs.ProjectionFsProvider.AgreesAfterReaddir | crates/projgit-core/src/projection_fs.rs:388-538 | Once a `readdir` has answered with a listing, lookup agrees with it on every name, however the database has grown since |
| ProjectionFs.ProjectionFsProvider.ListedLasts | crates/projgit-core/src/projection_fs.rs:388-538 | Nothing the provider does later takes such a listing back |
| ProjectionFs.ProjectionFsProvider.UnlistedIsNotFound | crates/projgit-core/src/projection_fs.rs:388-538 | In a directory that cannot be listed nothing is found, except overlay entries at the root |
| ProjectionFs.ProjectionFsProvider.Read | crates/projgit-core/src/projection_fs.rs:540-553 | The clamped slice of the blob or synthetic file; which inodes cannot be read; the blob fetched exactly if absent |
| ProjectionFs.ProjectionFsProvider.Readlink | crates/projgit-core/src/projection_fs.rs:555-568 | The blob or the synthetic target; which inodes are no links; the blob fetched exactly if absent |
| Chunks.ChunksMakeTheRange | crates/projgit-core/src/projection_fs.rs:575-579 | Consecutive reads of any sizes give exactly the range they cover |
| Chunks.ChunksMakeTheWhole | crates/projgit-core/src/projection_fs.rs:575-579 | They give the whole file if and only if they ask for all of it |
| Chunks.FillReply | crates/projgit-fuse/src/adapter.rs:147-162 | The reply loop sends what fits, each with the offset to resume after it |
| Chunks.DropOffsetPagingIsExact | crates/projgit-core/src/fs_provider.rs:524-553 | Over the in-memory provider paging delivers consecutive slices for any buffer sizes |
| Chunks.DropOffsetPagingIsComplete | crates/projgit-core/src/fs_provider.rs:524-553 | It delivers every entry once if and only if the buffers could hold them |
| Chunks.ProjectionPagingStopsAfterOneReply | crates/projgit-core/src/projection_fs.rs:423-427 | Over the projection provider paging delivers the first reply and no more, complete exactly when one reply holds the listing |
| Prefetch.PrefetchWorker.Post | crates/projgit-core/src/prefetch.rs:154-191 | Accepted exactly when non-empty and the channel has room; posted or dropped is counted accordingly |
| Prefetch.PrefetchWorker.Take | crates/projgit-core/src/prefetch.rs:217-218 | First in, first out |
| Prefetch.PrefetchWorker.NextChunk | crates/projgit-core/src/prefetch.rs:222-244 | Batches of 64, the last possibly shorter |
| Prefetch.PrefetchWorker.SendHeaders | crates/projgit-core/src/prefetch.rs:219-241 | One batch through the hydrating store: every probe counted as resolved, published or failed |
| Prefetch.PrefetchWorker.BlobsUnderCap | crates/projgit-core/src/prefetch.rs:270-284 | Kept plus skipped is the batch, in order; with truthful headers every blob within the cap that was resident before is kept and nothing but resident blobs within the cap is, whatever lands between two checks |
| Prefetch.PrefetchWorker.SendBlobs | crates/projgit-core/src/prefetch.rs:242-258 | One batch: kept plus skipped is the batch, what is kept is all that is asked for, and warmed are the kept ones without an error |
| Prefetch.PrefetchWorker.WorkTask | crates/projgit-core/src/prefetch.rs:218-259 | A task is worked off completely |
| Prefetch.PrefetchWorker.WorkerLoop | crates/projgit-core/src/prefetch.rs:212-262 | Everything queued is worked off in order; resolved headers are the accepted ones, kept plus skipped blobs the accepted ones |
| Prefetch.PrefetchWorker.DrainedBooks | crates/projgit-core/src/prefetch.rs:154-284 | On a drained channel all counts balance and the batches concatenate to the tasks |
| Wire.NamesRoundTrip | crates/projgit-daemon/src/fetcher.rs:243-251 | OIDs and kinds survive their text form |
| Wire.NamesAreGits | crates/projgit-daemon/src/fetcher.rs:243-251 | Lower-case digits and git's names of the kinds |
| Wire.DecodeInvertsEncode | crates/projgit-daemon/src/server.rs:929-950 | A probe sent and read back is itself, an error collapsed to a backend error with the original text |
| Wire.MergeProbes | crates/projgit-daemon/src/fetcher.rs:181-241 | The merge loop: first readable probe wins, drained in request order |
| Wire.AnyReplyIsOneProbePerInput | crates/projgit-daemon/src/fetcher.rs:85-158 | For any reply, malformed or missing, one probe per OID asked, in order, naming it; without a batch reply each is an error, of the transport if nothing came back |
| Wire.OmittedIsAnError | crates/projgit-daemon/src/fetcher.rs:181-241 | An OID the reply says nothing readable about is an error |
| Wire.ProbesSurviveTheWire | crates/projgit-daemon/src/fetcher.rs:181-241 | For distinct OIDs the sidecar sees the daemon's own probes, kinds and sizes intact |
| Daemon.DaemonState.Fetch | crates/projgit-daemon/src/server.rs:818-845 | The object is fetched exactly if absent, with which queries, and the reply says whether that failed; an `Ok` reply means the named object is resident; which error otherwise |
| Daemon.DaemonState.FetchMany | crates/projgit-daemon/src/server.rs:848-914 | One malformed OID rejects the batch; otherwise one wire probe per OID of a batch that asked for exactly what was absent at its check |
| Daemon.ReplyMeans | crates/projgit-daemon/src/server.rs:886-914 | The first answer about an OID is a presence only if the object is resident or a peer is fetching it; what was not asked for is resident |
| Daemon.BatchSurvivesTheRoundTrip | crates/projgit-daemon/src/server.rs:886-950 | Request, reply and merge together: distinct OIDs come back with the daemon's probes |
| Daemon.DaemonState.Handle | crates/projgit-daemon/src/server.rs:635-812 | Mount, unmount and attach are the steps of the registry |
| Daemon.RunKeepsTheTable | crates/projgit-daemon/src/server.rs:635-812 | Over any run the first source bound stays, and a projection id is never shared, not even with a mount long gone |
| Daemon.UmountUndoesMount | crates/projgit-daemon/src/server.rs:747-771 | Unmounting restores the table but for the spent id |
| Daemon.BusyIffMounted | crates/projgit-daemon/src/server.rs:685-771 | After any run a mount point is taken exactly from a successful mount to its unmount |
| Daemon.MountSucceedsIff | crates/projgit-daemon/src/server.rs:635-745 | After any run from a fresh daemon, exactly when a mount succeeds; the mount point must not be taken by an earlier mount still standing |
| Daemon.MountRefusedWith | crates/projgit-daemon/src/server.rs:635-745 | Why a mount is refused, by its code |
| Daemon.AttachSucceedsIff | crates/projgit-daemon/src/server.rs:773-812 | After any run from a fresh daemon, when attaching succeeds and with which git directory |
| Daemon.BoundByTheFirst | crates/projgit-daemon/src/server.rs:635-812 | The bound source is that of the first request of a run that could bind one |
| Framing.Stream.WriteMessage | crates/projgit-daemon/src/protocol.rs:264-278 | The whole frame or, if the body is too long, nothing |
| Framing.Stream.ReadMessage | crates/projgit-daemon/src/protocol.rs:285-299 | Reads one message exactly as the frame format says |
| Framing.FrameReadsBack | crates/projgit-daemon/src/protocol.rs:264-299 | A frame is read back whole whatever follows it |
| Framing.FrameLayout | crates/projgit-daemon/src/protocol.rs:264-278 | Four bytes of length, the most significant first, then the body |
| Framing.CutFrameIsEof | crates/projgit-daemon/src/protocol.rs:285-307 | A frame cut short anywhere is an end of file, never a message |
| Framing.SequenceReadsBack | crates/projgit-daemon/src/protocol.rs:264-299 | Messages written back to back read back as the same sequence |

## Left out

- The GVFS and gix fetchers, and with them header-only probes from a real backend: network clients.
- Object decoding, reference lookup and index building in gix, SHA-1 and serde: abstract or constant here. Read errors other than absence and a wrong kind are not modelled.
- Processes, sockets, FUSE, clone and maintenance: their outcomes are parameters or free choices. A child takes one request at a time and answers in order, unless something breaks; what its pipes hold is counted in lines, not bytes.
- GitCli.GitCliFetcher.QueryBatch: stands for a round trip through the pool as a free choice; that lines come one per OID and in order is proved in `BatchPool`.
- GitCli.GitCliFetcher.Join: stands for waiting for the leader of a fetch: it makes the leader's tries a free choice, as the pool's answers are; how the result is shared is proved in `Coalesce` and `OnDemandFetch`.
- OnDemandFetch.StepKeepsInv: any thread may take a pool slot at any time, as one step with its presence check, which allows every interleaving of the real pool and more; slot contention itself is the subject of `BatchPool`.
- The methods of `ProjectionFs` are each one step on the attribute table and the allocator; the store may grow inside them.
- The texts of I/O and parse errors that quote the offending line.
- The A1+ index bytes and the object-directory path of the `.git` overlay beyond its text.
- DotGit.OverlayEntries.ApplyA2RefVisibility: where the source panics the method reports failure, and the overlay is then unspecified.
- Modification times, owners and errno values of attributes; names that are not valid UTF-8; synthetic contents are text of one character a byte.
- Mutex poisoning, panics, logging, tracing, environment variables, command lines, PID and socket files, the Windows stub.
- `Status`, `Shutdown` and `Ping` requests, which only report or set a flag; the single-object `fetch_object` of the sidecar, which maps one reply.
- In `Daemon` the opening of a source and the mount itself are inputs of a request; URL canonicalisation and cache directory names are not modelled.
