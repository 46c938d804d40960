# Research Hypervisor: models and proofs

Dafny models of the parts of the Research Hypervisor whose correctness rests on state kept across
many calls or many processors, and proofs of what they keep:

- **Read-copy-update** (`Rcu`, `RcuItems`, `RcuRuns`, `RcuTwo`, `RcuScenes`, `RcuLimits`,
  `RcuProgress`, `RcuRounds`): the generation protocol as a state machine in which every read of a
  shared mask, every compare-and-swap, every locked section and every collector call of every CPU is
  a step of its own; what it never does, and what it gets done.
- **Shadow page-table cache** (`Pte`, `PgCache`, `Reclaim`, `ShadowWalk`, `ShadowCache`): frames,
  free lists, hash, back links, reclamation and prefetch, and the agreement of the shadow walk with
  the guest's.
- **Resource tree and logical memory** (`Resource`, `Ranges`, `LogicalMap`, `Memory`, `Delivery`):
  grant, accept, rescind, partition death and translation over all partitions.
- **Slot scheduler** (`Words`, `Sched`): slot masks, rotation, admission and cyclic selection.
- **Bitmaps and pages** (`Arith`, `Bitmap`, `Misses`, `PgAlloc`): word-at-a-time search and update against
  bit-at-a-time specifications, and the page allocator above them.
- **Smaller pieces**: the reader/writer lock word (`RwLock`), the terminal ring buffer (`Vterm`) and
  the device-tree property store (`DevTree`, `PropertyStore`).

`Lists` holds what several of them share. Code that updates state in place is a class whose methods
are proved against functions or relations on snapshots of the state; the properties are proved of
those. `dafny verify dfyconfig.toml` checks everything.

## Where the code falls short of what it promises

Where a promise does not always hold, the members named give the exact condition under which it
does. Where a comment and the code differ, the model follows the code.

- `do_cleanup` is not cleared when the compare-and-swap of `rcu_check` fails (`hype/rcu.c:85-95`),
  and a pausing CPU can complete the mask from outside that loop (`hype/rcu.c:132`). Two CPUs can
  then clean at once, items can be collected out of order, and a collector can run before its grace
  period. A single cleaner and collection in order hold of all runs if and only if there is at most
  one CPU or nobody pauses (`RcuLimits.ExclusionExactly`, `RcuLimits.OrderExactly`); the grace
  period if and only if there are at most two CPUs or nobody pauses (`RcuLimits.GraceExactly`). All
  three hold of all runs with pauses if the loop's two reads and swap happen in one piece
  (`RcuLimits.WholePassesUndisturbed`). That slot gen_count+3 is empty and that no item is collected
  twice holds of every run (`RcuItems.SlotBehindEmpty`, `RcuItems.CollectedOnce`).
- `pgc_garbage_collect` says it cannot fail. It fails for a directory frame exactly when there is
  no flushed directory to take and the current directory is the victim
  (`ShadowCache.PageCache.GarbageCollect`, `PgCache.LruExactly`), which happens when all directories
  are taken within one tick on one hash chain and the first is current
  (`ShadowCache.CollectorFails`).
- `pgc_prefetch_pgdir` does not write the flags of a directory entry whose table stays: they end up
  the guest's exactly when the table is new or they were before (`ShadowCache.FlagsExactly`,
  `ShadowCache.StaleFlags`).
- The comment above `pgc_set_pte` gives translation precedence over I/O addresses; the code maps ISA
  addresses of an I/O partition untranslated even when they translate.
- `lbm_find_range` returns the first aligned run exactly when the alignment divides the word size
  and the base is a multiple of it (`Bitmap.FirstFitExactly`); otherwise a mismatch after a partial
  match can step over the answer, and nothing else can (`Misses.MissesExplained`). It reads past the map for some contents exactly when the alignment
  is more than a word and whole-word skips can land between the last aligned position and the last
  one with room for the run (`Bitmap.StraysExactly`); no chunk allocation does
  (`LogicalMap.ChunksStay`).
- `pgalloc_init` takes the whole pages below the end of its bitmap. A page that holds the rest of
  the bitmap is not handed out exactly when the bitmap ends on a page boundary or everything is
  taken, which pages of at most 4096 bytes ensure (`PgAlloc.BitmapShielded`).
- `range_subset` is fooled by a range that wraps (`Ranges.SubsetFooled`); `Ranges.SubsetExactly` says
  for which ranges it is wrong: one end wraps, the other does not, and the wrapped end comes out on
  the wrong side. A grant cannot reach that case, because the size is also read as a signed error
  code (`Memory.GrantFits`). A translation can, and lies inside the resource exactly when the
  request does not wrap (`Memory.TranslationInside`).
- The lock word's own tests tell readers from a writer exactly when there are fewer than 2^31
  threads (`RwLock.TruthfulExactly`); exclusion itself never depends on that (`RwLock.Exclusion`).
- A comment says `vtf_full` is only turned off by a read; an accepted write turns it off as well.
- A property with an empty name is stored but never found, and one whose grown value finds no room
  is lost (`DevTree.ReadsBackExactly`, `PropertyStore.Arena.SetProp`).

## Model

| member | source | states |
|---|---|---|
| Rcu.StepKeeps | hype/rcu.c:36-161 | Every step of check, pause, defer and cleanup by any CPU keeps the protocol invariant (mask, slots, order and grace parts), as long as no CPU changes the mask under another that has found the round complete and not swapped yet |
| Rcu.RunKeeps | hype/rcu.c:36-161 | The same over runs of any length and any number of CPUs |
| Rcu.WatcherExcludesCleaners | hype/rcu.c:86-108 | While a CPU stands between finding the round complete and its swap, nobody is cleaning |
| Rcu.ClaimKeeps | hype/rcu.c:86-95 | The swap that claims a generation makes every item due in it one that all CPUs have passed |
| Rcu.TakeKeeps | hype/rcu.c:98-108 | Taking a list and counting up moves each slot's obligations down by one generation |
| Rcu.CollectKeeps | hype/rcu.c:110-116 | Running a collector extends the collected items by exactly the next one deferred |
| Rcu.PauseEnterKeeps | hype/rcu.c:43-47 | Going inactive is a quiescent point and keeps what the inactive CPUs are owed |
| Rcu.DeferKeeps | hype/rcu.c:142-161 | Deferring two generations ahead, from outside rcu_check or from a collector, keeps order and the grace obligations |
| RcuItems.SlotBehindEmpty | hype/rcu.c:98-108 | In every run, disturbed or not, slot gen_count+3 is empty |
| RcuItems.ConservedRun | hype/rcu.c:98-161 | In every run the items deferred are, as a multiset, those in the slots, those in the hands of cleaners and those collected, no two of them deferred at the same moment |
| RcuItems.CollectedOnce | hype/rcu.c:98-161 | In every run an item is collected at most once, and only if it was deferred |
| RcuTwo.SafeStep | hype/rcu.c:36-161 | On two CPUs every step keeps this: while a CPU has not been quiescent since an item was deferred, the lists both can still take end before the item's generation |
| RcuTwo.TwoGraceful | hype/rcu.c:36-161 | On two CPUs the grace period holds of every collector of every run, with any pauses and any stale reads |
| RcuRuns.HistoryDefers | hype/rcu.c:142-161 | Every item in the history was put there by a defer step of the run, with the CPUs active at that step |
| RcuRuns.HistoryQuiet | hype/rcu.c:36-140 | Every CPU's recorded quiescent moment is a marking, rejoining or pausing step of that CPU in the run |
| RcuRuns.ExclusionAndOrder | hype/rcu.c:86-127 | In every run slot gen_count+3 is empty; in undisturbed runs at most one CPU is between claim and last collector, and the collected items are a prefix of the deferred ones |
| RcuRuns.GracePeriod | hype/rcu.c:36-161 | In undisturbed runs, when a collector is about to run, every CPU active when its item was deferred has taken a quiescent step later in the run than the defer |
| RcuLimits.PauseFreeUndisturbed | hype/rcu.c:72-140 | Runs without rcu_pause are undisturbed, in the finest interleaving |
| RcuLimits.WholePassesUndisturbed | hype/rcu.c:86-95 | With pauses, runs in which the two mask reads and the swap are not interrupted are undisturbed and exclusive, collect in order and keep the grace period |
| RcuLimits.TwoCleaners | hype/rcu.c:85-132 | With any two CPUs, one pausing, there is a run in which both are cleaning |
| RcuLimits.ExclusionExactly | hype/rcu.c:72-140 | At most one cleaner in every state of every run, if and only if at most one CPU or no pauses |
| RcuLimits.GraceBroken | hype/rcu.c:72-161 | With four CPUs a collector can run while a CPU outside rcu_check has not been quiescent since the defer |
| RcuLimits.GraceBrokenByThree | hype/rcu.c:72-161 | With any three CPUs, one pausing, there is a run in which a collector precedes its grace period, the item being deferred outside rcu_check |
| RcuLimits.GraceExactly | hype/rcu.c:36-161 | The grace period holds of every collector of every run, if and only if at most two CPUs or no pauses |
| RcuLimits.OrderBroken | hype/rcu.c:85-132 | With any two CPUs, one pausing, there is a run in which an item is collected before one deferred earlier |
| RcuLimits.OrderExactly | hype/rcu.c:72-161 | Items are collected in the order of their deferral in every run, if and only if at most one CPU or no pauses |
| RcuLimits.OneAheadBreaksGrace | hype/rcu.c:152 | Looking only one generation ahead breaks the grace period on two CPUs without any pause |
| RcuProgress.KeepsCleaning | hype/rcu.c:81-137 | In every run a CPU leaves rcu_check only after taking four lists or when the last time it looked someone was missing from the mask |
| RcuProgress.GoesOnExactly | hype/rcu.c:118-126 | After its collectors it goes round again exactly when it has taken fewer than four lists and everyone else is in the mask |
| RcuProgress.FourAtMost | hype/rcu.c:118-126 | Unless paused it takes at most four lists in one call |
| RcuProgress.SingleCpuCleans | hype/rcu.c:119-126 | On a single CPU, pausing or not, every call goes through four generations and collects all that was deferred before it |
| RcuProgress.ChecksAgainExactly | hype/rcu.c:129-138 | A paused CPU that put its bit back goes round once more exactly when that completed the round and its claim had left others to wait for |
| RcuRounds.RoundMoves | hype/rcu.c:81-108 | In every run, once each CPU is counted in or has been through a whole rcu_check, the generation count has gone up or a list is claimed and about to be taken |
| RcuRounds.PausedCounted | hype/rcu.c:90-95 | A claim counts in exactly the CPUs found paused, the claimer apart |
| RcuRounds.RejoinCounts | hype/rcu.c:130-133 | A paused cleaner puts its own bit into the mask, where it stays until someone claims a list |
| RcuRounds.PauseWaits | hype/rcu.c:37-57 | rcu_pause returns only after a check of its own and with the generation count gone up |
| ShadowWalk.ShadowFaithful | hype/x86/pgcache.h:89-127 | The shadow entry is present exactly when the guest entry is and its page has a place; it then maps that place with the guest's flags, write permission withheld until the guest entry is dirty, and is the guest entry itself where the address is untranslated |
| ShadowWalk.MirrorUnique | hype/x86/pgcache.h:89-127 | These conditions leave one entry only |
| ShadowWalk.AgreesStill | hype/x86/pgcache.c:476-528 | Agreement of a directory entry with the guest survives work on the others, up to tables reclaimed |
| ShadowWalk.ShadowSound | hype/x86/pgcache.c:454-528 | Any leaf the hardware reaches through the shadow tables, by physical address, stands for the leaf the guest walk reaches: its place, its flags, its write permission once dirty |
| ShadowWalk.ShadowComplete | hype/x86/pgcache.c:454-528 | With nothing reclaimed, for any leaf of the guest walk whose page has a place the hardware reaches the entry that stands for it |
| ShadowWalk.WalksAgree | hype/x86/pgcache.c:454-528 | Entry-wise agreement makes the two walks agree for every address below the hypervisor |
| PgCache.FreeTabKeeps | hype/x86/pgcache.c:360-385 | Freeing a linked table keeps the frame-cache invariant |
| PgCache.RetireKeeps | hype/x86/pgcache.c:402-411 | Retiring a directory without tables keeps the invariant |
| PgCache.StripNext | hype/x86/pgcache.c:398-400 | Each round of the loop frees the table at one index and touches nothing of other directories |
| PgCache.StripEnds | hype/x86/pgcache.c:392-411 | After the loop no table of the directory is left anywhere and retiring it completes the free |
| PgCache.SetPdeKeeps | hype/x86/pgcache.h:89-127 | Writing an absent or large entry where no table is linked keeps the invariant and the other entries |
| PgCache.TakeTabKeeps | hype/x86/pgcache.c:332-344 | Taking a table frame leaves the invariant with exactly that frame loose |
| PgCache.TakeDirKeeps | hype/x86/pgcache.c:332-350 | Taking a directory frame keeps the invariant and puts the directory in the hash |
| PgCache.LinkKeeps | hype/x86/pgcache.h:61-68 | Linking a loose frame restores the invariant, links inverse to each other with the matching shadow entry |
| PgCache.FillTabKeeps | hype/x86/pgcache.c:456-466 | Filling a linked table keeps the invariant and every other entry |
| PgCache.ScanPlace | hype/x86/pgcache.c:267-269 | The scan goes from chain to chain and along each |
| PgCache.LruExactly | hype/x86/pgcache.c:267-277 | A directory is the victim exactly when every other one was used later, or at the same time and met earlier in the scan |
| PgCache.LruOldest | hype/x86/pgcache.c:266-287 | The victim is in use and used no later than any directory in use |
| PgCache.ReclaimMore | hype/x86/pgcache.c:247-287 | Freeing the flushed directory or the oldest one extends a reclamation that spares the current directory and frees in order of last use |
| Reclaim.TracksMore | hype/x86/pgcache.c:266-287 | Freeing the victim keeps the directories freed in the order of age and scan, and everything still in use as it was |
| Reclaim.FreesTables | hype/x86/pgcache.c:281-286 | With no table frame free, freeing a directory yields one exactly if it has a table |
| ShadowCache.CollectorFails | hype/x86/pgcache.c:258-298 | When every directory frame has been taken in one tick for guest directories of one hash chain, the first one taken is the victim: if it is current, reclamation gives no directory frame |
| ShadowCache.OlderIsTaken | hype/x86/pgcache.c:266-287 | A directory used strictly before the current one keeps the current one from being the victim |
| ShadowCache.PageCache.constructor | hype/x86/pgcache.c:42-101 | All frames free, counts equal to list lengths, nothing in use, invariant established |
| ShadowCache.PageCache.FreePgtab | hype/x86/pgcache.c:360-385 | The table is blank and free, its link and shadow entry cleared; invariant kept |
| ShadowCache.PageCache.Remove | hype/x86/pgcache.c:205-224 | The hash chain loses exactly the directory, in order |
| ShadowCache.PageCache.FreePgdir | hype/x86/pgcache.c:392-411 | Exactly that directory leaves use, its tables go to the free list, everything else is as it was |
| ShadowCache.PageCache.Lookup | hype/x86/pgcache.h:45-56 | A directory in use with that address, and none if and only if there is none |
| ShadowCache.PageCache.PickVictim | hype/x86/pgcache.c:267-280 | The least recently used directory, the last one met among equals |
| ShadowCache.PageCache.FreeOldest | hype/x86/pgcache.c:266-287 | Frees directories in the order of age and scan and stops in time: with the first one for a directory frame, with the first that has a table for a table frame; stops without a frame only at the current directory, which is then next; without a current directory it always finds one |
| ShadowCache.PageCache.GarbageCollect | hype/x86/pgcache.c:226-309 | Terminates; always frees a flushed directory other than the current one, and nothing else if that gives the frame; otherwise frees by age no more directories than needed; then, for a table, exactly the one the clock points at; never frees the current directory; yields a directory frame exactly when a flushed directory can be taken or the current one is not the victim; all else in use is as it was |
| ShadowCache.PageCache.Alloc | hype/x86/pgcache.c:311-353 | A blank frame mapping the guest page, entered in the hash if a directory; a bad address exactly when it does not translate; a halt exactly when reclamation fails; nothing changed unless a frame is returned; nothing in use touched while a frame is free |
| ShadowCache.PageCache.SetPgtab | hype/x86/pgcache.h:61-68 | Links a loose frame at an empty entry and keeps the invariant |
| ShadowCache.PageCache.SetDirPte | hype/x86/pgcache.h:89-127 | Writes the shadow of the entry there and nothing else; for an absent or large entry, which is what its callers pass, keeps the invariant |
| ShadowCache.PageCache.PrefetchPgtab | hype/x86/pgcache.c:453-466 | Every entry of the table is the shadow of the guest's, and the status is zero exactly when one was unacceptable |
| ShadowCache.PageCache.PrefetchPde | hype/x86/pgcache.c:484-525 | One directory entry agrees with the guest's, with its flags if the table is new and with those it had if the table is kept; the others and their tables are spared, and so are other directories while a needed frame is free |
| ShadowCache.FlagsExactly | hype/x86/pgcache.c:484-525 | With nothing stolen, an entry with a table has the guest's flags exactly when the table is new or the flags were the guest's before |
| ShadowCache.StaleFlags | hype/x86/pgcache.c:506-511 | A table linked under other flags is kept with them |
| ShadowCache.PageCache.PrefetchPgdir | hype/x86/pgcache.c:468-528 | Afterwards the shadow walk maps only what the guest's does, and all of it unless a table was stolen, which needs fewer free frames than the guest has tables; an entry with a new table has the guest's flags, one whose table is kept those it had; hypervisor entries untouched; other directories untouched while frames last; status zero exactly when some table address is bad |
| ShadowCache.PageCache.HypervisorMapping | hype/x86/pgcache.c:130-141 | Exactly the entries above the partition's come from the hypervisor; invariant kept |
| ShadowCache.PageCache.Flush | hype/x86/pgcache.c:430-451 | No guest entry of the directory is present, its tables are free, hypervisor entries and other directories untouched |
| Resource.ResourceTree.InsertResource | hype/resource.c:106-140 | Refused exactly when the parent is rescinded; otherwise a new, youngest resource at the end of its owner's list and linked to its parent |
| Resource.InsertKeepsOk | hype/resource.c:106-140 | Insertion keeps parent and child links inverse, parents older, lists in creation order |
| Resource.ResourceTree.StripChildren | hype/resource.c:272-312 | The child list is emptied, exactly the children not avoided and not marked are marked and queued |
| Resource.ResourceTree.CutStart | hype/resource.c:236-263 | Leaves an unmarked start of a well-formed tree with a walk begun: it alone is queued, marked and disabled, off its parent's child list, every other list and link as it was |
| Resource.WalkEnds | hype/resource.c:210-318 | When the queue is exhausted it holds exactly the start and its descendants, parents first |
| Resource.DescendantQueued | hype/resource.c:268-316 | Every descendant not cut off by the avoided owner is reached |
| Resource.QueueDescends | hype/resource.c:268-316 | Nothing but descendants is reached |
| Resource.ResourceTree.ForcedRescindMark | hype/resource.c:192-318 | Terminates; does nothing if the start is marked already; otherwise marks exactly the start and all descendants not cut off, empties their child lists, disables their mappings |
| Resource.RescindKeepsOk | hype/resource.c:192-318 | Marking keeps the tree invariant |
| Resource.NearestUnique | hype/resource.c:424-468 | A resource has at most one nearest ancestor of a given owner |
| Resource.NearestExists | hype/resource.c:424-468 | A descendant of a held resource has a nearest ancestor of that owner |
| Resource.MarkedIsDoomed | hype/resource.c:424-468 | What the walks that skip same-owner children mark together is exactly what is held and all its descendants |
| Resource.OrderStep | hype/resource.c:440-460 | Appending one walk keeps every original parent before its children in the todo list |
| Resource.ResourceTree.PartitionDeath | hype/resource.c:424-468 | The list ends empty; exactly what was held and its transitive descendants are newly marked, each once, original parents before children; the survivors keep their links |
| Resource.DeathKeepsOk | hype/resource.c:424-468 | Partition death keeps the tree invariant |
| Resource.ResourceTree.ForcedRescindCleanup | hype/resource.c:322-362 | Each node is destroyed once, in reverse order, returned first if it was mapped, and leaves its owner's list |
| Resource.ChildrenFirst | hype/resource.c:322-362 | In the reversed todo list every child comes before its original parent |
| Resource.ResourceTree.Rescind | hype/resource.c:378-408 | Mark then cleanup: exactly the descendants are marked, disabled, and destroyed once, children first |
| Resource.ResourceTree.Death | hype/resource.c:411-477 | Death then cleanup: everything doomed, and nothing else, is marked, disabled and destroyed once, children first, and leaves its owner's list; the partition's own list is empty |
| Ranges.SubsetExactly | include/lib.h:94-100 | On all words the test says subset exactly when it is one, unless one end wraps, the other does not, and the wrapped end comes out on the wrong side |
| Ranges.SubsetFooled | include/lib.h:94-100 | A wrapping range for which the test is wrong |
| Ranges.ConflictIsOverlap | include/lib.h:108-119 | For non-empty ranges that do not wrap the conflict test is overlap |
| LogicalMap.LogicalMemoryMap.constructor | hype/pmm.c:36-51 | Every chunk unused |
| LogicalMap.LogicalMemoryMap.FirstUnused | include/bitmap.h:72-88 | Whether the first n chunks are all unused |
| LogicalMap.ChunksExact | hype/pmm.c:186-189 | The number of chunks holds the bytes from the chunk offset on, and one fewer does not |
| LogicalMap.ChunksCover | hype/pmm.c:186-205 | The chunks of a range are exactly those its addresses lie in |
| LogicalMap.LowBitOdd | hype/pmm.c:193 | The alignment is the largest power of two that divides the number of chunks |
| LogicalMap.ChunksStay | hype/pmm.c:190-201 | The search for n chunks aligned to the low bit of n never reads past the map |
| LogicalMap.LogicalMemoryMap.SetLci | hype/pmm.c:175-216 | Takes only unused chunks, all it needs, for the resource and no other entry; the lowest fit where the search is exact; nothing changed on failure; usage bits track the map |
| LogicalMap.LogicalMemoryMap.FillEntries | hype/pmm.c:203-205 | Exactly the named entries hold the resource |
| LogicalMap.LogicalMemoryMap.DetachLci | hype/pmm.c:218-239 | Exactly the resource's entries are cleared, and their usage bits |
| Memory.TranslateExact | hype/logical.h:161-184 | A successful translation is the fixed offset, starts inside the resource, and lies inside it exactly when the request does not wrap |
| Memory.TranslationInside | hype/pmm.c:65-74 | It is through a live, enabled resource the partition owns |
| Memory.Injective | hype/pmm.c:65-74 | In a state that keeps the invariant two logical addresses of a partition never translate to one physical address |
| Memory.AddressSpacesInjective | hype/pmm.c:65-239 | The same in every state of every run of define, grant, accept, mark, death and cleanup |
| Memory.StepKeeps | hype/mem_resource.c:41-249 | Every hypervisor call keeps resources of a partition disjoint, maps and tree in step, ranges inside their source's, and every live resource under its live source |
| Memory.RunInv | hype/mem_resource.c:41-249 | Every reachable state keeps it |
| Memory.NewKeeps | hype/mem_resource.c:184-249 | Defining memory that conflicts with nothing keeps the invariant |
| Memory.GrantFits | hype/mem_resource.c:58-64 | The sign test on the returned size keeps a granted range from wrapping |
| Memory.GrantKeeps | hype/mem_resource.c:41-81 | A grant keeps the invariant, in particular its range inside the source's |
| Memory.AcceptKeeps | hype/mem_resource.c:83-96 | Accepting keeps it, logical and physical address equal modulo the chunk size |
| Memory.MarkKeeps | hype/mem_resource.c:161-168 | Marking a set that is closed under grants keeps it |
| Memory.CleanupKeeps | hype/mem_resource.c:129-182 | Returning and destroying a rescinded resource keeps it |
| Memory.GrantContained | hype/phys_mem.c:34-51 | In every such state a resource lies inside the range at the root of its grants |
| Memory.TranslationAligned | hype/pmm.c:177-216 | A translation agrees with its logical address modulo the chunk size |
| Memory.RescindedSilent | hype/mem_resource.c:161-168 | Nothing translates through a rescinded resource |
| Memory.MarkSourced | hype/resource.c:192-318 | Marking a set closed under grants leaves every live resource hanging off the one it was granted from, and that one live |
| Memory.LiveFromLive | hype/resource.c:192-468 | Whatever a live resource was granted from, by any chain of grants, is live |
| Memory.RevocationReachesAll | hype/mem_resource.c:161-168 | From the rescind of a resource on, in every later state of every run, nothing translates through anything granted from it by any chain of grants |
| Delivery.TranslatesExactly | hype/pmm.c:65-74 | A request that does not wrap translates exactly when it lies inside a live resource placed in the partition's map |
| Delivery.PlacedMemoryTranslates | hype/logical.h:161-184 | In every state of every run, any request inside a live placed resource goes to the same offset of its physical range |
| Delivery.DefineDelivers | hype/mem_resource.c:184-249 | In every run, offset k of defined memory is base + k, wherever it was placed |
| Delivery.GrantDelivers | hype/phys_mem.c:34-51 | In every run, offset k of a granted resource is the memory the granter found at the address it named plus k, wherever it was placed, as long as it lives; its size is the size granted |
| Delivery.AcceptDelivers | hype/mem_resource.c:83-96 | Accepting a resource for which there is room places it there and makes all of it translate |
| Delivery.PlaceKept | hype/pmm.c:175-239 | Once placed, a resource keeps its place and its logical address as long as it lives |
| Delivery.DefineExactly | hype/mem_resource.c:184-249 | Memory can be defined exactly when it does not wrap and nothing of the partition is in the way |
| Delivery.AcceptExactly | hype/mem_resource.c:83-96 | An unmapped resource can be placed at a chunk exactly when it is large enough for chunks or reaches the end of its own, and every chunk it would touch is there and unused |
| Delivery.GrantExactly | hype/mem_resource.c:41-81 | A grant goes through exactly when its size is no error code, it lies inside what the granter has there, a live resource, and nothing of the grantee is in the way |
| Delivery.ConflictFree | hype/mem_resource.c:66-70 | The conflict check passes exactly when neither range begins inside the other, the last address counting as inside every range below it |
| Delivery.DestroyedGone | hype/mem_resource.c:129-182 | In every state of every run a destroyed resource has no entry in any map and no place on any list |
| Sched.RotateWordIsRotate | hype/sched.c:44 | The two shifts are the rotation, for every amount below the word size |
| Sched.MatchSlot | hype/sched.c:32-55 | The least rotation that avoids the fixed slots, none exactly when no rotation does |
| Sched.UsedFitIsLockedFit | hype/sched.c:99-127 | A mask that disturbs no slot in use takes no slot locked by others |
| Sched.LockedDisjoint | hype/sched.c:99-154 | A locked slot is required, held and owned by one partition only |
| Sched.AdmitOutcome | hype/sched.c:128-154 | The admitted CPU has its required slots and the desired ones not locked by others; other CPUs lose exactly what it took |
| Sched.AdmitKeeps | hype/sched.c:128-154 | Admission keeps owners, used, locked and current sets consistent |
| Sched.Scheduler.SetSlotOwners | hype/sched.c:57-94 | Owners and current sets change together for exactly the given slots |
| Sched.Scheduler.SetSchedParams | hype/sched.c:99-154 | Fails, changing nothing, exactly when every rotation hits a slot locked by others; otherwise uses the least rotation that disturbs no used slot if there is one, else the least that avoids locked ones |
| Sched.Scheduler.Scan | hype/sched.c:210-222 | The first slot after the current one whose owner is runnable, none exactly when there is none |
| Sched.Scheduler.NextOs | hype/sched.c:177-227 | A valid directed yield goes to its target and leaves the cursor; otherwise the next runnable owner in cyclic order, or the caller |
| Sched.TurnComesCloser | hype/sched.c:205-227 | Each undirected choice either is the slot or comes strictly nearer to it |
| Sched.BoundedWaiting | hype/sched.c:172-227 | A runnable slot owner is chosen within as many undirected calls as its slot is away, at most 64, whatever the others do and whatever directed yields come between |
| Bitmap.WordUpdated | lib/bitmap.c:72-98 | A masked word write changes exactly the named bits of the map |
| Bitmap.Lbm.constructor | lib/bitmap.c:46-70 | All bits set or all clear |
| Bitmap.Lbm.SetBits | lib/bitmap.c:72-98 | Exactly the named bits, clipped to the map, take the value |
| Bitmap.TestBits | lib/bitmap.c:140-153 | The shifted and masked comparison of a word says whether a run of bits is uniform |
| Bitmap.Lbm.FindRange | lib/bitmap.c:101-178 | The word-at-a-time loop computes the specified search and stays inside the map |
| Bitmap.RangeSearchIsFit | lib/bitmap.c:101-178 | Whatever is found is an aligned run of the value inside the map, for any alignment |
| Bitmap.RangeSearchIsFirstFit | lib/bitmap.c:101-178 | With a word-compatible alignment it is the lowest such run, and an error exactly when there is none |
| Bitmap.StaysInMap | lib/bitmap.c:101-178 | Unless the alignment is more than a word and a whole-word skip can land between the last aligned position and the last with room, the search never reads past the map |
| Bitmap.StraysExactly | lib/bitmap.c:101-178 | And in just those cases some map of that size makes it do so |
| Misses.MissesExplained | lib/bitmap.c:101-178 | For every alignment, base and map, whatever is found is a fit, and every lower fit, or any fit if none is found, lies right behind a run that matched up to a word boundary and failed there |
| Misses.ShortRunsFirstFit | lib/bitmap.c:101-178 | A request that crosses no word boundary from any aligned position is found first fit |
| Bitmap.GapMissed | lib/bitmap.c:101-178 | For every other alignment there is a map on which the search is wrong |
| Bitmap.FirstFitExactly | lib/bitmap.c:101-178 | First fit on all maps if and only if the alignment divides the word and the base is a multiple of it |
| PgAlloc.PageAllocator.constructor | lib/pgalloc.c:35-77 | Manages the whole pages from the first boundary in the range on; exactly those below the end of the bitmap, computed from its address and size, are taken |
| PgAlloc.BitmapShielded | lib/pgalloc.c:58-68 | No page holding part of the bitmap is free exactly when the bitmap ends on a page boundary or all pages are taken; pages that divide 4096 bytes ensure it; the bitmap has a bit for every page and its header and bits lie below that end |
| PgAlloc.PagesExact | lib/pgalloc.c:79-87 | The pages of a block hold its bytes, and one fewer does not |
| PgAlloc.PageAllocator.SetPageBits | lib/pgalloc.c:79-87 | Exactly the pages of the block change state |
| PgAlloc.TakeKeeps | lib/pgalloc.c:106-126 | A block found free overlaps no live block and joining it keeps the blocks disjoint and the free bits exact |
| PgAlloc.ReturnKeeps | lib/pgalloc.c:97-104 | Freeing a block with its size keeps both |
| PgAlloc.PagesConserved | lib/pgalloc.c:79-132 | Free pages plus live pages is the number of pages managed |
| PgAlloc.PageAllocator.GetPagesAligned | lib/pgalloc.c:106-126 | An aligned block disjoint from every live one, or nothing changed, and then there is no fit where the search is exact |
| PgAlloc.PageAllocator.GetPages | lib/pgalloc.c:128-132 | A block disjoint from every live one, or nothing exactly when no run is free |
| PgAlloc.PageAllocator.FreePages | lib/pgalloc.c:97-104 | Exactly that block leaves the live ones |
| RwLock.StepKeeps | include/atomic.h:105-171 | Every load, swap and store of any thread, with stale values, keeps the word equal to the reader count, or to the writer bit with one writer alone |
| RwLock.RunKeeps | include/atomic.h:105-171 | The same over every run of any number of threads |
| RwLock.Exclusion | include/atomic.h:127-171 | A writer excludes every reader and every other writer, in every state of every run |
| RwLock.WriteExactly | include/atomic.h:140-149 | In every run the writer's swap succeeds exactly when nobody holds the lock |
| RwLock.ReadExactly | include/atomic.h:127-139 | In every run a reader's swap succeeds exactly when nobody writes and there are as many readers as it found |
| RwLock.LeaveExactly | include/atomic.h:158-171 | In every run a reader's release goes through exactly when the count is what it read, and takes one reader off |
| RwLock.WriterGetsIn | include/atomic.h:140-149 | From every reachable state with the lock free any idle thread can write-lock it |
| RwLock.ReaderGetsIn | include/atomic.h:127-139 | From every reachable state with nobody writing and room in the count any idle thread can read-lock it |
| RwLock.CrowdRuns | include/atomic.h:127-139 | A run in which k threads read at once, up to 2^31 |
| RwLock.TruthfulExactly | include/atomic.h:113-125 | The tests of the word tell readers from a writer in every run if and only if there are fewer than 2^31 threads |
| Vterm.Push | hype/vterm.c:95-99 | Storing at the write cursor appends across the wrap while a slot stays free |
| Vterm.Pop | hype/vterm.c:130-134 | Loading at the read cursor takes the first byte across the wrap |
| Vterm.Fifo.constructor | hype/vterm.c:147-175 | Empty, nothing accepted |
| Vterm.Fifo.Write | hype/vterm.c:72-108 | All bytes appended exactly when they leave one slot free and the buffer is not being reaped, none otherwise |
| Vterm.Fifo.Read | hype/vterm.c:110-145 | The oldest bytes, at most sixteen; what was delivered and what is queued is always what was accepted; cursors reset when empty |
| DevTree.CellsExact | lib/of_devtree.c:502-564 | The cells of a record hold header, value and name, and one fewer does not |
| DevTree.RewriteKeeps | lib/of_devtree.c:736-748 | Rewriting inside a record keeps records apart, lists linked, names terminated and distinct |
| DevTree.RewriteValue | lib/of_devtree.c:736-748 | Only the rewritten property's value changes |
| DevTree.UnlinkKeeps | lib/of_devtree.c:566-589 | Unlinking keeps the store well formed |
| DevTree.UnlinkValue | lib/of_devtree.c:566-589 | Exactly the unlinked property is gone |
| DevTree.ExtendKeeps | lib/of_devtree.c:502-564 | Appending a record keeps the store well formed |
| DevTree.ExtendValue | lib/of_devtree.c:502-564 | Only the new property's value changes, and not even that for an empty name |
| DevTree.ReadsBackExactly | lib/of_devtree.c:591-617 | A created property reads back if and only if its name is not empty |
| DevTree.NodeValue | lib/of_devtree.c:273-302 | A new node has no properties and leaves the others' alone |
| PropertyStore.Arena.constructor | lib/of_devtree.c:150-180 | A zeroed arena with a root node and no properties |
| PropertyStore.Arena.NewNode | lib/of_devtree.c:273-302 | Fails, changing nothing, exactly when the arena is full; no property of any node changes |
| PropertyStore.Arena.Find | lib/of_devtree.c:591-617 | The first record of the node with that name, none for an empty name |
| PropertyStore.Arena.Create | lib/of_devtree.c:502-564 | Fails, changing nothing, exactly when the arena is full; otherwise one record appended at the top, only its cells written |
| PropertyStore.Arena.Remove | lib/of_devtree.c:566-589 | Exactly that record leaves the node's list |
| PropertyStore.Arena.Reuse | lib/of_devtree.c:736-748 | The value is rewritten in place and the name moved behind it, nothing outside the record written |
| PropertyStore.Arena.Replace | lib/of_devtree.c:749-754 | The grown value replaces the old one, or the property is lost, exactly when the arena is full |
| PropertyStore.Arena.SetProp | lib/of_devtree.c:758-777 | Succeeds exactly when the value fits its record or the arena has room; then the property reads back as written unless its name is empty; every other value of every node is preserved in all cases; the arena grows by the cells of the new record, and not at all when the value goes in place |
| PropertyStore.Arena.GetProp | lib/of_devtree.c:689-708 | The length of the value and as much of it as asked for, failure exactly when there is none |

## Left out

- Memory ordering of the real processors: interleavings are sequentially consistent.
- A grace period for rcu_pause itself: it waits for one change of the generation count only.
- The retry of the compare-and-swap at hype/rcu.c:132 is one atomic step; gen_count does not wrap.
- Sched.MatchSlot: the shift at hype/sched.c:86 is read as 64 bits wide and a rotation by 0 as the identity.
- Sched.Scheduler.NextOs: one physical CPU; saving and restoring thread state is not modelled.
- Bitmap.Lbm.FindRange: a request longer than the map, and the sizes, alignments and bases for which some map leads past the last word (Bitmap.StraysExactly), are excluded; the source reads outside the array there.
- PgAlloc.PageAllocator.GetPagesAligned: excludes the same requests.
- PgAlloc.PageAllocator.GetPages: excludes requests longer than the map.
- PgAlloc.PageAllocator.FreePages: the block must be live and freed with its own size; set_pages_used is not modelled.
- PgAlloc.PageAllocator.constructor: the range does not wrap and reaches its first page boundary.
- lbm_acquire, lbm_release and lib/objalloc.c.
- LogicalMap.LogicalMemoryMap.SetLci: hint 0 only, because test_bits is right only from bit 0.
- LogicalMap.LogicalMemoryMap.DetachLci: a resource's chunks are contiguous, as SetLci leaves them.
- Memory.StepKeeps: hypervisor calls are atomic, a resource is accepted at most once, defined regions do not wrap, and addresses past the map are unmapped (the source indexes without a check).
- The page-share manager, MMIO and interrupt resources, and the fields mem_accept leaves unset when set_lci fails.
- Circular list pointers (include/dlist.h) are sequences; detaching an element already off its list does nothing.
- ShadowCache.PageCache.PrefetchPgdir: guest tables and translation do not change during the call, and translation takes pages to pages, as Memory.TranslationAligned shows for chunk-mapped memory.
- ShadowCache.PageCache.Alloc: fields of frames never used are taken as null.
- The fault handler and TLB-flush callers of the page cache, pgc_destroy, pgc_initial_mapping and dumping.
- PropertyStore.Arena.NewNode: the tree of nodes, paths and searches by path or property are not kept; record headers are fields beside the byte arena rather than bytes in it.
- Terminal channels above the ring buffer, device and console drivers, boot code, hypervisor-call wrappers, CRQ, TCE and virtual LAN layers.
