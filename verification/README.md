# SplinterDB: a verified model of its core

SplinterDB is a key-value store built from a B-tree memtable, packed B-tree branches, routing filters, a clock cache
and reference-counted disk extents. This project models those parts in Dafny and proves what the rest of the store
relies on:

- **B-tree.** A leaf is a page of bytes updated in place; insertion, defragmenting and splitting keep its tuples. Over
  any run of insertions the memtable tree acts on values as the inserted messages do, oldest first. Branches packed from
  a sorted stream answer range counts exactly.
- **Routing filter.** Bit-packed fingerprints, a radix sort and a unary bucket header, from which, after any history of
  additions, a lookup answers exactly the values added with the fingerprint.
- **Clock cache.** A state machine over its atomic operations for any number of agents and threads, with the batches
  that threads have to themselves: lock exclusion, coherence, and the assertions of the code, in every run.
- **Merge iterator.** Reading it to the end gives the fold of every key's copies; compaction changes no lookup.
- **Locks, memtables, tasks.** The distributed batch lock, memtable rotation, task queues and the quiescence test, over
  every interleaving of any number of threads, with what each call comes to when it is left alone.
- **Space.** The extent allocator, the mini allocator under any interleaving of its callers, and references on key
  ranges; the reclamation queue with its handles.

Code that changes a page, an array or an object is written as classes and methods over arrays; protocols are state
machines with one atomic operation per step. Every file holds one module of the same name. `dafny verify dfyconfig.toml`
checks the project.

## Model

| member | source | states |
|---|---|---|
| Leaf.LeafNode.SetLeafEntry | src/btree.c:317-393 | Succeeds exactly when the tuple fits in place or in the free gap; then tuple k alone is replaced (or appended), although the bytes of the page move; on failure not a byte changes. |
| Leaf.LeafNode.InsertLeafEntry | src/btree.c:395-414 | Succeeds exactly when there is room for one more entry; the tuples are then the old ones with the new one between k - 1 and k. |
| Leaf.LeafNode.DefragmentLeaf | src/btree.c:692-717 | Rebuilds the page without gaps, keeps every tuple except the one the pending insertion replaces, and records its removal in the spec. |
| Leaf.LeafNode.TruncateLeaf | src/btree.c:719-733 | Leaves exactly the first `target` tuples, and the free gap then ends at the lowest of their entries, or at the end of the page when there is none. |
| Leaf.LeafNode.TryPerform | src/btree.c:641-690 | Succeeds exactly when the room test says so and then the tuples are those of the incorporation, one generation later; otherwise the page is as it was. |
| LeafSpace.LiveFits | src/btree.c:692-717 | In every well-laid-out page the live entries and their table slots take no more room than the page has, however much of it is garbage; this is why a page copied entry by entry always takes them back. |
| LeafSpace.SplitFits | src/btree.c:801-861 | Both halves at the point where the plan balances the bytes fit in an empty leaf, for every list of tuples that overflows a leaf by one bounded tuple. |
| LeafSpace.SplitProper | src/btree.c:801-861 | With two or more resulting entries neither half is empty. |
| LeafSplit.BuildLeafSplittingPlan | src/btree.c:801-861 | The three phases of the plan (before, at and after the pending entry) amount to one greedy scan of the tuples that will result. |
| LeafSplit.SetTaken | src/btree.c:317-344 | An entry can be set if and only if it is no longer than the one it replaces, or fits, with a slot for it, in the gap between the table and the lowest entry. |
| LeafSplit.PerformTaken | src/btree.c:618-690 | An insertion can be made in place if and only if it replaces an entry at least as long, or its entry fits in the gap that the table of the resulting leaf leaves. |
| LeafSplit.PackedTakes | src/btree.c:1437-1501 | A leaf without gaps takes one more tuple if and only if the sum of its bytes and slots still fits the page, which is what the byte count before a defragment decides. |
| LeafSplit.SplitChildLeaf | src/btree.c:1329-1426 | The two leaves in order hold exactly the old tuples with the new one incorporated, neither is empty, the pivot has the rank of the first right tuple, and the sibling addresses are linked. |
| LeafInsert.CreateSpec | src/btree.c:575-608 | Carrying out the spec stores for the key a message that does to every value what the old message, if any, and then the new one do, under every lawful interpretation of messages; every other key keeps its message. |
| LeafInsert.FindTuple | src/btree.c:508-549 | The probe of the page bytes gives the last tuple not above the target, and `found` exactly when it has the target's key. |
| LeafInsert.DefragmentOrSplitChildLeaf | src/btree.c:1437-1501 | A leaf whose tuples need less than half a page is defragmented, and one whose tuples need that much, but for one index entry, is split; either way the insertion succeeds, and one leaf, or two linked ones, hold exactly the incorporated tuples. |
| KeySearch.FindKey | src/btree.c:464-506 | The binary search gives the last key not above the target, -1 when there is none, and `found` exactly when it equals the target. |
| BTreeLeafPages.InsertIntoPage | src/btree.c:1967-2040 | Joins the page bytes to the tree: with the page showing the tree's leaf, defragmenting or splitting the bytes leaves the page (and the new one) showing the leaves of a valid tree, in which the key's message does what the old one and then the new one do. |
| BTreeInsert.ChooseIndexSplit | src/btree.c:953-977 | An index node worth splitting has a proper split point, the first at which the left pivots reach half the bytes. |
| BTreeSplit.TreeSplit | src/btree.c:1504-1580 | Splitting any node and adding the pivot to its parent keeps the levels a tree, with its ordering and sibling links, and leaves the contents the same. |
| BTreeSplit.TreeGrow | src/btree.c:1689-1727 | Moving the root to a child page below a one-pivot index keeps the tree a tree with the same contents at the same root address. |
| BTreeInsert.MemtableTree.Insert | src/btree.c:1733-2040 | One insertion, with every split and root growth on its way, rejects exactly the oversized or invalid tuples; otherwise the message stored for the key does to every value what the old one and then the new one do, no other key changes, and it says rightly whether the key was new. |
| BTreeInsert.MemtableTree.Lookup | src/btree.c:2126-2147 | The descent and leaf search find the message stored for the key anywhere in the tree, or that there is none. |
| BTreeInsert.RunInsertions | src/btree.c:1733-2147 | After any run of insertions into a new tree the message found for every key does to every value what the accepted messages for that key do one after the other, oldest first. |
| BTreeInsert.WalkLeaves | src/btree.c:1329-1426 | Following the sibling addresses from the leftmost leaf meets every stored tuple once, in order. |
| BTreeRank.AccumulateNodeRanks | src/btree.c:1652-1675 | Adding the 32-bit counters of the first c pivots gives the number of exactly the tuples below those children, the length of their keys and the length of their message data. |
| BTreeRank.GetRank | src/btree.c:3294-3315 | The descent returns the number of exactly the tuples with keys below the target, the length of their keys laid end to end, and that of their message data. |
| BTreeRank.CountInRange | src/btree.c:3318-3339 | The difference of two ranks, zero when it would be negative, is the number of exactly the tuples with minKey <= key < maxKey, the length of their keys, and that of their message data. |
| PackedTree.TotalMeasures | src/btree.c:3140-3181 | For every list of tuples the three counters kept of it are its length, the length of its keys laid end to end, and that of its message data. |
| BTreePack.Pack | src/btree.c:3056-3289 | The packed tree is well formed at every height, every counter in it measures the tuples below, it holds exactly the input in order, every tuple and pivot had room in its node behind those before it, no leaf had room for the first tuple of the next, and the leaves are chained across extents; the limit and invalid-tuple outcomes are given exactly. |
| BTreePack.PackThenCount | src/btree.c:3140-3339 | Packing a sorted stream and then counting a range gives the number of input tuples in the range, the length of their keys, and that of their message data. |
| PackedArray.Get | src/PackedArray.c:504-537 | Reads the item at its bit offset, also when it spans two words. |
| PackedArray.Set | src/PackedArray.c:469-502 | Every bit of the item becomes the value's and every other bit of the array stays. |
| PackedArray.Pack | src/PackedArray.c:204-251 | After the unrolled loop, entered at any phase, each bit of the array is the packed item's bit inside the range and the old bit outside it. |
| PackedArray.PackedItem | src/PackedArray.c:204-251 | Round trip: whatever was packed at a position is the item read there. |
| PackedArray.OtherItem | src/PackedArray.c:204-251 | Items at positions outside the packed range read as before. |
| PackedArray.Unpack | src/PackedArray.c:255-298 | The unrolled unpacking writes exactly the items at the positions asked for, and nothing behind them. |
| RadixSorting.RadixSort | src/routing_filter.c:51-121 | The returned buffer is sorted and a permutation of the input, for every fingerprint and value width up to 32 bits, odd and even numbers of passes. |
| RadixSorting.PassSorts | src/routing_filter.c:51-121 | A counting pass is stable: it extends the sorted part of the key by one byte. |
| UnaryHeader.GetBucketBounds | src/routing_filter.c:220-268 | The word-by-word search for the ones of the header finds where the fingerprints of a bucket start and end. |
| UnaryHeader.GetBucketCounts | src/routing_filter.c:271-294 | For every bucket of an index the count is the number of fingerprints in it. |
| UnaryHeader.HeaderBounds | src/routing_filter.c:541-577 | In the header the writer builds, the bounds of bucket j enclose fingerprint k if and only if it is in bucket j. |
| RoutingFilter.Lookup | src/routing_filter.c:824-902 | Bit v of the answer is set if and only if the filter stores the key's fingerprint with value v. |
| FilterRuns.ValueFits | src/routing_filter.c:370-370 | The value width is the least number of bits into which the value fits. |
| FilterRuns.BucketLoad | src/routing_filter.c:362-365 | A filter has fewer than two fingerprints for each bucket and, above the least number of buckets, at least one. |
| FilterRuns.Add | src/routing_filter.c:326-637 | The new filter stores exactly what the old one stored, at its old value width, together with the new fingerprints under the new value. |
| FilterRuns.RunThenLookup | src/routing_filter.c:326-902 | After any legal history of additions a lookup answers value v if and only if some addition gave a key of that fingerprint with v: no false negatives, and no positives but fingerprint collisions. |
| ClockCacheSafety.NextKeeps | src/clockcache.c:940-2255 | Every step of every agent, of a lock, an eviction, a load, an allocation, a write-back or the clock hand, keeps the cache's invariant and the batches apart. |
| ClockCacheBatches.OwnedAlone | src/clockcache.c:1564-1645 | An entry that a thread has taken and not yet made a page of, or is giving back, is being neither evicted nor picked for cleaning: the thread has its batch, and does one thing at a time. |
| ClockCacheSafety.BatchesApart | src/clockcache.c:1564-1645 | In every run batch_busy is set for exactly the batches that some thread has, no batch has two, and a thread evicts, cleans and takes entries only in its own; so the assertions on giving a batch up hold. |
| ClockCacheSafety.LockExclusion | src/clockcache.c:960-1184 | In every run of any number of agents no two claim one entry, and no agent holds an entry that another holds for writing. |
| ClockCacheSafety.CacheCoherence | src/clockcache.c:1222-1524 | In every run the mapped entry of a page given out, or the disk when it is unmapped, loading or clean, has the last content written under a write lock, and every holder of the page sees it. |
| ClockCacheSafety.AssertionsHold | src/clockcache.c:1100-1640 | In every run the debug assertions on a free entry just taken, on flags set and cleared by the locks, the evictions and the write-backs, and on the address a cleaner read before its compare-and-swap hold. |
| ClockCacheAlone.HitGets | src/clockcache.c:960-997 | In every reachable state, a get of a cached page that nobody is writing or loading ends, if its agent goes on alone, with a read lock on the entry. |
| ClockCacheAlone.ClaimGranted | src/clockcache.c:1041-1064 | A reader of an entry that nobody has claimed can claim it, accessed or not. |
| ClockCacheAlone.LockGranted | src/clockcache.c:1077-1137 | A claim becomes a write lock when nobody else is counted on the entry and no write-back runs. |
| ClockCacheAlone.LoadReads | src/clockcache.c:2095-2255 | A load of an unmapped page, with a free entry in the thread's batch, ends with a read lock on that entry, mapped, and holding what the disk holds. |
| ClockCacheAlone.LoadGivesUp | src/clockcache.c:2213-2225 | A load that finds its page mapped by another gives its entry back free and unreferenced, and looks again. |
| ClockCacheAlone.AllocWrites | src/clockcache.c:1948-1970 | An allocation ends with a write lock on a new entry for the page, which is then given out. |
| ClockCacheAlone.WriteAndRelease | src/clockcache.c:2513-2645 | A writer's content is the page's when it has unlocked, unclaimed and released; the entry is dirty and free of locks. |
| ClockCacheAlone.HandEvicts | src/clockcache.c:1425-1560 | When the hand comes to an entry that is evictable and unreferenced, the entry is freed, its address cleared and its page unmapped; no other entry changes, and the hand goes on. |
| ClockCacheAlone.HandSpares | src/clockcache.c:1425-1452 | When it comes to an entry accessed since, it clears the accessed bit, changes nothing else, and goes on. |
| ClockCacheAlone.HandCleans | src/clockcache.c:1222-1420 | A dirty unclaimed page of the batch being cleaned has its content put on the disk and is marked clean. |
| ClockCacheAlone.HandMoves | src/clockcache.c:1564-1595 | A thread that moves its hand on gives its batch up and, if nobody has the next one, comes to evict that from its first entry on. |
| MergeOrder.BsearchInsert | src/merge.c:89-123 | Gives the place of a child iterator among the sorted others, by key and then by age, and says rightly whether each neighbour has an equal key. |
| MergeIterators.MergeIterator.AdvanceAndResortMinRitor | src/merge.c:167-247 | Takes the head off the first child and nothing off any other, and restores the order and the equal-key bits. |
| MergeIterators.MergeIterator.MergeResolveEqualKeys | src/merge.c:249-312 | The current tuple becomes the fold of all copies of the least key, newest to oldest, and what the children hold of other keys stays. |
| MergeIterators.MergeIterator.MergeFinalizeUpdatesAndDiscardDeletes | src/merge.c:325-357 | In a full merge, and only there, a message becomes its final form, and exactly the deletes are then left out and counted. |
| MergeIterators.MergeIterator.AdvanceOneLoop | src/merge.c:359-405 | Makes current what the copies of the least key come to, and asks for a retry exactly when that is nothing. |
| MergeIterators.MergeIterator.MergeAdvanceHelper | src/merge.c:695-716 | Moves on to the next key that is put out: no key between is passed over and the children only get shorter. |
| MergeRun.MergeAll | src/merge.c:520-716 | Reading the iterator to its end gives a sorted output that at every key holds exactly what the fold of all runs' copies comes to. |
| MergeCopies.MergeUnique | src/merge.c:520-716 | There is only one such output. |
| MergeCopies.MergeKeepsMeaning | src/data_internal.h:560-607 | For every value, applying the merged tuple gives what applying all the copies, oldest first, gives; a full merge puts out inserts only. |
| MergeCopies.MergeActs | src/merge.c:520-716 | A merge of sorted runs does to every older value what the runs do one after the other, the oldest run first. |
| MergeCopies.CompactionKeepsLookups | src/merge.c:520-716 | Putting the merge of adjacent runs in their place changes no lookup through all the runs. |
| BatchRwlock.WriterExcludes | src/platform_linux/platform.c:313-429 | In every run of any number of threads, while one has the write lock no other holds a read lock, a claim or the lock. |
| BatchRwlock.AssertionsHold | src/platform_linux/platform.c:313-429 | The assertions of the lock code on its byte counters, and on the claim before locking, never fail. |
| BatchRwlock.ReadsGranted | src/platform_linux/platform.c:313-429 | A thread gets its read lock whenever nobody has the write lock, claimed or not. |
| BatchRwlock.ClaimsGranted | src/platform_linux/platform.c:313-429 | A reader gets the claim whenever nobody has it, and its own read count is gone. |
| BatchRwlock.LockGranted | src/platform_linux/platform.c:313-429 | With any number of threads, a claim becomes the write lock after one look at each counter once no reader is left. |
| MemtableSafety.FrozenWhileInserting | src/memtable.c:117-185 | In every run, while a thread inserts, the generation it was given stays current and its memtable stays ready. |
| MemtableSafety.RotationsNeverAbort | src/memtable.c:117-185 | No assertion on the rotation path of an inserting thread ever fails. |
| MemtableRotation.AnswersRight | src/memtable.c:117-185 | In every run a thread inserts only into a memtable that it found not full, answers busy only when it found the memtable full and the next one not ready, and rotates only when it found the memtable full and the next one ready. |
| MemtableRotation.RotatesAlone | src/memtable.c:117-185 | Run alone on a full memtable with the next one ready and room in the window, the call finalises exactly that memtable, makes the next generation current with all locks given back, and, when there is room in it, returns it. |
| MemtableRotation.RetriesAlone | src/memtable.c:117-185 | Run alone on a memtable that is not ready, the call backs off with nothing changed and tries again. |
| MemtableRotation.BusyAlone | src/memtable.c:117-185 | Run alone on a full memtable with the next one not ready, the call answers busy and changes nothing. |
| MemtableSafety.ForcedWindow | src/memtable.c:265-281 | The window assertion of a forced finalisation fails if and only if the next memtable is neither ready nor already passed by the retired generation. |
| MemtableForce.ForcedTransition | src/memtable.c:265-281 | The transition of a forced finalisation fails if and only if the retired generation has passed the current memtable's slot before it was made ready again. |
| MemtableForce.ForcedOnce | src/memtable.c:265-281 | Run alone on a ready memtable with room in the window, as on shutdown, a forced finalisation goes through: that memtable alone is finalised, and the lock is left free. |
| MemtableForce.ForcedTwice | src/memtable.c:265-281 | A run of one thread and two memtables in which the second forced finalisation fails the window assertion. |
| MemtableForce.ForcedOntoUnrecycled | src/memtable.c:265-281 | A run in which a forced finalisation passes the window assertion and the next one fails its transition. |
| RcAllocators.RcAllocator.Alloc | src/rc_allocator.c:694-738 | Fails exactly when no extent is free; otherwise takes the first free one from the hand on, with one reference, leaves the hand behind it, changes no other count, and keeps the high-water mark. |
| RcAllocators.RcAllocator.IncRef | src/rc_allocator.c:500-518 | Adds one reference to the extent and to no other. |
| RcAllocators.RcAllocator.DecRef | src/rc_allocator.c:520-551 | Takes one reference off the extent, which is free, and counted so, exactly when its count comes to zero. |
| KeyedExtents.StatesIntersect | src/mini_allocator.c:798-835 | On keys in order the table of boundary states is the test whether the interval meets the range. |
| KeyedExtents.HitsExactly | src/mini_allocator.c:839-985 | The single pass over the metadata picks an extent if and only if the interval from its key to the next key of its batch meets the range. |
| KeyedExtents.CutCounts | src/mini_allocator.c:839-985 | The parts of a range cut at a key meet each extent as often as the whole and the cut point together. |
| KeyedMinis.KeyedMini.ForEach | src/mini_allocator.c:839-985 | One reference more, or less, on exactly the extents that meet the range, and the answer is yes exactly when all of them came free. |
| KeyedMinis.KeyedMini.IncRef | src/mini_allocator.c:1078-1105 | Adds a range to the outstanding ones within a range already held, and touches no extent outside the allocator. |
| KeyedMinis.KeyedMini.DecRef | src/mini_allocator.c:1107-1160 | Ends one outstanding range and says cleanup if and only if none of its extents is met by another one; where some extent is met by every range, that is if and only if it was the last. |
| KeyedMinis.LastExactly | src/mini_allocator.c:1135-1160 | Cleanup comes only with the last range, whichever ranges are outstanding, if and only if some extent of the metadata is met by every range. |
| KeyedMinis.ReleaseEarly | src/mini_allocator.c:1135-1160 | On every metadata without such an extent, a run of the operations from a finished branch gives the metadata up while a range is outstanding. |
| PackedBranch.PackBranch | src/btree.c:3015-3289 | The calls of mini_alloc made while packing a sorted stream, and mini_release, leave metadata on which some extent, the one of the top height, is met by every range; so for every packed branch giving up a range asks for cleanup if and only if it is the last. |
| KeyedExtents.EndsSuffice | src/mini_allocator.c:839-985 | An extent is met by every range if and only if it is met at both ends of the key order. |
| KeyedMinis.KeyedMini.Cut | src/mini_allocator.c:1078-1105 | An outstanding range becomes its two parts by one more reference at the cut. |
| KeyedMinis.KeyedMini.FreeExactlyWhenUncovered | src/mini_allocator.c:1078-1160 | An extent of the allocator is free if and only if no outstanding range meets it. |
| MiniAllocators.MiniAllocator.Alloc | src/mini_allocator.c:579-610 | Run alone, it fails only when no extent is free; otherwise returns a page never returned before, out of an extent recorded in the metadata. |
| MiniAllocators.MiniAllocator.Release | src/mini_allocator.c:630-655 | Closes every batch and leaves metadata on which the full key range meets every extent, each with one reference, as the keyed references need. |
| MiniThreadsSafety.PagesDistinct | src/mini_allocator.c:449-610 | In every run of any number of threads all pages returned are distinct, each given out of an extent recorded in the metadata, and no extent is recorded twice. |
| MiniThreadsSafety.ExtentsConserved | src/mini_allocator.c:231-610 | In every such run each extent that is not free has exactly one holder among the metadata, the reserves, the threads under way and everybody else; a recorded one has no other and one reference. |
| MiniThreadsAlloc.FullAfterAll | src/rc_allocator.c:694-722 | In every run a thread finds the disk full only when, since it began its scan, the hand has moved on by the number of extents at least. |
| MiniThreadsAlloc.AllocAlone | src/rc_allocator.c:694-722 | A scan that nobody interferes with finds the disk full if and only if every extent was in use when it began; otherwise it takes the first free one from the hand on, with one reference. |
| MiniThreadsAlloc.PageAlone | src/mini_allocator.c:579-610 | Within an extent a call that nobody interferes with returns the batch's next page and unlocks the batch behind it. |
| MiniThreadsAlloc.ExtentAlone | src/mini_allocator.c:579-610 | At the end of an extent such a call finds the disk full if and only if no extent is free; otherwise it records the batch's reserve, returns its first page, reserves the extent found, and leaves the metadata unlocked. |
| MiniThreadsAlloc.OverflowAlone | src/mini_allocator.c:509-577 | An entry that does not fit the metadata tail is alone on a new tail, both pages are left unlocked, and the first page of its extent is returned; when the new tail begins an extent the call finds the disk full if and only if no extent is free, and else takes the first free one from the hand on. |
| TaskQuiescence.CountsExact | src/task.c:443-730 | In every run a group's queue has the length of its waiting count whenever its lock is free, and its executing count is the number of threads running its tasks. |
| TaskQuiescence.YesMeansQuiescent | src/task.c:761-793 | At the step at which the system is found quiescent no task is queued, being run or taken to be run, in any group. |
| TaskAlone.NoMeansBusy | src/task.c:761-793 | At the step at which the answer is no, some task is queued or counted as executing, so the answer is right either way. |
| TaskOrder.NoTaskLost | src/task.c:443-730 | In every run each task enqueued is, exactly once, in its group's queue, in the hands of one thread, or finished: none is lost and none is run twice. |
| TaskOrder.TakenInOrder | src/task.c:443-471 | In every run tasks put at the tail of a group are taken in the order in which they came, whatever is put at the head. |
| TaskOrder.TakesFirst | src/task.c:443-471 | The task a thread takes is the newest of those put at the head, if there is any, and otherwise the oldest of those put at the tail. |
| TaskAlone.Enqueues | src/task.c:624-676 | Run alone, enqueueing puts the task at the end asked for, counts it, and leaves the lock free. |
| TaskAlone.PerformsOne | src/task.c:683-724 | Run alone on a queue that is not empty, task_group_perform_one runs its first task and finishes it. |
| TaskAlone.Works | src/task.c:514-543 | Run alone, a worker of a group not stopped runs the first task, finishes it, and looks for the next with the lock held. |
| TaskQuiescence.StopsAgree | src/task.c:548-571 | A stop sees the list empty exactly when the count it asserts on is zero, and workers leave only a stopped group. |
| ReclamationQueue.Srq.Insert | src/srq.h:175-191 | Adds the entry under a handle nobody holds, keeping the heap and the two-way handle index. |
| ReclamationQueue.Srq.ExtractMax | src/srq.h:201-218 | Removes an entry of the largest priority and no other, or says that there is none. |
| ReclamationQueue.Srq.Delete | src/srq.h:220-237 | Removes and returns the entry of a handle, and no other, wherever it stands in the heap. |
| ReclamationQueue.Srq.Update | src/srq.h:239-250 | Changes the priority of a handle's entry and nothing else, and restores the heap in either direction. |
| ReclamationQueue.Srq.GetNewIndex | src/srq.h:160-173 | The hand finds a free handle whenever the heap is not full. |

## Findings

Assertions that fail, and an answer that is wrong, on some calls that the functions allow. The callers in the repository
make none of these.

| where | input | exact condition | theorems |
|---|---|---|---|
| Window assertion of memtable_force_finalize, src/memtable.c:274-275. Its only caller, shutdown (src/trunk.c:7797-7812), calls it once when nothing else runs, and makes no such run. | Two memtables, both forced to finalise before the first is incorporated. | Fails if and only if the next memtable is neither ready nor passed by the retired generation. Rotation by an inserting thread tests for this first and never fails. | MemtableSafety.ForcedWindow, RotationsNeverAbort; MemtableForce.ForcedTwice, ForcedOnce |
| Transition in memtable_force_finalize, src/memtable.c:272. The same caller makes no such run. | Two memtables; the first is finalised, incorporated and passed by the retired generation but not yet made ready; two more forced finalisations reach it again. | Fails if and only if the current memtable's slot is passed and not made ready again. | MemtableForce.ForcedTransition, ForcedOntoUnrecycled |
| Cleanup in mini_keyed_dec_ref, src/mini_allocator.c:1143-1158, called on metadata that no branch leaves. The comment at 1055-1061 states what callers guarantee, and PackBranch proves it of every packed branch. | References on two ranges that share no extent, in metadata where every batch has several extents: releasing one frees all the extents it meets, so the metadata is given up while the other range is outstanding. | Cannot happen, whichever ranges are outstanding, if and only if some extent is met by every range, as an extent alone in its batch is. | KeyedMinis.KeyedMini.DecRef, LastExactly, ReleaseEarly; KeyedExtents.EndsSuffice; PackedBranch.PackBranch |

The size test in btree_defragment_or_split_child_leaf (src/btree.c:1461-1463) adds its operands in an order the
conditional operator does not respect, so it counts one index entry where it means one for each tuple. This is
harmless: the test decides only between defragmenting and splitting, and LeafInsert.DefragmentOrSplitChildLeaf is proved
for the test as written.

## Left out

B-tree

- BTreeInsert.MemtableTree.Insert: is one call run alone, because the lock coupling between concurrent insertions is not modelled; the room in a page is left open at this level (any node may be found full), and InsertIntoPage joins it to the bytes of the leaf.
- BTreeLeafPages.InsertIntoPage: asks that the merged message keeps to the inline size, which the source asserts of the incoming message only.
- BTreeInsert.WalkLeaves: covers the sibling addresses only; the iterators over them, prefetching and asynchronous lookups are not modelled.
- BTreePack.Pack: leaves open which tuples and pivots fit a node and which pages share an extent; an empty page takes its first tuple and an index node takes two pivots. That a node is filled before the next is begun is stated of leaves only. BTREE_MAX_HEIGHT is met only by PackBranch, which gives no branch for a higher tree.
- PackedBranch.PackBranch: makes the calls of mini_alloc in the order in which packing recorded them, after it rather than during it.
- The bytes of index pages: pivots are values, with the byte counts that decide a split.
- The flags of an entry's key, which copy_tuple_to_ondisk_tuple never stores.
- Values are byte strings, and what messages do to them is any interpretation under which the user's merge callbacks act as one message after the other (Meaning.Lawful).
- User keys are compared through a rank in the reals, which represents every total order on byte strings.

Routing filter

- FilterRuns.RunThenLookup: holds for histories that keep to what callers keep to: values below 64 that never decrease, at least one bit for remainder and value together, and fingerprints and values of at most 32 bits; scratch buffers are as large as needed.
- The fingerprint is a function of the hash given; hashing a key, num_unique, the layout of blocks over filter pages, and the asynchronous lookup are not modelled. log_index_size is at least one.

Clock cache

- ClockCacheSafety.LockExclusion: leaves out clockcache_evict_all, a test facility that evicts without taking batches.
- ClockCacheSafety.CacheCoherence: covers pages from when they are given out; discarding an extent's pages and giving their addresses out again are not modelled.
- Writeback is of one entry at a time, without batching neighbours; prefetching, discarding whole extents, asynchronous reads and statistics are not modelled. What an operation comes to is stated for an agent left alone (ClockCacheAlone); spinning and fairness are not. Pins are an open choice of the agents, and so are when a thread moves its hand on, which free entry of its batch it takes, and when a write-back beside the page being cleaned begins.

Merge iterator

- MergeRun.MergeAll: covers the forward direction and the full and intermediate modes; the backward direction and the raw mode are not modelled. The library sort that orders the children at creation is a sort that meets its specification, and MAX_MERGE_ARITY is not modelled.

Locks, memtables and tasks

- MemtableSafety.RotationsNeverAbort: needs at least two memtables; with one, the window assertion fails on every rotation. What happens to a memtable after it is finalised, up to making it ready again, is left to steps of the environment, each status change and the recycling one step.
- Generations do not wrap around; is_empty, the sizes that decide when a memtable is full, and back-off times are not modelled.
- The stride and padding of the distributed lock's counters; they are counters of one byte, one for each thread.
- TaskQuiescence.CountsExact: has the linked list of a queue as a sequence; condition variables wake at any time, and statistics, thread registration and waiting for stopped threads are not modelled.

Space

- KeyedMinis.KeyedMini.ForEach: is one call run alone; its hand-over-hand locks on the metadata pages, and the calls blocked while a range is read, are not modelled. The metadata pages' own extents are not counted there.
- KeyedMinis.KeyedMini.IncRef: asks that the caller holds a range around the new one, that the metadata has not been given up, and that fewer than 253 ranges are outstanding, the width of a count.
- MiniAllocators.MiniAllocator.Alloc: is one call run alone, for the order of the keys it records and for when it fails; MiniThreadsSafety has every interleaving, without the order of the keys. The reserve extent it also returns is not modelled.
- MiniThreadsAlloc.ExtentAlone: covers an entry that fits the metadata tail, with nobody at the tail; OverflowAlone has one that does not fit, from its refusal on, and the interleaved runs cover the other cases.
- MiniThreadsSafety.PagesDistinct: whether an entry fits the metadata tail is an open choice, and all other users of the extent allocator are events that never touch an extent they do not hold.
- Extents are numbered rather than addressed, and the allocator's map on disk, its per-type statistics and its recovery are not modelled.
- ReclamationQueue.Srq.Insert: the queue's capacity is any number; its mutex and the 32-bit width of a priority are not modelled.

Trunk, log, recovery, I/O and platform code other than the lock are not part of this model.
