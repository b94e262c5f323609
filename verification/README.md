# Dafny models of the runtime library

This project models the concurrency and data-structure core of the library and proves what it is for. Each
source file becomes one or a few modules; objects that the source updates in place are classes whose methods do
the same writes and are proved against functions or trees, about which the theorems are then proved.

- **Flushing a workqueue** (`FlushProtocol`, `FlushInvariant`, `FlushTheorems`, `FlushProgress`, `FlushRace`,
  `Workqueue`). The colour-based flush of `workqueue.c` as a state machine whose steps are the critical sections of
  the workqueue mutex and of the pool locks, for any number of callers, pwqs and work items. History variables
  (tickets and epochs) say what a colour meant when it was handed out; no step branches on them. Safety and
  termination are proved over all runs, and the class `WorkqueueStruct` does each step with the source's
  statements.
- **Queueing and running work** (`PoolLists`, `PoolProtocol`, `PoolInvariant`, `PoolSteps`, `PoolOrder`,
  `PoolTheorems`, `PoolTickets`, `PoolBarriers`, `PoolLines`, `PoolTurns`, `WorkerPool`). Work items, barriers, the
  delayed lists and the workers of one pool, with the reference counts and in-flight counters. `PoolLines` and
  `PoolTurns` say in what order items leave the worklist and the lists of the workers, over all runs.
- **Both together** (`PoolFlush`). The flush of a workqueue and any number of pools that serve its pwqs, stepping
  together: the items in flight of the one are the coloured entries of the others, and so the safety of the flush
  reaches down to the lists of the pools.
- **Unit numbers** (`Bitstring`, `BitCount`, `UnitSpec`, `UnitUpdate`, `UnitAllocator`, `UnitNumbers`). The run
  and bitmap list of `unr.c` over real 64-bit words, with its blocks of memory.
- **Sorting a list** (`Powers`, `MergeSchedule`, `ListSortSpec`, `ListSort`, `ListSortCalls`). The bottom-up merge sort of
  `list_sort.c` on linked nodes, its merge schedule in closed form, and which calls of the comparison it makes.
- **Red-black trees** (`Sides`, `RbTree`, `RbMemory`, `RbRotate`, `RbAugment`, `RbInsert`, `RbLink`, `RbErase`,
  `RbEraseColor`, `RbUnlink`, `RbRemove`, `RbSuccessor`, `RbEraseTwo`, `RbOperations`, `RbCached`), with and
  without augmentation callbacks, and with the cached leftmost node.
- **AVL trees** (`AvlTree`, `AvlMemory`, `AvlRotate`, `AvlRebalance`, `AvlInsert`, `AvlWalk`, `AvlSwap`,
  `AvlRemove`, `AvlOperations`, `AvlDestroy`) and the **id map** built on them (`IdrEntries`, `Idr`).
- **Hashing** (`XxhWords`, `Xxh32`, `Xxh64`, `Xxh3Mix`, `Xxh3Stripes`, `Xxh3`, `Xxh3State`): one-shot and
  streaming hashes over machine words. What the hash functions compute is fixed twice over: by laws for all inputs
  (`Xxh32Laws`, `Xxh64Laws`, `XxhNumbers`, `Xxh3Laws`), that no byte is passed over, that the mixing steps lose
  nothing and that the long multiplication is one; and by the known digests of some inputs, worked out from the
  definitions (`Xxh32Answers`, `Xxh64Answers`, `Xxh3SecretWords`, `Xxh3Answers`, `Xxh3LongAnswers`), which fix the
  constants and the places of the reads.

Trees and lists in memory are read through a context and a focus: `Intact`, `Lies` and `Holds` say that the
pointers of the nodes agree with a tree, so that a method's effect is stated on trees and in-order sequences.
`dafny verify dfyconfig.toml` checks everything.

## Model

| member | source | states |
|---|---|---|
| FlushTheorems.FlushSafety | workqueue.c:1579-1723 | In every run, once a flush has returned, no work item that was in flight on any pwq when it was called is still in flight on any pwq. |
| FlushTheorems.LaterWorkIsNotCounted | workqueue.c:1538-1577 | In every run, an in-flight item of the colour that an uncompleted flusher waits on was queued before that colour was handed out. |
| FlushTheorems.CountersAreExact | workqueue.c:778-813 | In every run, each of the fifteen in-flight counters of a pwq is the number of its in-flight items of that colour. |
| FlushTheorems.PwqsToFlushIsExact | workqueue.c:1538-1577 | At every release of the mutex with a flush in progress, nr_pwqs_to_flush is the number of pwqs that still have an item of the flush colour. |
| FlushTheorems.ColorSpace | workqueue.c:1597-1635 | At every release of the mutex: no flush in progress means equal colours and empty lists, an overflow means that the next work colour is the flush colour, and every colour strictly between has a queued flusher. |
| FlushTheorems.QueueInColorOrder | workqueue.c:1656-1719 | In every run the flusher queue is in cyclic colour order from the flush colour to the work colour. |
| FlushTheorems.WorkInColorRange | workqueue.c:1538-1577 | In every run no item in flight has a colour outside the cyclic range from flush colour to work colour. |
| FlushTheorems.NextIsReal | workqueue.c:1656-1712 | At every scan of the cascade in a run, the pointer on which the scan stops is a flusher whose call has not returned, with the new flush colour, and is the one stored behind a splice or made first flusher; a scan that stops on nothing leaves both lists empty and the colours equal. |
| FlushTheorems.KeptNextIsReal | workqueue.c:1679-1712 | In every run, while the pwqs are advanced for the overflowed flushers the stored pointer stays the head of the queue, of the flush colour and not returned, and then becomes the first flusher. |
| FlushTheorems.RunNeverCrashes | workqueue.c:1656-1712 | In no run is a flusher completed, scanned, coloured or promoted through a null pointer or after its call has returned, and no counter index is ever out of range. |
| FlushTheorems.StartNeverWarns | workqueue.c:1597-1635 | None of the conditions warned about when a flush starts, or in the loop over the pwqs, can arise. |
| FlushTheorems.CascadeNeverWarns | workqueue.c:1656-1712 | At every iteration of the cascade, the first one and those after a next flusher with nothing to wait for, an overflow means a full colour space, and no pwq is counted when the pwqs are about to be armed; the flusher that begins a cascade is on no list and carries the flush colour. |
| FlushRace.RaceHappens | workqueue.c:1641-1654 | A run in which a flusher sees that it is first, another one cascades past it before it gets the mutex, and the second look finds it first no more. |
| FlushInvariant.StepInv | workqueue.c:1538-1723 | Every critical section keeps the invariant of the protocol. |
| FlushProgress.NoDeadlock | workqueue.c:1579-1723 | From every reachable state in which a caller waits or an item is in flight, some step that queues nothing and starts no flush is possible. |
| FlushProgress.NoInfiniteQuietRun | workqueue.c:1579-1723 | There is no infinite run of such steps. |
| FlushProgress.StuckMeansDone | workqueue.c:1579-1723 | A schedule of such steps that cannot be continued has let every flush return and every item finish. |
| FlushProgress.EveryFlushCanReturn | workqueue.c:1579-1723 | From every reachable state such a schedule exists. |
| Workqueue.WorkqueueStruct.StartFlush | workqueue.c:1597-1635 | The statements from taking the mutex to the first pool lock are the protocol's start step and keep its invariant. |
| Workqueue.WorkqueueStruct.PrepPwq | workqueue.c:1546-1571 | One pool-lock section of the loop over the pwqs is the protocol's step and keeps its invariant. |
| Workqueue.WorkqueueStruct.FinishPrep | workqueue.c:1573-1635 | The end of that loop and what each of its four callers does next are the protocol's step and keep its invariant. |
| Workqueue.WorkqueueStruct.WakeUpAndCascade | workqueue.c:1639-1719 | Retaking the mutex and the cascade are the protocol's step and keep its invariant. |
| Workqueue.WorkqueueStruct.CascadeOnce | workqueue.c:1661-1694 | The loops that complete and unlink the flushers of the flush colour and give the overflowed ones the work colour compute the scan and the splice. |
| Workqueue.WorkqueueStruct.PwqDecNrInFlight | workqueue.c:778-813 | The flush half of the in-flight decrement completes the first flusher exactly when the last armed pwq drains. |
| PoolTheorems.Accounting | workqueue.c:711-813 | In every run: a pwq's reference count is one plus its items in every list and worker, barriers included; its in-flight counters sum up to nr_active and the delayed coloured items; nr_active respects max_active and reaches it while anything is delayed; no counter is negative. |
| PoolTheorems.BaseReference | workqueue.c:711-735 | In every run the base reference is never given up, and it is the only one exactly when nothing is active or delayed. |
| PoolTheorems.NeverTwice | workqueue.c:1308-1379 | In every run no two workers run the same work item. |
| PoolTheorems.NeverQueuedTwice | workqueue.c:1023-1035 | In every run an item on any list is pending and is on exactly one place. |
| PoolTheorems.StartsInQueueOrder | workqueue.c:757-776 | With max_active 1 the items of a pwq start one at a time and in the order in which they were queued, in every run, with grabs and barriers in between. |
| PoolTickets.Conserved | workqueue.c:757-887 | At every step and for every kind of item: what is queued, delayed or running is what was there, and what has been queued, less what has been taken back or has finished; every other step only moves items. |
| PoolBarriers.BarrierWaits | workqueue.c:1499-1535 | In every run, between the step that queues a barrier behind an item, waiting or running, and the step that starts the barrier, that item has been taken back or its function has returned, and it is never queued or running again. |
| PoolLines.FirstComeFirstServed | workqueue.c:687-709 | In every run, for the worklist and for the list of every worker: an item that comes there while another is there, queued, activated, taken along or deferred but not as a barrier, leaves the front of that list no earlier than the other one leaves it, and starts only after that. |
| PoolLines.FrontLeavesFirst | workqueue.c:1440-1475 | In every run an item that stands in front of another one on such a list has left it when the other one starts from it, and no later when the other one is deferred or taken along. |
| PoolLines.HowItLeaves | workqueue.c:1308-1379 | The only ways out of such a list: the first item starts, the run at the front goes to a worker, or the item is taken back. |
| PoolLines.WhereItGoes | workqueue.c:1308-1379 | An item that leaves such a list then runs at the worker that started it, or is on the list of the worker that runs the same item already or took its run, or is nowhere, if it was taken back. |
| PoolLines.BarrierGoesFirst | workqueue.c:1499-1535 | In every run, a barrier for a running item has left the list of its worker before anything starts that was scheduled there when the barrier came. |
| PoolLines.DeferredWaits | workqueue.c:1308-1326 | In every run, from the insertion of a barrier for the running item until the barrier leaves, its worker starts no item that was deferred to it after the insertion. |
| PoolTurns.TurnsInQueueOrder | workqueue.c:998-1015 | In every run and for every max_active, when a coloured item of a pwq starts from the worklist, is deferred or is taken along, each item of that pwq that was queued before it and was ever waiting has started, has been deferred or taken along, or has been taken back before. |
| PoolTurns.StepTurns | workqueue.c:757-776 | At every step the waiting items of a pwq, on the worklist and delayed, stay in one order: at most one is taken out, and a new one comes last. |
| PoolFlush.ItemsAreEntries | workqueue.c:778-813 | In every run of a flush and the pools together, the counters of a pwq agree on both sides, and the items in flight and the coloured entries in the lists and workers of its pool correspond one to one. |
| PoolFlush.FlushedEntryIsGone | workqueue.c:1579-1723 | In every such run, once a flush has returned, no entry that a pool had queued, delayed or running for the workqueue when it was called is on any list or worker of that pool. |
| PoolFlush.FinishIsNeverBlocked | workqueue.c:778-813 | In every such run, any step that a pool can take can be taken together with the flush; only queueing on the workqueue has to wait for the mutex, and only the flush gives its pwqs another colour. |
| PoolSteps.StartInv | workqueue.c:1308-1379 | Starting an item keeps the pool's invariant, and the item is then run by nobody else and queued nowhere. |
| WorkerPool.Pool.QueueWork | workqueue.c:1023-1035 | An item is queued if and only if its PENDING bit was clear; otherwise nothing changes. |
| WorkerPool.Pool.TryToGrabPending | workqueue.c:830-887 | 0 exactly when the PENDING bit was clear, which is then set; 1 exactly when the item is queued, which is then taken back; else -ENOENT or -EAGAIN, as it is being cancelled or not, and nothing changes. |
| WorkerPool.Pool.GrabPending | workqueue.c:858-877 | Taking a queued item back, with its barriers left in place, is the protocol's step and keeps the invariant. |
| WorkerPool.Pool.InsertBarrier | workqueue.c:1499-1535 | A barrier is put right behind its target and linked to it, taking over the target's link. |
| WorkerPool.Pool.ProcessOneWork | workqueue.c:1308-1379 | An item that a worker runs already is deferred to that worker with its barriers; any other one is claimed. |
| WorkerPool.Pool.FinishWork | workqueue.c:1308-1379 | The end of an item gives back its reference and its in-flight count and activates the oldest delayed item if the limit allows. |
| UnitNumbers.AllocUnr | unr.c:568-626 | Allocation returns the least free unit and takes exactly that one, or returns -1 exactly when all units are in use and changes nothing. |
| UnitNumbers.FreeUnr | unr.c:866-884 | Freeing a unit in use takes exactly that unit out of use, and the memory then held is exactly what the list needs. |
| UnitNumbers.BusyIsSize | unr.c:201-231 | busy is the number of units in use. |
| UnitNumbers.BlocksAccounted | unr.c:265-290 | No block is lost: the blocks held are alloc and those waiting to be freed. |
| UnitNumbers.SpaceMemory | unr.c:57-71 | At most four blocks for every NBITS + 1 units between first and last, and two more; none at all when no unit is in use. |
| UnitNumbers.HeldBlocks | unr.c:265-290 | Between two operations a space holds blocks exactly when its list is not empty: always when a free unit lies below one in use, never when no unit is in use. |
| UnitSpec.MemoryBound | unr.c:383-489 | A list on which nothing more can be saved by a bitmap costs at most four blocks for every NBITS + 1 units and two more. |
| UnitSpec.NoBitmapFits | unr.c:383-489 | In such a list a bitmap and its neighbour never fit into one bitmap together. |
| UnitAllocator.UnrHdr.OptimizeUnr | unr.c:383-489 | Optimisation changes no unit, lowers alloc whenever it does something, and otherwise nothing could have been gained. |
| UnitAllocator.UnrHdr.CollapseUnr | unr.c:496-563 | From a list with one element out of order: no unit changes, no two equal runs are left side by side, the ends are absorbed, and nothing can be gained by a bitmap. |
| UnitAllocator.UnrHdr.AllocUnrl | unr.c:568-614 | On the space as a sequence of booleans: the first clear one is set, or -1 if there is none. |
| UnitAllocator.UnrHdr.FreeUnrl | unr.c:758-864 | Exactly one unit is cleared; two spare blocks are enough and those not used come back. |
| UnitAllocator.UnrHdr.CheckUnrhdr | unr.c:201-231 | The units and blocks counted by the consistency check are busy and alloc in every state between two operations. |
| Bitstring.BitNset | bitstring.h:175-192 | Exactly the bits of the range become 1, across word boundaries. |
| Bitstring.BitNclear | bitstring.h:194-211 | Exactly the bits of the range become 0. |
| Bitstring.BitFfsAt | bitstring.h:213-240 | The first set bit of the range, or -1 if there is none. |
| Bitstring.BitFfcAt | bitstring.h:242-269 | The first clear bit of the range, or -1 if there is none. |
| BitCount.BitCount64Counts | bitstring.h:75-86 | The shift-and-add population count is the number of set bits of the word. |
| BitCount.BitCount | bitstring.h:285-318 | The number of set bits in the range, over partial first and last words. |
| ListSort.UtilListSort | list_sort.c:192-262 | The circular list afterwards is a permutation of the input in stable order, provided the comparison is transitive; without that it is still a permutation and a proper circular list. The comparison is called on two different nodes only with the first before the second in the input. It is called on a node and itself once for every 256 nodes that sort behind the whole other part of the cut, so never below 384 nodes. |
| ListSort.Merge | list_sort.c:23-57 | Relinks two null-terminated lists into their stable merge, ties from the first. |
| ListSort.MergeFinal | list_sort.c:59-107 | Relinks the last two lists into their stable merge and restores the links backwards and the circle; the comparison is called on a node and itself once for every 256 nodes left when one list is used up. |
| ListSort.Collect | list_sort.c:224-247 | After each element the pending lists are sorted blocks of the input in order, of the sizes that the closed form gives. |
| ListSort.MergeAll | list_sort.c:249-261 | The merges at the end leave two lists whose merge is the sorted input, and each of them joins lists of sizes within a factor of two. |
| ListSort.FindMerge | list_sort.c:224-247 | The search finds the least clear digit of count: below it there is one pending list of each size, and above it either nothing or two neighbouring lists of equal size, whose merge gives the sizes of the next count. |
| ListSortCalls.SelfCallHappens | list_sort.c:59-107 | For every length from 384 on there is a list that is sorted with such a call. |
| ListSortSpec.LeftoverIsOverhang | list_sort.c:59-107 | For sorted lists and a transitive comparison, the nodes left when one list is used up are those that go behind all of the other list, a property of the two sets of nodes alone. |
| ListSortSpec.MergedSorted | list_sort.c:23-57 | Merging two sorted lists, the first from before the second, gives a sorted list. |
| ListSortSpec.StableSorted | list_sort.c:163-191 | For a total preorder, given as a three-way or as a yes-or-no comparison, the order proved is ascending with equal nodes in the order of the input. |
| ListSortSpec.SortedUnique | list_sort.c:163-191 | There is only one stable sort of the input. |
| MergeSchedule.PendingSorted | list_sort.c:110-191 | At every count the sizes of the pending lists are nondecreasing from the newest on, at most two of each size. |
| MergeSchedule.PendingPowers | list_sort.c:110-191 | Every pending list has a power of two of elements. |
| MergeSchedule.PendingSum | list_sort.c:110-191 | The pending lists hold exactly count elements. |
| MergeSchedule.FinalBalance | list_sort.c:110-191 | At the end of the input, each list merged and all that was merged before differ by a factor of at most two. |
| MergeSchedule.SplitAt384 | list_sort.c:110-191 | Of the two lists of the last merge, the first has 256 nodes or more from 384 nodes on, and neither has as many below. |
| RbInsert.InsertColor | rbtree.c:83-219 | From any tree with one red-red edge at the focus, the loop ends with a red-black tree of the same order and with right caches. |
| RbLink.Insert | rbtree_augmented.h:41-46 | A node linked at a free child slot ends up directly before or after its parent in order, all else unchanged, in a red-black tree with right caches. |
| RbEraseColor.EraseColor | rbtree.c:225-406 | From any tree with one black node missing below the parent, the loop ends with a red-black tree of the same order and with right caches. |
| RbRemove.PropagateCaches | rbtree_augmented.h:76-144 | The upward propagation with its early exit leaves every cache right if at most the first one was wrong. |
| RbEraseTwo.EraseTwo | rbtree_augmented.h:186-286 | A node with two children is replaced by its successor, near or far, with both propagations. |
| RbOperations.Erase | rbtree_augmented.h:288-304 | Exactly the given node leaves the order, and a red-black tree with right caches is left. |
| RbAugment.CachesAreMaxima | rbtree_augmented.h:76-144 | Caches that agree with their children's hold the largest value of the whole subtree. |
| RbOperations.First | rbtree.c:461-471 | The first node in order, or null. |
| RbOperations.Next | rbtree.c:485-514 | The node that follows in order, or null. |
| RbOperations.ReplaceNode | rbtree.c:544-558 | The new node stands where the victim stood, in a red-black tree; no cache is touched. |
| RbCached.InsertNode | rbtree.c:432-435 | Without callbacks the same insertion is proved from the shape and the colours alone. |
| RbCached.EraseNode | rbtree.c:437-443 | Without callbacks the same removal is proved from the shape and the colours alone. |
| RbCached.RbRootCached.InsertCached | rbtree.h:126-133 | If the caller's flag is right, the cached pointer is the first node after the insertion. |
| RbCached.RbRootCached.EraseCached | rbtree.h:135-141 | The cached pointer is the first node after the removal. |
| RbCached.RbRootCached.ReplaceCached | rbtree.h:143-149 | The cached pointer is the first node after the replacement; the tree can be used on, if it has no caches or the new node brings the victim's. |
| RbCached.SlotIsFirst | rbtree.h:126-133 | A search that never turned right is the same as a slot left of the first node, which is what the caller's flag has to say. |
| RbCached.RunCached | rbtree.h:107-149 | Through any mix of cached insertions, removals and replacements, each with its effect on the order, the pointer read after each operation is the first node of the tree. |
| AvlTree.RotationBalances | avl.c:289-455 | A rotation balances a node whose heavy side is two higher, and its result says exactly whether the subtree got shorter. |
| AvlRebalance.Rotation | avl.c:289-455 | Both cases of the rotation, on both sides, as writes to memory, are that rotation of the tree. |
| AvlInsert.Insert | avl.c:468-544 | Insertion at an insertion point puts exactly that node there in order and leaves an AVL tree with true balances. |
| AvlRemove.Remove | avl.c:661-805 | Removal takes exactly that node out of the order and leaves an AVL tree with true balances. |
| AvlWalk.Walk | avl.c:122-163 | The neighbour in order on the given side, or null. |
| AvlWalk.Nearest | avl.c:212-231 | The node on the given side of an insertion point, or null. |
| AvlWalk.Find | avl.c:241-272 | The node with the key, or null and the insertion point that the key belongs to. |
| AvlWalk.ListNodes | avl.c:122-184 | First and repeated next list all nodes of the tree, in order, each once. |
| AvlOperations.Add | avl.c:618-637 | A key that is not there gets its place in the order. |
| AvlOperations.InsertHere | avl.c:558-613 | The new node comes right before or right after the given one. |
| AvlDestroy.DestroyNodes | avl.c:938-1029 | Each call returns the next node in post-order and cuts off the one before; null comes exactly at the end, with nothing left. |
| AvlDestroy.DestroyAll | avl.c:938-1029 | Calling until null returns every node once, children before parents. |
| Idr.IdrStruct.Alloc | idr.c:46-61 | The least free id is mapped to the pointer and nothing else changes; -ENOMEM exactly when memory or ids have run out, and then nothing changes. |
| Idr.IdrStruct.Remove | idr.c:63-77 | The id is unmapped and free again, the pointer it stood for is returned, NULL if none. |
| Idr.IdrStruct.Lookup | idr.c:111-123 | The pointer that the id stands for, NULL if none. |
| Idr.IdrStruct.GetNext | idr.c:94-109 | The entry with the least id from the given one on; without one, NULL and the id unchanged. |
| Idr.IdrStruct.ForEach | idr.c:79-92 | The callback gets the entries in order of id up to the first for which it returns non-zero, and that is the result. |
| Idr.IdrStruct.ForEachEntry | idr.h:25-26 | However long the loop is watched, it has visited what the repeated search gives, and it has ended exactly when the search gave NULL; if it ends at all it has visited the entries before the first NULL. |
| Idr.IdrStruct.EntryLoop | idr.h:25-26 | The loop ends having visited every non-null entry once if and only if no null entry comes before a non-null one and not both INT_MAX is in use and no entry is null; in the latter case, and only then, it never ends. |
| IdrEntries.LoopSeesAll | idr.h:25-26 | The same for every ascending list of entries with ids from 0 to INT_MAX. |
| Idr.NullHidesLater | idr.c:94-109 | A reachable map with ids 0 and 1 for NULL and 7, for which the loop ends at once with nothing seen. |
| Idr.GreatestIdForEver | idr.c:94-109 | A reachable map with INT_MAX for 7 only, for which the search from 0 and the one from the id after INT_MAX both find INT_MAX and no search ever gives NULL. |
| Idr.IdrStruct.Destroy | idr.c:35-44 | Every entry is freed once and the tree is empty; the blocks of the number space are all still held: none if and only if its list is empty, some whenever a free id lies below one in use, none when no id is in use. |
| Idr.GapIsLost | idr.c:35-44 | A map with ids 0, 1 and 2, of which 1 has been removed: destroying it loses blocks. |
| Xxh32.Stream | xxhash.h:1992-2088 | However the input is cut into pieces, the streaming hash is the hash of the whole, for inputs of every length although the length counter wraps around. |
| Xxh32.OneShot | xxhash.h:1911-1947 | The one-shot code computes the same function. |
| Xxh32.Finalize | xxhash.h:1824-1893 | The unrolled switch equals the rerolled loops. |
| Xxh32Laws.OneByteCounts | xxhash.h:1824-1947 | Two inputs that differ in exactly one byte have different hashes, for every seed and every length. |
| Xxh32Laws.HashDiffers | xxhash.h:1824-1947 | The same for two inputs that differ in any one word that a lane or the tail reads. |
| Xxh32Laws.RoundInjective | xxhash.h:1732-1796 | A round is one to one in the lane and in the word read. |
| Xxh32Laws.MergeOneLane | xxhash.h:1938-1939 | Lanes that differ in one place only never merge into one value. |
| Xxh32Laws.AvalancheBack | xxhash.h:1798-1806 | The last mixing can be undone. |
| Xxh32Answers.Empty | xxhash.h:1911-1947 | The hash of no input is 0x02CC5D05. |
| Xxh32Answers.LetterA | xxhash.h:1911-1947 | The hash of the letter a is 0x550D7456. |
| Xxh32Answers.Zeros | xxhash.h:1911-1947 | The hash of sixteen zero bytes is 0x8E022B3A. |
| Xxh32Answers.Sixteen | xxhash.h:1911-1947 | The hash of the bytes 0 to 15 is 0xB72837F4. |
| Xxh32Answers.Seeded | xxhash.h:1911-1947 | The hash of an input with a whole block, a word and single bytes, under a seed. |
| Xxh64.Stream | xxhash.h:2551-2649 | The same for the 64-bit hash and inputs below 2^64 bytes. |
| Xxh64.OneShot | xxhash.h:2467-2507 | The one-shot code computes the same function. |
| Xxh64.Finalize | xxhash.h:2332-2455 | The unrolled switch equals the rerolled loops. |
| Xxh64Laws.StripeInjective | xxhash.h:2487-2492 | A stripe is one to one in the lanes, and in its 32 bytes. |
| Xxh64Laws.OneStripeCounts | xxhash.h:2467-2507 | Inputs that differ in one stripe only leave different lanes, however many stripes follow. |
| Xxh64Laws.AbsorbDiffers | xxhash.h:2467-2507 | Inputs that differ in one word of their stripes leave lanes that differ in the lane of that word and in no other. |
| Xxh64Laws.OneByteCounts | xxhash.h:2332-2455 | Two inputs that differ in exactly one byte behind the last whole stripe have different hashes, for every seed. |
| Xxh64Laws.MergeRoundBack | xxhash.h:2311-2317 | Merging in a lane can be undone in the hash value. |
| Xxh64Laws.AvalancheBack | xxhash.h:2319-2327 | The last mixing can be undone. |
| Xxh64Answers.Empty | xxhash.h:2467-2507 | The hash of no input is 0xEF46DB3751D8E999. |
| Xxh64Answers.LetterA | xxhash.h:2467-2507 | The hash of the letter a is 0xD24EC4F1A98C6E5B. |
| Xxh64Answers.Zeros | xxhash.h:2467-2507 | The hash of 32 zero bytes is 0xF6E9BE5D70632CF5. |
| Xxh64Answers.ThirtyTwo | xxhash.h:2467-2507 | The hash of the bytes 0 to 31 is 0xCBF59C5116FF32B4. |
| Xxh64Answers.Seeded | xxhash.h:2467-2507 | The hash of an input with a stripe, an eight-byte and a four-byte word and single bytes, under a seed. |
| XxhNumbers.NumberOfPlus | xxhash.h:3319-3329 | The word sum of two words is the sum of their numbers as long as that fits a word. |
| XxhNumbers.NumberOfTimes | xxhash.h:3319-3329 | The word product of two words is the product of their numbers as long as that fits a word. |
| Xxh3Laws.MulFoldIsProduct | xxhash.h:3316-3348 | For all words: the fold is the exclusive or of the two halves of the 128-bit product, x * y mod 2^64 and x * y / 2^64 as numbers. |
| Xxh3Laws.ShortInputsDiffer | xxhash.h:3419-3484 | Different inputs of one length of up to eight bytes have different hashes, for every secret and seed. |
| Xxh3Laws.AvalancheBack | xxhash.h:3361-3367 | The last mixing can be undone. |
| Xxh3Laws.RrmxmxBack | xxhash.h:3374-3382 | The mixing of inputs of four to eight bytes can be undone. |
| Xxh3Laws.SwapReads | xxhash.h:2217-2228 | Swapping a word reads its bytes backwards. |
| Xxh3Laws.ScrambleBack | xxhash.h:4179-4193 | A scrambled lane gives back the lane, if the key is known, and the key, if the lane is. |
| Xxh3Laws.StepsDiffer | xxhash.h:4339-4392 | Inputs that differ in one word of their stripes leave different lanes, through all blocks and scrambles, for every secret. |
| Xxh3Laws.CustomSecretWords | xxhash.h:4195-4251 | The words of the secret made from a seed are those of the default secret, plus and minus the seed in turn. |
| Xxh3Laws.SeedIsSecret | xxhash.h:3510-3571 | For 17 to 128 bytes, hashing with a seed is hashing with the secret made from the seed. |
| Xxh3SecretWords.Secret15 | xxhash.h:3159-3172 | The last words of the secret, which only a scramble reads; the lemmas before it state all the others. |
| Xxh3Answers.Empty | xxhash.h:3474-3482 | The hash of no input is 0x2D06800538D394C2. |
| Xxh3Answers.LetterA | xxhash.h:3419-3437 | The hash of the letter a is 0xE6C632B61E964E1F. |
| Xxh3Answers.LettersAbc | xxhash.h:3419-3437 | The hash of the letters abc under a seed. |
| Xxh3Answers.Six | xxhash.h:3441-3453 | The hash of the bytes 0 to 5 under a seed. |
| Xxh3Answers.Eleven | xxhash.h:3457-3470 | The hash of the bytes 0 to 10 under a seed. |
| Xxh3Answers.Sixteen | xxhash.h:3457-3470 | The hash of sixteen zero bytes is 0xD0A66A65C7528968. |
| Xxh3Answers.Seventeen | xxhash.h:3543-3571 | The hash of seventeen zero bytes is 0xC2915CA0DF7AD4C1. |
| Xxh3Answers.OneHundred | xxhash.h:3543-3571 | The hash of the bytes 0 to 112, which takes all eight mixes. |
| Xxh3Answers.Middle | xxhash.h:3575-3623 | The hash of the bytes 0 to 144 under a seed, with both passes of rounds. |
| Xxh3LongAnswers.LongInput | xxhash.h:4339-4426 | The hash of the bytes 0 to 240: three stripes, and the last one, which overlaps. |
| Xxh3LongAnswers.WholeBlock | xxhash.h:4339-4426 | The hash of 577 zero bytes under the secret of the bytes 0 to 135: a whole block with its scramble, and the last stripe. |
| Xxh3.HashLong | xxhash.h:4339-4426 | The loop over blocks, stripes and the last overlapping stripe computes one stripe function with a scramble at the end of every full block. |
| Xxh3.Internal | xxhash.h:4498-4519 | The one-shot hash by length classes. |
| Xxh3State.Stream | xxhash.h:4661-4851 | However the input is cut into pieces, the streaming hash with its 256-byte buffer equals the one-shot hash, over every length class. |
| Xxh3State.StreamWithSecret | xxhash.h:4670-4851 | The same for a secret of the caller of any admissible length. |
| Xxh3State.StreamWithSeed | xxhash.h:4681-4851 | The same for a seed, whose secret is not made again for the seed it was made from. |
| Xxh3Stripes.ConsumeStripes | xxhash.h:4695-4722 | Consuming stripes from within a block, across at most one block boundary, equals one stripe after the other. |

## Findings

- `idr_for_each_entry` (idr.h:25-26) does not always visit every non-null entry, and does not always end.
  `Idr.IdrStruct.EntryLoop` gives the exact condition for every reachable map. `Idr.NullHidesLater` reaches a map
  in which a stored NULL hides a later pointer; `Idr.GreatestIdForEver` reaches one (base INT_MAX, one entry) on
  which the loop never ends, because the id after INT_MAX is the least one.
- `idr_destroy` (idr.c:35-44) frees the entries and the tree but never the blocks of the number space. By
  `Idr.IdrStruct.Destroy` nothing is lost if and only if the list of the number space is empty; it is not empty
  whenever a free id lies below one in use, and it is empty when no id is in use. `Idr.GapIsLost` reaches a map that
  loses blocks.
- `util_list_sort` does not only call the comparison with the first node before the second: the final merge
  (list_sort.c:59-107) also calls it on a node and itself. By `ListSort.UtilListSort` and for a transitive comparison
  that happens if and only if at least 256 nodes sort behind the whole other part of the input, cut where the last two
  lists meet (`ListSort.CutOverhang`), so never below 384 nodes (`MergeSchedule.SplitAt384`);
  `ListSortCalls.SelfCallHappens` gives a list for every length from 384 on. All other calls are in the order of the
  input.

## Left out

- The mutexes themselves: a critical section is one step, and waiting for a completion is a step that is possible once it has been completed.
- Workqueue attributes, pool and worker creation and destruction, rescue and idle management, nr_running and wake-ups of sleeping workers, draining and destroying a workqueue.
- Delayed work and its timer, cancelling, and flushing a single work item across pools; barriers and grabbing are modelled inside one pool.
- WorkerPool.Pool.TryToGrabPending: without the timer of a delayed work item, which the source tries to stop first; the place of the item is searched for instead of read off the work item.
- WorkerPool.Pool.GrabPending: the part of it under pool->lock, for an item that is queued; the results are those of TryToGrabPending.
- UnitNumbers.SpaceMemory: the bound holds for every pattern and is larger than the N/4 bytes that the source's comment gives for every other unit in use; that figure, which depends on the sizes of the structures in bytes, is not proved.
- Replacing the pwqs of a workqueue while work is queued; a work id stands for an item with its function.
- alloc_unr_specific, clear_unrhdr, printing and the test drivers of unr.c; machine overflow of 1 + (high - low) for the widest range.
- rb_prev and rb_last, the mirror images of rb_next and rb_first, and the post-order walks of rbtree.c.
- Pointer tagging of colours, parents, balances and child indices: they are fields of their own. container_of is not modelled: a node carries the user's data.
- The source's left and right halves are one code with a side as a parameter.
- The augmentation callbacks are the template's with a maximum; other computations are not modelled.
- RbOperations.ReplaceNode: in a tree with caches it promises no right caches, because the code leaves the new node's cache to the user.
- dlm_avl_update, dlm_avl_update_lt and dlm_avl_update_gt; keys are integers compared by value, not a user's function.
- 128-bit XXH3, vector code, big-endian and unaligned paths, the secret generator, canonical representations and copying of states.
- Xxh64.Stream: only inputs below 2^64 bytes, because the length counter of the source wraps around there.
- Xxh3State.Stream: only inputs below 2^64 bytes, for the same reason.
- Xxh64Laws.OneByteCounts: only for bytes behind the last whole stripe; for a byte within a stripe `Xxh64Laws.AbsorbDiffers` says that one lane differs, and each lane enters the 64-bit merge twice, so that equal hashes are not excluded.
- A caller's secret is held by value in the streaming state, so that changing it behind the state's back is not modelled.
- ListSort: the private pointer handed through to the comparison, which must not depend on the links.
- The rest of the repository: timers, locks and other wrappers of system services, memory, logging, random numbers, reference counts and the other hash functions.
