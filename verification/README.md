# KzCore verification

Dafny models of the hard parts of KzCore, a C++20 infrastructure library, and proofs about them.
`dafny verify dfyconfig.toml` checks everything.

**The allocator.** `PageCache` is the page heap of one shard as pure transitions with its invariant: live
spans tile the pages obtained from the system, the page map is right wherever the code looks (and stale
inside free spans, where it does not), free spans of a shard touch only at the edge of a range from the
system, and the counter of hot pages is exact. `PageHeap` is the class with those fields; each method is
proved to make the transition it should. `PageMap` is the three-level radix tree as linked nodes,
equal to a flat map. `SpanList` is the doubly linked list with a sentinel. `SizeClasses` holds the size
arithmetic and the two generated tables. `Allocator` is what lies above the page heap as a state machine
for any number of threads, one event for each section under a bucket's lock and each call of the page heap,
so that `GetOneSpan` without its lock and the sorting loop of `ReleaseListToSpans` interleave with everything
else. `FreeList` and `CentralCache` are the imperative versions of the thread's list and of the central
cache's loops over links in memory. `AllocatorEffects` says what each operation of the machine achieves: which
block a `malloc` gives, where a freed block goes, that the objects a thread gives back arrive at their spans, that an exit
leaves nothing behind, and that no span without objects out is ever kept. `CentralCache` proves that the batched
`ReleaseListToSpans` has the effect of giving back one object after the other. `Composition` joins the parts: the page heap
and the state machine above it run together, each step of the page heap being one that the machine allows, so that blocks lie apart without any
assumption on the pages a span gets; and the radix tree is the page heap's flat map.

**The protocols.** `WorkStealingDeque`, `MpmcQueue`, `MpscQueue`, `ObjectPool`, `SpinMutex` and `ThreadPool`
are state machines: shared memory and a program counter for each of any number of threads, one event for each
atomic load, store, compare-and-swap or exchange. What is claimed of every run follows from an invariant that
every event keeps. What an operation achieves is claimed of a thread that takes its steps with no other step in between, from
any state that the invariant allows, whatever the other threads were in the middle of: a push appends as many items as there
is room for, a pop or steal takes the right item, `New` serves the top of the stack, `lock` takes a free lock or sleeps.
`ThreadPoolJobs` counts jobs over whole runs: those accepted are those started and those still queued or in some thread's
hands. `ThreadPoolProgress` follows an undisturbed worker and an undisturbed submission.

**Parsers and codecs.** `IpParser` proves the parsing loops against the notation of addresses, which is
defined on its own: canonical dotted quads, and the forms of section 2.2 of RFC 4291 with the grammar of
section 3.2.2 of RFC 3986. `WireFormat` defines both formats of the RPC serializer and says exactly which values
survive a round trip. `Serializer` holds the writer and the reader. `Jeaiii` is the decimal printer. `Common`, `Bits`,
`Decimal`, `Ring`, `Lists` and `Carving` are shared.

Assumptions. Memory is sequentially consistent: the C++ memory orders are not modelled. Head and tail counters, slot
sequence numbers and the stack's tag do not wrap around. `SystemAlloc` may return any range disjoint from what was
handed out before, also an adjacent one, or fail. Pages are 16 KiB as `PAGE_SHIFT` says, not 8 KiB as some
comments say. A sized `free` names a size in the block's own class. A text that is deserialized has less than 2^63 bytes.

What the code does not do. An MPMC queue with one slot loses items (`TwoSlotsNeeded`). A push to the MPSC queue can
be turned away from an empty queue when the tail it loaded is old (`WhenPushIsTurnedAway`). An empty vector is not
written at all, and sizes are cut to 32 bits in the fixed format, so that values with either do not survive a round
trip (`RoundTrip`). `RoundUp` of a request in the last page of the 64-bit range wraps around (`LargeRoundUp`).
`check_bounds` adds a string's size to the position in 64 bits: where the sum reaches 2^64, which takes a varint size near
2^64, a string is accepted that reaches past the text and reading goes on at an earlier position (`StringExactly`,
`ReachesPastTheEnd`). Jobs that are still queued when `stop` is called are not run: workers leave from the top of their
loop (`LeavesWhenStopped`). The reader's contracts hold for every other text: every text in the fixed format, every text for which
the format gives a value, whatever was serialized.

## Model

| member | source | states |
|---|---|---|
| PageCache.CarveInv | KzAlloc/PageCache.cpp:389-532 | taking a span from a hot or cold container and splitting off what is not needed keeps the whole shard invariant: tiling, page map, chunk edges, counters, containers |
| PageCache.CarveGives | KzAlloc/PageCache.cpp:389-532 | the caller gets exactly k pages cut from the front of the span, every one of them mapped to it; the rest stays free, as hot or cold as it was |
| PageCache.AddRangeInv | KzAlloc/PageCache.cpp:174-237 | a range from the system, even one that touches other spans, enters without breaking the invariant |
| PageCache.MergeInv | KzAlloc/PageCache.cpp:250-288 | absorbing a free neighbour, hot or cold, keeps the invariant although pages inside the merged span now map to a deleted one |
| PageCache.FinishInv | KzAlloc/PageCache.cpp:290-313 | entering the merged span with only its first and last page mapped restores the full invariant, and it has no free neighbour in its shard |
| PageCache.CoolInv | KzAlloc/PageCache.cpp:365-387 | cooling a span keeps the invariant and takes exactly its pages off the hot counter |
| PageCache.NeighbourLookup | KzAlloc/PageCache.cpp:250-288 | the lookups of the page before and after a span never see a stale entry: they find the live span on that page, or nothing exactly if the page was never obtained |
| PageCache.UsedLookup | KzAlloc/ConcurrentAlloc.h:105-106 | every page of a span in use maps to that span |
| PageCache.InsideGoesStale | KzAlloc/PageCache.cpp:302-305 | inside free spans the map really does keep pointers to deleted spans |
| PageCache.SpansTile | KzAlloc/PageCache.cpp:241-313 | live spans never overlap and lie on pages obtained from the system |
| PageCache.TilesAll | KzAlloc/PageCache.cpp:241-313 | every page obtained lies in a live span |
| PageCache.FreeSpansTouchOnlyAtEdges | KzAlloc/PageCache.cpp:250-288 | in every reachable state two free spans of a shard touch only where a range from the system begins |
| PageCache.TotalCovers | KzAlloc/PageCache.cpp:262-264 | the hot counter covers each hot free span, so that subtracting its pages never wraps |
| PageCache.NoHotPages | KzAlloc/PageCache.cpp:323-363 | with all hot containers empty the counter is 0, so that the reclaim loops reach the threshold |
| PageHeap.PageHeap.AllocFromHotList | KzAlloc/PageCache.cpp:389-425 | makes exactly the carving transition on the hot array |
| PageHeap.PageHeap.AllocFromColdList | KzAlloc/PageCache.cpp:427-468 | the same on the cold array, without touching the counter |
| PageHeap.PageHeap.AllocFromMap | KzAlloc/PageCache.cpp:470-532 | the same on the ordered maps, dropping an entry it empties |
| PageHeap.PageHeap.LowerBound | KzAlloc/PageCache.cpp:130-131 | finds the entry with the least key from k on, or says that there is none |
| PageHeap.PageHeap.SmallFit | KzAlloc/PageCache.cpp:117-128 | finds the shortest non-empty list of the array from k on |
| PageHeap.PageHeap.TakeKind | KzAlloc/PageCache.cpp:115-172 | one phase: the smallest sufficient span of its kind, or nothing of that kind fits, or an empty map entry is gone and the search starts over with fewer entries |
| PageHeap.PageHeap.TakeCached | KzAlloc/PageCache.cpp:112-172 | ends, with the smallest sufficient hot span, else the smallest sufficient cold span, else only if no cached span fits |
| PageHeap.PageHeap.AddFromSystem | KzAlloc/PageCache.cpp:178-237 | succeeds exactly if the pages that must be mapped can be; otherwise rolls back to the state before |
| PageHeap.PageHeap.NewSpanFromSystem | KzAlloc/PageCache.cpp:174-239 | after a refill the retry always hits: exactly k pages, all mapped, overlapping no span that was in use |
| PageHeap.PageHeap.MapEnds | KzAlloc/PageCache.cpp:204-227 | maps both ends of a range or leaves the map as it was |
| PageHeap.PageHeap.MapLarge | KzAlloc/PageCache.cpp:197-219 | maps all pages of a range or leaves the map as it was |
| PageHeap.PageHeap.MergeLeft | KzAlloc/PageCache.cpp:250-270 | ends with no free span of the shard to the left |
| PageHeap.PageHeap.MergeRight | KzAlloc/PageCache.cpp:273-288 | ends with no free span of the shard on either side |
| PageHeap.PageHeap.ReleaseSpan | KzAlloc/PageCache.cpp:241-321 | merges on both sides, enters the span as free, keeps the invariant, and ends with the counter at or below the threshold; from the state in which the span has entered, the longest hot spans are cooled, none if the counter is low enough there, and not one more than it takes |
| PageHeap.PageHeap.ReleaseSomeSpansToSystem | KzAlloc/PageCache.cpp:323-363 | both reclaim loops end, with the counter at or below the threshold, cooling from the largest size down; before the last span was cooled the counter was above it |
| PageHeap.PageHeap.CoolLarge | KzAlloc/PageCache.cpp:325-346 | the map loop ends at the threshold or with an empty map, also when merges have left empty entries; it cools the longest spans, and none once the counter is at the threshold |
| PageHeap.PageHeap.CoolSmall | KzAlloc/PageCache.cpp:348-362 | the array loop then always reaches the threshold, and stops there |
| PageMap.IndicesNamePage | KzAlloc/PageMap.h:73-90 | the three indices take a page number apart without loss, and the first is in range exactly for valid pages |
| PageMap.SameLeaf | KzAlloc/PageMap.h:73-90 | pages share a leaf exactly if they agree in the first two indices |
| PageMap.PageMap.Get | KzAlloc/PageMap.h:73-102 | null wherever a node is missing |
| PageMap.PageMap.EnsureRoot | KzAlloc/PageMap.h:160-184 | installs the node or fails, and changes no mapping |
| PageMap.PageMap.EnsureInternal | KzAlloc/PageMap.h:188-202 | installs the leaf or fails, and changes no mapping |
| PageMap.PageMap.Set | KzAlloc/PageMap.h:109-135 | updates one entry of the flat map the tree stands for, exactly if no missing node is refused; a page with a leaf cannot fail |
| Composition.MapPage | KzAlloc/PageMap.h:109-135 | setting a page in the tree is the page heap's update of its flat map and set of leaves, and fails exactly when the page heap takes it to fail |
| Composition.UnmapPage | KzAlloc/PageMap.h:109-135 | storing null in a page that has a leaf is taking the entry out of the flat map |
| SpanList.Span.Remove | KzAlloc/Span.h:28-33 | unlinks the span from whatever list it is on, which keeps the rest in order |
| SpanList.SpanList.Insert | KzAlloc/Span.h:117-128 | inserts in front of any node or the sentinel |
| SpanList.SpanList.Erase | KzAlloc/Span.h:131-144 | removes the span and nothing else, and nulls its links |
| SpanList.SpanList.PushFront | KzAlloc/Span.h:101-104 | puts a span in front |
| SpanList.SpanList.PopFront | KzAlloc/Span.h:107-114 | takes the front span, or null from an empty list |
| SpanList.SpanList.Empty | KzAlloc/Span.h:97-99 | the sentinel points to itself exactly if the list is empty |
| Lists.WithoutAt | KzAlloc/Span.h:131-144 | removing an element is cutting it out at its one position |
| SizeClasses.GenerateClassToSizeTable | KzAlloc/SizeUtils.h:70-84 | the generated table holds the size of every one of the 264 classes |
| SizeClasses.GenerateFastIndexTable | KzAlloc/SizeUtils.h:87-116 | the byte-sized table agrees with the formula on every entry |
| SizeClasses.LookupIndex | KzAlloc/SizeUtils.h:119-134 | lookup by table and by formula give the same class |
| SizeClasses.ClassesGrow | KzAlloc/SizeUtils.h:46-84 | classes grow strictly from 8 bytes to exactly 256 KiB |
| SizeClasses.LeastClass | KzAlloc/SizeUtils.h:119-134 | the class of a request is the least that holds it |
| SizeClasses.ClassOfClass | KzAlloc/SizeUtils.h:119-147 | a class is the class of its own size |
| SizeClasses.IndexOfRoundUp | KzAlloc/SizeUtils.h:137-141 | looking up a request before or after rounding gives the same class |
| SizeClasses.WasteBound | KzAlloc/SizeUtils.h:137-141 | above 128 bytes less than an eighth is wasted |
| SizeClasses.LargeRoundUp | KzAlloc/SizeUtils.h:40-43 | large requests get the fewest pages that hold them, if and only if the request is not in the last page of the 64-bit range |
| SizeClasses.MoveBytes | KzAlloc/SizeUtils.h:149-154 | two moves of any class are at most 1 MiB |
| SizeClasses.MovesMost | KzAlloc/SizeUtils.h:149-154 | a move is two objects or else the most that fit into 256 KiB |
| SizeClasses.PagesHoldBatch | KzAlloc/CentralCache.h:59-75 | the pages asked for hold a whole batch and waste less than a page; a batch is one object or else the most that fit into 256 KiB, up to 512 |
| Allocator.NextInv | KzAlloc/CentralCache.cpp:22-217 | every step of every thread keeps the allocator's invariant, in any interleaving at lock granularity |
| Allocator.EveryObjectIsInOnePlace | KzAlloc/CentralCache.cpp:22-217 | in every run each carved slot is with a user or on exactly one list, once; none is lost and none appears; a span's list has only its own objects and a thread's list only objects of its class |
| Allocator.BlocksNeverOverlap | KzAlloc/ConcurrentAlloc.h:65-138 | in every run two blocks that users hold, small or large, are one and the same or disjoint; no address is handed out from two spans |
| Allocator.UseCountIsOutstanding | KzAlloc/CentralCache.cpp:51-53 | the use count is exactly the number of objects off the span's list, and with the list's length makes the carved count |
| Allocator.OnlyIdleSpansGoBack | KzAlloc/CentralCache.cpp:146-160 | a span goes to the page heap only when no object of it is anywhere else |
| Allocator.CachedSpanIsLive | KzAlloc/CentralCache.cpp:165-185 | the span pointer kept between lookups is never used after that span was released |
| Allocator.FoundByAddress | KzAlloc/ConcurrentAlloc.h:105-110 | an object's page leads to its span and class |
| Allocator.ThreadsDoNotHoard | KzAlloc/ThreadCache.h:155-172 | every list of every thread stays below its slow-start limit plus one move and below 1 MiB |
| Allocator.BatchWasOut | KzAlloc/CentralCache.cpp:141-144 | the use count is never less than what a batch subtracts |
| Allocator.NothingOut | KzAlloc/CentralCache.cpp:146-148 | with use count 0 every object of a span is on its own list |
| Allocator.RangesKept | KzAlloc/CentralCache.cpp:22-217 | no step other than taking a span from the page heap or giving one back changes which spans there are, their pages or the page map |
| AllocatorEffects.MallocTakesFront | KzAlloc/ThreadCache.h:141-149 | a malloc with something on the thread's list gives its front, and nothing else changes hands |
| AllocatorEffects.MallocMissDoubles | KzAlloc/ThreadCache.cpp:4-19 | otherwise the slow-start limit doubles up to one move, and the thread goes to the central cache |
| AllocatorEffects.FetchServes | KzAlloc/CentralCache.cpp:22-69 | the first object of the first span of the bucket that has one is handed out; a new span is asked for if and only if there is none |
| AllocatorEffects.ExtractGives | KzAlloc/CentralCache.cpp:38-58 | the user gets the first object, the thread's list the next ones up to the limit, the span keeps the rest |
| AllocatorEffects.SpanArrives | KzAlloc/CentralCache.cpp:80-83 | with a new span the thread goes on to carve it, without one the malloc ends with nothing |
| AllocatorEffects.CarveServes | KzAlloc/CentralCache.cpp:85-111 | a new span is carved and its first object handed out |
| AllocatorEffects.NewSpanIsNext | KzAlloc/CentralCache.cpp:107-111 | it goes in front of its bucket: as long as it has objects the next fetch takes them |
| AllocatorEffects.FreeTakes | KzAlloc/ConcurrentAlloc.h:98-119 | a freed block leaves its user, and no other block does; it is in front of the thread's list of its class, of which one move is on its way back if the list has become too long |
| AllocatorEffects.FreeSizedTakes | KzAlloc/ConcurrentAlloc.h:121-138 | the same with a size; of a thread without a cache, the block is on its way to its span |
| AllocatorEffects.FreeThenMalloc | KzAlloc/ThreadCache.h:141-172 | a free and then a malloc of that class by the same thread give the same block back and leave all lists as they were, unless the list had become too long |
| AllocatorEffects.ReleaseEnds | KzAlloc/CentralCache.cpp:114-217 | a thread that is giving objects back ends doing so, with nothing left on its way |
| AllocatorEffects.ComesHome | KzAlloc/CentralCache.cpp:114-217 | each object that was on its way is then on its span's list, or went to the page heap with its span |
| AllocatorEffects.ThreadExits | KzAlloc/ThreadCache.h:107-122 | a thread's exit ends with all of its lists empty, and users hold what they held |
| AllocatorEffects.NothingLeftBehind | KzAlloc/ThreadCache.h:107-122 | in every state a thread without a cache that is doing nothing has no object anywhere |
| AllocatorEffects.MallocLargeGives | KzAlloc/ConcurrentAlloc.h:69-82 | a large malloc gives one block, at the span's first page and at least as long as asked for |
| AllocatorEffects.FreeLargeTakes | KzAlloc/ConcurrentAlloc.h:112-114 | freeing a large block takes that one and no other |
| AllocatorEffects.FlushKeepsBusy | KzAlloc/CentralCache.cpp:130-162 | a flush puts every span whose use count has become 0 among those it is about to release |
| AllocatorEffects.NoSpanIsKeptIdle | KzAlloc/CentralCache.cpp:146-162 | in every run a span that a bucket holds has an object out, and a span on its way to the page heap is among those that its thread is about to give up |
| Composition.NewSpanRefines | KzAlloc/CentralCache.cpp:78-83 | the span that the page heap hands out for a class meets the condition under which the machine takes a new span, and both agree on spans and page map again afterwards |
| Composition.MallocLargeRefines | KzAlloc/ConcurrentAlloc.h:69-82 | the same for a large block, for every size whose rounding does not wrap |
| Composition.HandedOut | KzAlloc/PageCache.cpp:112-239 | pages handed out lie in no span that anybody holds and are mapped already; all other spans in use keep their pages and entries |
| Composition.CachedHandsOut | KzAlloc/PageCache.cpp:112-172 | carving a cached span is such a hand-out |
| Composition.SystemHandsOut | KzAlloc/PageCache.cpp:174-239 | so is the section after the system has given pages; if it fails nobody's span has changed |
| Composition.ReleaseRefines | KzAlloc/PageCache.cpp:241-321 | after either event that gives a span up, a freed large block or a thread returning an idle span, what taking it back does with its merges and reclaims changes only entries of pages that no span of the machine has |
| Composition.PrivateRefines | KzAlloc/CentralCache.cpp:22-217 | all other steps of the machine leave the agreement with the page heap as it is |
| Composition.StepKeeps | KzAlloc/CentralCache.cpp:61-217 | every step of the page heap and the machine together keeps both invariants and their agreement, with nothing assumed of the pages handed out |
| Composition.BlocksNeverOverlap | KzAlloc/ConcurrentAlloc.h:65-138 | in every run of both, two blocks that users hold are one and the same or disjoint |
| Composition.HeldPagesAreInUse | KzAlloc/ConcurrentAlloc.h:98-118 | in every run of both, each page under a held block came from the system and is in a span in use, which its entry names; no free span reaches into it |
| FreeList.ChainCut | KzAlloc/ThreadCache.h:58-81 | cutting a chain of links after any element leaves two chains |
| FreeList.ChainJoin | KzAlloc/ThreadCache.h:40-56 | one link store joins two chains |
| FreeList.FreeList.Push | KzAlloc/ThreadCache.h:12-22 | an object goes in front, with one link written |
| FreeList.FreeList.Pop | KzAlloc/ThreadCache.h:25-37 | the front object is taken |
| FreeList.FreeList.PushRange | KzAlloc/ThreadCache.h:40-56 | a linked range goes in front in its order |
| FreeList.FreeList.PopRange | KzAlloc/ThreadCache.h:58-81 | the first n objects come out as a list of their own that ends in null |
| CentralCache.OneAtATime | KzAlloc/CentralCache.cpp:114-217 | giving objects back one after the other, in any order, has the effect of giving all back at once |
| CentralCache.ReturnedInParts | KzAlloc/CentralCache.cpp:130-162 | an intermediate flush does not change the outcome |
| CentralCache.CentralCache.LookUp | KzAlloc/CentralCache.cpp:165-185 | the one-entry cache always gives the object's own span |
| CentralCache.CentralCache.SortOne | KzAlloc/CentralCache.cpp:170-210 | the object joins its span's batch or starts one, and no account changes yet |
| CentralCache.CentralCache.FlushOne | KzAlloc/CentralCache.cpp:138-155 | a batch goes to its span's list and count; a span that is idle then leaves its bucket |
| CentralCache.CentralCache.FlushBatches | KzAlloc/CentralCache.cpp:130-162 | flushing gives back exactly what the batches hold |
| CentralCache.CentralCache.ReleaseListToSpans | KzAlloc/CentralCache.cpp:114-217 | 16 batches, flushes in between and the cached lookup together do what giving back one object at a time does to every span |
| CentralCache.CentralCache.TakeRun | KzAlloc/CentralCache.cpp:38-55 | the first objects of the span's list, as many as asked for or there are, come out as their own list and are counted |
| WorkStealingDeque.NextInv | KzSTL/WorkStealingDeque.h:55-210 | every atomic step of the owner and of any number of thieves keeps the invariant |
| WorkStealingDeque.ExactlyOnce | KzSTL/WorkStealingDeque.h:55-210 | in every run each pushed item is returned at most once, unchanged, and is never lost |
| WorkStealingDeque.OneWinner | KzSTL/WorkStealingDeque.h:133-210 | the race for a position, the last one included, has one winner |
| WorkStealingDeque.RefinesDeque | KzSTL/WorkStealingDeque.h:55-210 | each step is a step of a sequential deque or leaves it alone |
| WorkStealingDeque.FailuresAreHonest | KzSTL/WorkStealingDeque.h:55-181 | pop fails only on an empty deque and push is cut short only by the room left |
| WorkStealingDeque.RewritesAfterExtraction | KzSTL/WorkStealingDeque.h:55-130 | head never passes the owner's resting tail, and a slot is rewritten only after its claimant has moved the item out |
| WorkStealingDeque.ClaimsHoldTheirItem | KzSTL/WorkStealingDeque.h:133-210 | what a claimant moves out is the item it claimed |
| WorkStealingDeque.StealTakesOldest | KzSTL/WorkStealingDeque.h:184-210 | a steal whose four steps are not disturbed takes the oldest item |
| WorkStealingDeque.StealFailsHonestly | KzSTL/WorkStealingDeque.h:184-210 | a steal fails only on an empty deque, or when the head has passed the one it read, or when the owner has begun to take the only item; it never fails with its own head still below the tail |
| WorkStealingDeque.PopTakesNewest | KzSTL/WorkStealingDeque.h:133-178 | an undisturbed pop takes the newest item, or changes nothing if there is none |
| WorkStealingDeque.PushAppends | KzSTL/WorkStealingDeque.h:55-127 | an undisturbed push appends all items there is room for, if no claimant is still moving an item out |
| WorkStealingDeque.RunFlags | KzSTL/WorkStealingDeque.h:67-82 | in every run a slot that the owner may come to write next is marked extracted, or the claimant of its last item is not done yet, so that a push waits for nobody else |
| MpmcQueue.NextInv | KzSTL/ArrayMpmcQueue.h:51-193 | every atomic step of any number of producers and consumers, single and bulk, keeps the invariant |
| MpmcQueue.ExactlyOnce | KzSTL/ArrayMpmcQueue.h:51-193 | the value dequeued at a position is the one enqueued there, exactly once, with head <= tail <= head + capacity |
| MpmcQueue.HistoryGrows | KzSTL/ArrayMpmcQueue.h:51-193 | along a run nothing enqueued or taken is revised |
| MpmcQueue.SequenceNumbersRise | KzSTL/ArrayMpmcQueue.h:86-92 | no step lowers a slot's sequence number |
| MpmcQueue.FullIsHonest | KzSTL/ArrayMpmcQueue.h:100-122 | a step of an enqueue, single or bulk, gives up if and only if it decides about the tail and the item one lap earlier is not fully dequeued |
| MpmcQueue.EmptyIsHonest | KzSTL/ArrayMpmcQueue.h:170-193 | a step of a dequeue, single or bulk, gives up if and only if it decides about the head and nothing is published there |
| MpmcQueue.EnqScanStep | KzSTL/ArrayMpmcQueue.h:57-74 | a step of the scan goes on over a free slot and stops at the first that is not |
| MpmcQueue.EnqueueAppends | KzSTL/ArrayMpmcQueue.h:51-122 | an undisturbed enqueue claims the longest run of free positions at the tail, up to what was asked, and publishes the items there in order; it fails exactly on a full queue |
| MpmcQueue.DeqScanStep | KzSTL/ArrayMpmcQueue.h:128-143 | a step of the scan goes on over a published slot and stops at the first that is not |
| MpmcQueue.DequeueTakesOldest | KzSTL/ArrayMpmcQueue.h:124-193 | an undisturbed dequeue takes the longest run of published items at the head, up to what was asked, in order; it fails exactly on an empty queue |
| MpmcQueue.OneSlotLosesItems | KzSTL/ArrayMpmcQueue.h:100-122 | with capacity 1 two enqueues in a row succeed and overwrite |
| MpmcQueue.TwoSlotsNeeded | KzSTL/ArrayMpmcQueue.h:19-33 | the capacity holds in every run if and only if it is at least 2 |
| MpscQueue.NextInv | KzSTL/ArrayMpscQueue.h:58-219 | every atomic step keeps the invariant although producers use stale heads |
| MpscQueue.SpinNeverIterates | KzSTL/ArrayMpscQueue.h:76-92 | the defensive wait on a slot's flag never waits |
| MpscQueue.PopsInClaimOrder | KzSTL/ArrayMpscQueue.h:58-219 | accepted items are popped in claim order, exactly once, and tail never exceeds head + capacity |
| MpscQueue.HistoryGrows | KzSTL/ArrayMpscQueue.h:58-219 | along a run nothing claimed or popped is revised |
| MpscQueue.EmptyIsHonest | KzSTL/ArrayMpscQueue.h:158-187 | pop fails exactly if the next claimed position is not published |
| MpscQueue.WhenPushIsTurnedAway | KzSTL/ArrayMpscQueue.h:59-75 | no step before a claim fails but the second look at the head, and that if and only if the tail loaded before is the tail of a full queue or has been passed by the head |
| MpscQueue.TurnedAwayWhileEmpty | KzSTL/ArrayMpscQueue.h:59-75 | a run in which the second case happens on an empty queue |
| MpscQueue.PushAppends | KzSTL/ArrayMpscQueue.h:58-150 | an undisturbed push or pushBulk publishes as many of its items as there is room for, in order |
| MpscQueue.PopTakesOldest | KzSTL/ArrayMpscQueue.h:158-219 | an undisturbed pop or popBulk takes the longest run of published items at the head, up to what was asked, in order |
| ObjectPool.Carve | KzAlloc/ObjectPool.h:120-145 | the carving loop links exactly the slots that fit the block |
| ObjectPool.SlotsOfBlock | KzAlloc/ObjectPool.h:104-145 | slots lie behind the block's link, inside the block, without overlap |
| ObjectPool.PopInstallsSuccessor | KzAlloc/ObjectPool.h:49-78 | a successful exchange of the tagged head installs the true successor, although the link may have been read from a slot another thread owned by then |
| ObjectPool.NextInv | KzAlloc/ObjectPool.h:49-162 | every step of pop, push and refill keeps the invariant |
| ObjectPool.NeverHandedOutTwice | KzAlloc/ObjectPool.h:49-100 | between two times a slot is handed out it was deleted |
| ObjectPool.FreeListIsAcyclic | KzAlloc/ObjectPool.h:49-162 | following the links from the head visits every free slot once and ends |
| ObjectPool.SlotsAreConserved | KzAlloc/ObjectPool.h:104-162 | every carved slot is on the stack, with a user or in one thread's hands |
| ObjectPool.DestructorFreesEveryBlock | KzAlloc/ObjectPool.h:26-34 | the block list holds every block obtained, once |
| ObjectPool.NewServesTop | KzAlloc/ObjectPool.h:49-78 | with a slot on the stack an undisturbed New takes the top one in three steps |
| ObjectPool.DeletePutsOnTop | KzAlloc/ObjectPool.h:80-100 | an undisturbed Delete puts its slot on top in three steps |
| ObjectPool.RefillPushesAll | KzAlloc/ObjectPool.h:104-162 | an undisturbed Refill puts all slots of the new block on the stack and the block on the list |
| ObjectPool.RefillsOnlyWhenEmpty | KzAlloc/ObjectPool.h:49-62 | the pool asks the system for memory if and only if it looks at the head and the stack is empty |
| ObjectPool.NewReturnsWithSlot | KzAlloc/ObjectPool.h:62-78 | in any interleaving New returns only by taking the top slot |
| ObjectPool.DeleteReturnsWhenDone | KzAlloc/ObjectPool.h:80-100 | in any interleaving Delete returns only with its slot put on top |
| SpinMutex.NextInv | KzSTL/SpinMutex.h:35-75 | every step keeps the invariant that ties the word to its holder and its waiters |
| SpinMutex.MutualExclusion | KzSTL/SpinMutex.h:35-75 | two threads never hold the lock |
| SpinMutex.TryLockIsExact | KzSTL/SpinMutex.h:72-75 | try_lock succeeds exactly if nobody holds the lock |
| SpinMutex.FreeLockIsNotSleptOn | KzSTL/SpinMutex.h:57-69 | no wakeup is lost: with the lock free and wanted, some awake thread takes it or notifies |
| SpinMutex.FreeLockIsTaken | KzSTL/SpinMutex.h:35-62 | an awake thread in lock takes a free lock within two of its steps |
| SpinMutex.UnlockHandsOver | KzSTL/SpinMutex.h:57-69 | the sleeper that unlock wakes takes the lock with the word at 2, so that it wakes the next |
| SpinMutex.LockReturnsWithLock | KzSTL/SpinMutex.h:35-62 | in any interleaving lock returns only with a lock that was free |
| SpinMutex.LockTakesOrSleeps | KzSTL/SpinMutex.h:35-62 | undisturbed, lock takes a free lock at once and otherwise sleeps after its 64 turns, with the word at 2 |
| SpinMutex.UnlockFrees | KzSTL/SpinMutex.h:64-69 | unlock frees the lock and goes on to notify exactly if the word was 2 |
| ThreadPool.NextInv | KzThread/ThreadPool.h:68-200 | every step of submitters, workers and stop keeps the invariant |
| ThreadPool.NoJobIsSleptOn | KzThread/ThreadPool.h:301-410 | a queue with a job while all workers are blocked means that somebody is still on the way to notify |
| ThreadPool.StopLeavesNobodyBlocked | KzThread/ThreadPool.h:68-101 | after stop's notify no worker is blocked, then or later |
| ThreadPool.SleeperLeaves | KzThread/ThreadPool.h:370-410 | a worker going to sleep during stop leaves the loop |
| ThreadPool.GrabbedJobsAlwaysFit | KzThread/ThreadPool.h:317-325 | the unchecked pushBulk of the grabbed jobs takes all of them |
| ThreadPool.SleepersAreCounted | KzThread/ThreadPool.h:376-405 | the sleeper count is the number of workers between its updates |
| ThreadPoolJobs.EventConserves | KzThread/ThreadPool.h:112-410 | in each step the jobs accepted are those started, by a worker that has fetched one or by the caller, plus what the open ones have grown by: those in a queue or in a thread's hands |
| ThreadPoolJobs.NoJobIsLost | KzThread/ThreadPool.h:112-410 | in every run the jobs accepted are the jobs started plus the open ones |
| ThreadPoolJobs.BeginsAndEnds | KzThread/ThreadPool.h:308-373 | a worker is in a job exactly from the step that starts it to the one that finishes it, in whatever it submits from there |
| ThreadPoolJobs.StartedJobsAreFinished | KzThread/ThreadPool.h:308-373 | in every run the jobs that workers have begun are those they have finished and those they are in |
| ThreadPoolProgress.WorkerRunsOwnJob | KzThread/ThreadPool.h:311-316 | a worker with jobs in its deque runs the newest of them, and only that one is gone |
| ThreadPoolProgress.WorkerTurnsToGlobal | KzThread/ThreadPool.h:311-319 | with none it turns to the global queue and its deque is as before |
| ThreadPoolProgress.WorkerTakesBatch | KzThread/ThreadPool.h:318-331 | it runs the first job of what it gets there and puts the others in its deque |
| ThreadPoolProgress.WorkerGoesRound | KzThread/ThreadPool.h:333-351 | with nothing there either it runs a job of the first other worker, from the one picked by chance on, that has one, and spins if none has |
| ThreadPoolProgress.WorkerStealsFirst | KzThread/ThreadPool.h:336-345 | the round of a thief from any point on takes the first job it passes |
| ThreadPoolProgress.StealsIfItCan | KzThread/ThreadPool.h:336-345 | the round comes to nothing if and only if no other worker has a job |
| ThreadPoolProgress.SpinTakesJob | KzThread/ThreadPool.h:355-361 | a job that shows up in the global queue is run from the spinning loop |
| ThreadPoolProgress.WorkerSpins | KzThread/ThreadPool.h:353-376 | without one the worker spins 256 times and goes to sleep |
| ThreadPoolProgress.SleepsOnlyWithoutJobs | KzThread/ThreadPool.h:376-405 | going to sleep ends blocked if all queues are empty, and at the top of the loop with the counter as before if one is not |
| ThreadPoolProgress.NoWorkerLeavesEarly | KzThread/ThreadPool.h:308-388 | in every run no worker has left, nor is about to, while the pool runs |
| ThreadPoolProgress.LeavesWhenStopped | KzThread/ThreadPool.h:308-308 | a worker at the top of its loop leaves once the pool does not run |
| ThreadPoolProgress.SubmissionBegins | KzThread/ThreadPool.h:131-154 | while the pool runs, a submission of a worker goes to its own deque first and that of a client to the global queue |
| ThreadPoolProgress.LocalJobsAreQueued | KzThread/ThreadPool.h:141-152 | as many of a worker's jobs go to its deque as fit, a sleeper is to be woken if there is one, and the others are left for the global queue |
| ThreadPoolProgress.GlobalJobsAreQueued | KzThread/ThreadPool.h:154-162 | those the global queue takes are queued and announced |
| ThreadPoolProgress.SleeperIsWoken | KzThread/ThreadPool.h:171-174 | announcing raises the notifier and gets a blocked worker to look again |
| ThreadPoolProgress.StopRuns | KzThread/ThreadPool.h:72-78 | stop changes the state, raises the notifier and wakes every blocked worker |
| ThreadPoolProgress.StopEnds | KzThread/ThreadPool.h:79-99 | with all workers gone it leaves the pool stopped |
| IpParser.QuadExact | KzNet/IpParser.h:50-88 | parseIPv4Raw accepts exactly the canonical dotted quads; parsing and printing are inverse |
| IpParser.ParseIPv4Raw | KzNet/IpParser.h:50-88 | the loop decides exactly that and gives the 32-bit value of the octets |
| IpParser.ParseIPv4Embedded | KzNet/IpParser.h:106-116 | writes the four octets in network order at the position and nothing else, or nothing |
| IpParser.FormAccepted | KzNet/IpParser.h:120-221 | every way to write an address is accepted with its 16 bytes: the double colon anywhere, a dotted tail |
| IpParser.AcceptedIsForm | KzNet/IpParser.h:120-221 | whatever is accepted is one of these ways |
| IpParser.AcceptsExactlyTheForms | KzNet/IpParser.h:120-221 | a string is accepted with an address if and only if it is a form of that address |
| IpParser.ReadGroup | KzNet/IpParser.h:157-172 | a group is its maximal run of one to four hexadecimal digits |
| IpParser.NextGroup | KzNet/IpParser.h:152-196 | one turn of the loop writes two bytes or the dotted tail and goes on behind them |
| IpParser.Finish | KzNet/IpParser.h:199-218 | moving the bytes behind the double colon to the end and zeroing the gap gives the expanded address |
| IpParser.ParseIPv6 | KzNet/IpParser.h:120-221 | the loop over the buffer accepts and writes exactly what the grammar says |
| Decimal.DecExact | KzAlgorithm/Jeaiii.h:126-152 | canonical decimal text is the one string of digits without a leading zero that has the number's value |
| Jeaiii.Estimate | KzAlgorithm/Jeaiii.h:70-91 | for each of the 64 bit lengths 1233/4096 of it is the digit count of the shortest or one less than that of the longest number |
| Jeaiii.CountDigitsExact | KzAlgorithm/Jeaiii.h:70-91 | the estimate and one table lookup give the digit count of every 64-bit number |
| Jeaiii.PairWordIs | KzAlgorithm/Jeaiii.h:99-120 | below 100 multiplying by 103/1024 divides by ten, and the stored word holds both digits |
| Jeaiii.WritePair | KzAlgorithm/Jeaiii.h:99-120 | writes the two digits and nothing else |
| Jeaiii.PairsFromEnd | KzAlgorithm/Jeaiii.h:135-146 | the backward loop has written all but the one or two leading digits |
| Jeaiii.ToChars | KzAlgorithm/Jeaiii.h:126-155 | writes exactly the canonical decimal of any 64-bit number, from the buffer's start to start plus digit count |
| Jeaiii.ToCharsSigned | KzAlgorithm/Jeaiii.h:158-166 | the same for signed numbers, the least one included |
| Jeaiii.PrintedParsesBack | KzAlgorithm/Jeaiii.h:126-166 | what is printed has the number's sign and value |
| WireFormat.ZigZagIs | KzRpc/Serializer.h:132-137 | the shift and exclusive-or count 0, -1, 1, -2, ... in every width |
| WireFormat.ZigZagInverse | KzRpc/Serializer.h:342-344 | both directions of ZigZag are inverse in every width |
| WireFormat.VarintRoundTrip | KzRpc/Serializer.h:139-143 | a base-128 number followed by anything is read back, with the shifts and casts of its width |
| WireFormat.VarintBounds | KzRpc/Serializer.h:322-349 | what is read fits its type and is not longer than what was consumed |
| WireFormat.IntBounds | KzRpc/Serializer.h:322-367 | whatever bytes an integer is read from, it is in range and took at least its encoding's length |
| WireFormat.DecodedBounds | KzRpc/Serializer.h:183-291 | whatever bytes the format gives a value for, the value has its type and took at least its full length, and no sum of a position and a size in them wraps, so that the reader reads them as the format says |
| WireFormat.StringExactly | KzRpc/Serializer.h:230-243 | with the 64-bit sum of `check_bounds` the string reader does what the format says if and only if the size and the position behind it add up to less than 2^64; otherwise it accepts a string that ends past the text and moves to before that string |
| WireFormat.ReachesPastTheEnd | KzRpc/Serializer.h:303-305 | ten bytes that are accepted as a string of 2^64 - 1 bytes, where the format says end of buffer |
| WireFormat.FixedIsInRange | KzRpc/Serializer.h:308-319 | in the fixed format the sum never wraps, for any bytes and any type, nested strings included |
| WireFormat.EncodedIsInRange | KzRpc/Serializer.h:42-119 | nor does it on a storable value's own bytes, at any position and whatever follows |
| WireFormat.EncodedLength | KzRpc/Serializer.h:42-119 | what is written is that long exactly if no vector in the value is empty |
| WireFormat.RoundTrip | KzRpc/Serializer.h:42-367 | a value followed by anything comes back with exactly the written bytes consumed, if and only if no vector in it is empty and its sizes fit |
| WireFormat.FieldsRoundTrip | KzRpc/Serializer.h:42-367 | the same for any sequence of fields |
| WireFormat.BulkWrite | KzRpc/Serializer.h:107-117 | copying a vector's memory appends what writing its elements appends |
| WireFormat.BulkElements | KzRpc/Serializer.h:264-289 | from any bytes the elements read one by one are those of one copy, or both fail the same way |
| WireFormat.BulkRead | KzRpc/Serializer.h:257-291 | a vector read by one copy is the vector read element by element, errors included |
| Serializer.Serializer.WriteVarint | KzRpc/Serializer.h:139-143 | the loop appends the base-128 bytes |
| Serializer.Serializer.WriteVector | KzRpc/Serializer.h:98-119 | either path appends the encoding; an empty vector appends nothing |
| Serializer.Serializer.Write | KzRpc/Serializer.h:42-119 | appends the encoding of any value |
| Serializer.Deserializer.ReadVarint | KzRpc/Serializer.h:322-349 | the loop reads the number or sets the error that the format says |
| Serializer.Deserializer.CheckBounds | KzRpc/Serializer.h:303-305 | says yes exactly if that many bytes are left or if their end is at 2^64 or beyond, where the sum wraps |
| Serializer.Deserializer.CutString | KzRpc/Serializer.h:230-243 | cuts the view and moves as the 64-bit arithmetic says, for any bytes |
| Serializer.Deserializer.ReadString | KzRpc/Serializer.h:246-253 | a string is its size and that many bytes, or end of buffer, if the size and the position behind it add up to less than 2^64 |
| Serializer.Deserializer.ReadElements | KzRpc/Serializer.h:274-289 | the loop reads the elements in order and stops at the first error, if no string's sum wraps on the way |
| Serializer.Deserializer.ReadVector | KzRpc/Serializer.h:256-291 | either path reads what the format says, under the same condition |
| Serializer.Deserializer.Read | KzRpc/Serializer.h:183-291 | reads what the format says, errors included, if no string met on the way has a size that wraps its sum; after an error it does nothing |

## Left out

- The C++ memory orders, padding, prefetching, pinning and NUMA; `mmap`, `madvise`, epoll, sockets, files and clocks.
- Wrap-around of the queues' counters and of the object pool's tag.
- Reads of a neighbour span that belongs to another shard happen without that shard's lock; the model's sections are atomic, also in these reads.
- Metadata exhaustion in the page heap: making a `Span` always succeeds, because `ObjectPool` aborts instead of returning null.
- The choice and lazy construction of shards; a shard's threshold is any number.
- Composition: in its runs a section of the page heap does anything that the contracts of PageHeap's methods allow; the class is not written over the tree of PageMap.
- CentralCache: one thread at a time, as under the bucket's lock; other threads are in Allocator.
- `realloc` in place and `malloc_aligned`.
- ThreadPool: `start` with a first CPU other than 0, which indexes the workers beyond their array, and the jobs' own effects.
- ThreadPoolJobs: jobs are counted, not told apart; that an item in a deque or queue is handed on once and unchanged is in WorkStealingDeque and MpmcQueue.
- MpmcQueue: `dequeueBulk` with a maximum of 0, which does not return while the queue has items.
- IpParser: the byte order conversion of `parseIPv4`; characters stand for bytes.
- Serializer.Deserializer.Read: does not say what a string that reaches past the text holds, nor what is read after it, because the code leaves that undefined.
- Serializer: vectors of bool in the fixed format, which the reader does not compile; elements that only refer to their data (spans, string views), which the fixed format would copy as pointers.
- Serializer.Serializer.Write: takes any nesting of vectors, but the code has no `operator<<` for a `std::vector`: a vector is written as a span of it, so that nested vectors are written as spans of spans, and only in the varint format.
- WireFormat: a floating-point number is the bytes it has in memory.
- Jeaiii: the `int` overload, which only widens.
- TimerList and TimerQueue, RpcChannel's slot map, AsyncLogging, EventLoop and the connection classes, KzString, Function, Job, Task and Expected, formatting of times and hexadecimal numbers, benchmarks.
