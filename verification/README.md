# Verified model of the comms queue, the bundle layer and the discovery cache

Packets in the comms layer (`grpc/comms_v2_bundles`) travel through a lock-free multi-producer, multi-consumer queue
(`concurrentqueue.h`). Above it, accessors batch packets per destination, writers transmit the batches and return
every packet to the accessor that submitted it. Next to it, discovery servers (`grpc/discovery`) mirror a prefix of an
etcd store in a local cache. This project models these three and proves what they are for.

`dafny verify dfyconfig.toml` checks the whole project.

## The queue

Concurrent parts are sequentially consistent state machines, one atomic operation per step, for any number of threads
and any schedule; the data structure of one producer is a class over arrays, with a ghost sequence of its elements.

- `FreeList`: the reference-counted CAS free list. Safe for fewer than 2^31 - 1 threads, so that reference counts stay
  below the flag bit.
- `DequeueProtocol`: the optimistic dequeue on head, tail, optimistic count and overcommit.
- `BlockReuse`, `ImplicitReuse`: the blocks and index entries of either kind of producer are reused while consumers hold
  claimed indices.
- `BlockConservation`: who has which block of the pool.
- `ProducerHash`: the chain of hash tables from thread to implicit producer.
- `BlockPool`, `ExplicitQueue`, `ImplicitQueue`: block pool, block ring, circular block index, single and bulk
  operations with their rollbacks, for block sizes and pool sizes in general; both kinds of producer are FIFO queues.
- `Circular`, `BlockMath`, `ModArith`: wrapped comparison and lookup, rounding to powers of two, block arithmetic.
- `Collections`, `Options`: facts about sets and sequences, the optional value.
- `IndexGrowth`: growing either block index. `BlockStatus`: the two ways a block knows which elements are gone.
- `TryDequeue`: the token-less `try_dequeue` over all producers, with any number of threads inside.
- `TokenDequeue`: the token-based bulk dequeue over the cycle of producers.

Allocation mode is `CannotAlloc` throughout, as the comms code only calls the `try_` forms; elements do not throw.

## The bundle layer

- `Bundles`, `Accessors`, `Writers`: the bundle, `submit_n` and `submit_flush`, the writer's return of packets.
- `CatchStream`: `catch_n` on the queue of module `ImplicitQueue`.
- `CommsRun`: whole runs with any number of accessors and writers, whose `try_dequeue` goes by atomic operations on the
  sub-queues of the submit queue. `CommsReturns`: the return codes over whole runs. `CommsProgress`: every packet can
  still come back. `CommsShutdown`, `CommsLeftBehind`: the shutdown.

Two results are not what one would hope for. After a shutdown with no submit under way the submit queue need not be
empty: a writer that finds nothing looks at its flag only afterwards, and a bundle accepted in between stays in the
queue (`CommsLeftBehind.PacketLeftBehind`). If no writer is inside `try_dequeue` when the shutdown begins, or none was at
some moment since the last deposit, this can only happen when all writers are at that point; these are equivalences
(`CommsShutdown.ShutdownEmptiesExactly`, `CommsShutdown.EmptiesExactly`). A writer inside it can hide a bundle from the
others (`CommsLeftBehind.MissedFromInside`); with one writer, and when the last writer is told to stop, the condition is
exact for that case too (`CommsShutdown.SoleWriterEmptiesExactly`, `CommsShutdown.ShutdownLeavesNothing`). And the result
of the writer's `try_enqueue` is ignored, so a packet that the reap queue refuses is lost (`Writers.LoseOne`);
`Writers.ReturnBundle` and `Writers.LostFrom` say exactly when. `CommsRun` takes that call to succeed.

## The discovery cache

- `ServiceCache`: the handlers on the cache, as a map from service identity to row.
- `Replica`: any interleaving of changes, watch batches, resyncs and restarts. Agreement is up to the ttl, which row
  equality ignores (`server/cache.py:99-105`).
- `KvCodec`: services as keys and values. `RangeEnd`: the range that selects a prefix.

Here too: a change between the first snapshot and the start of the watch is missed until the next resync
(`Replica.LostChange`), a snapshot that is older than a delivered change undoes it (`Replica.OlderSnapshotUndoes`), and
one value that cannot be parsed loses a whole response (`Replica.RolledBackIsLost`); `Replica.AgreesExactly` is the exact
condition. A namespace with other than two slashes, or an identity with a slash,
does not round-trip (`KvCodec.RoundTrip`), and `range_end` keeps trailing 0xff bytes (`RangeEnd.SelectsPrefixExactly`);
both are stated as equivalences.

## Model

| member | source | states |
|---|---|---|
| `FreeList.StepKeepsInv` | grpc/comms_v2_bundles/concurrentqueue.h:1438-1517 | Every atomic operation of `add`, `try_get` and `add_knowing_refcount_is_zero`, by any thread in any state the invariant allows, keeps the invariant: each node has one place, its reference count is the number of its holders plus the list's own reference plus the flag, and the linked nodes form a duplicate-free chain from the head. |
| `FreeList.ListAcyclic` | grpc/comms_v2_bundles/concurrentqueue.h:1452-1480 | In every reachable state the walk along `freeListNext` from the head ends and meets no node twice. |
| `FreeList.WinningCasSeesCurrentNext` | grpc/comms_v2_bundles/concurrentqueue.h:1465-1480 | No ABA: when the exchange in `try_get` succeeds, the `next` it read earlier is the node's present `next`, so the new head is the rest of the list. |
| `FreeList.TakenByOne` | grpc/comms_v2_bundles/concurrentqueue.h:1468-1478 | The thread that unlinked a node is the only one that did: the node is not on the list, and no other thread is adding or about to return it. |
| `FreeList.HandOutsMatchAdds` | grpc/comms_v2_bundles/concurrentqueue.h:1438-1490 | Over any run, adds and hand-outs of a node alternate: it is never handed out twice without an add in between, and no add is swallowed. |
| `FreeList.HandOutsMatchAddsFromInit` | grpc/comms_v2_bundles/concurrentqueue.h:1434-1490 | From the empty list: hand-outs and adds of a node are equal in number while its user has it, and it has one more add otherwise, whatever the interleaving. |
| `FreeList.FlagClearWhereAssumed` | grpc/comms_v2_bundles/concurrentqueue.h:1438-1474 | The assertion after the winning exchange always holds, and so does the assumption of the two `fetch_add`s that set the flag: `SHOULD_BE_ON_FREELIST` is clear there. |
| `FreeList.DeferredHasHolder` | grpc/comms_v2_bundles/concurrentqueue.h:1443-1449 | A node whose add was deferred is never lost: some thread still holds a reference, no holder can win it by an exchange, and the holder that lets go last is the one that starts adding it. |
| `FreeList.QuiescentNodesSettled` | grpc/comms_v2_bundles/concurrentqueue.h:1438-1517 | When no thread is inside the list's code, every node is either with its user with count zero, or linked once with count one; nothing stays deferred or half added. |
| `FreeList.EmptyAnswerRead` | grpc/comms_v2_bundles/concurrentqueue.h:1452-1480 | In every reachable state a `try_get` that is about to return null has read the head as null, by its load or in the exchange that failed; nothing else makes it return null. |
| `FreeList.NothingWhenEmpty` | grpc/comms_v2_bundles/concurrentqueue.h:1452-1490 | Over any schedule of any threads: a call that returns null shows that the list was empty at some moment of the call. |
| `FreeList.GetAlone` | grpc/comms_v2_bundles/concurrentqueue.h:1452-1480 | A `try_get` while nobody else is inside returns the first node, if there is one, and takes just it off the list; on an empty list it returns null and changes nothing. |
| `FreeList.AddAlone` | grpc/comms_v2_bundles/concurrentqueue.h:1438-1517 | An `add` while nobody else is inside puts the node at the front of the list. |
| `DequeueProtocol.StepKeepsInv` | grpc/comms_v2_bundles/concurrentqueue.h:1939-2033 | Every enqueue and every atomic operation of a single or bulk dequeue keeps the invariant on the four counters: every unit of the optimistic count is pending, committed, claimed or undone, and a committed unit is covered by the tail even after discounting only the units undone before it. This is why a stale overcommit value does no harm. |
| `DequeueProtocol.ClaimsWithinTail` | grpc/comms_v2_bundles/concurrentqueue.h:1968-1984 | In every reachable state head plus all claims already decided on is at most the tail. |
| `DequeueProtocol.ClaimYieldsElements` | grpc/comms_v2_bundles/concurrentqueue.h:2232-2256 | The `fetch_add` on the head always yields indices of enqueued elements. |
| `DequeueProtocol.EachElementTakenOnce` | grpc/comms_v2_bundles/concurrentqueue.h:1939-2033 | In every interleaving, an index below the head was claimed by exactly one consumer and any other index by none, and the head is at most the tail. |
| `DequeueProtocol.DeliveredIsPrefix` | grpc/comms_v2_bundles/concurrentqueue.h:2232-2256 | Taken together in the order of their `fetch_add`s, the claims deliver exactly the first elements enqueued, in order: the sub-queue is a FIFO. |
| `DequeueProtocol.CountersBalance` | grpc/comms_v2_bundles/concurrentqueue.h:1942-2030 | In every reachable state the optimistic count is the head plus the overcommit plus the reservations in flight. |
| `DequeueProtocol.QuiescentDequeueExact` | grpc/comms_v2_bundles/concurrentqueue.h:1942-2033 | With no consumer in the middle of a call, a dequeue from a non-empty sub-queue succeeds, a bulk dequeue takes exactly min(max, tail - head) elements from the head on, and on an empty one nothing changes. |
| `DequeueProtocol.MissMeansTaken` | grpc/comms_v2_bundles/concurrentqueue.h:1942-2030 | Over any schedule that begins with nobody in a call and has no enqueue: as soon as one call misses, every element is claimed or going to be claimed by calls under way, so that the sub-queue is empty whenever nobody is in a call afterwards. Losers of a race cannot make each other miss an element that nobody gets. |
| `DequeueProtocol.MissesElement` | grpc/comms_v2_bundles/concurrentqueue.h:1942-2030 | It takes such a beginning: in a reachable state a call finds nothing although an unclaimed element is there and nothing is enqueued during the call, because another consumer is about to give a reservation back. |
| `TryDequeue.StepKeepsInv` | grpc/comms_v2_bundles/concurrentqueue.h:1103-1136 | Every atomic operation of the token-less `try_dequeue`, by any number of threads on any number of sub-queues to which producers may be added, keeps the invariant: a thread is in one sub-queue's dequeue at a time, wants one element, and each sub-queue's counters keep theirs. |
| `TryDequeue.CallEffect` | grpc/comms_v2_bundles/concurrentqueue.h:1103-1136 | A call that ends with an element has claimed one, the oldest of one sub-queue; no other operation of it claims anything. |
| `TryDequeue.FailsOnlyWhenTaken` | grpc/comms_v2_bundles/concurrentqueue.h:1098-1136 | Over any schedule that begins with nobody inside and has no enqueue: a call that fails, after scoring up to three producers and trying all, shows that every element of every sub-queue is claimed or going to be; whenever nobody is inside afterwards, all are empty. |
| `TryDequeue.AloneExact` | grpc/comms_v2_bundles/concurrentqueue.h:1103-1136 | A call by itself finds an element if and only if some sub-queue has one, and then takes just one, the oldest of its sub-queue; otherwise nothing changes. |
| `TryDequeue.TriesBestFirst` | grpc/comms_v2_bundles/concurrentqueue.h:1103-1121 | Scoring by itself: the producer tried first is the largest of the first three that are not empty, and the call gives up at once if and only if all are empty. |
| `ProducerHash.StepKeepsInv` | grpc/comms_v2_bundles/concurrentqueue.h:3374-3524 | Every operation of `get_or_add_implicit_producer` keeps the invariant: in each table a thread's key sits on its probe path with no empty slot before it, its value is the thread's one producer, and only threads whose number is below three quarters of the capacity are in the table. |
| `ProducerHash.SameThreadSameProducer` | grpc/comms_v2_bundles/concurrentqueue.h:3374-3524 | Over any run two calls return the same producer if and only if they are made by the same thread. |
| `ProducerHash.TablesNeverFill` | grpc/comms_v2_bundles/concurrentqueue.h:3439-3481 | Over any run every table, lazy copies included, holds fewer keys than three quarters of its capacity, so an empty slot remains. |
| `ProducerHash.PathShort` | grpc/comms_v2_bundles/concurrentqueue.h:3395-3436 | The pigeonhole: the slots a probe has passed are distinct and taken by threads with distinct numbers, so there are fewer of them than three quarters of the capacity. |
| `ProducerHash.ProbesBounded` | grpc/comms_v2_bundles/concurrentqueue.h:3402-3436 | All three probe loops end: no thread ever probes further than that. |
| `ProducerHash.FreshTableAccepts` | grpc/comms_v2_bundles/concurrentqueue.h:3445-3481 | A thread that has just published a table need not wait for another one: its number is below the new table's limit. |
| `ProducerHash.NewCapacity` | grpc/comms_v2_bundles/concurrentqueue.h:3447-3450 | The doubling loop ends with a capacity whose half exceeds the thread's number. |
| `ProducerHash.CallReturns` | grpc/comms_v2_bundles/concurrentqueue.h:3374-3524 | A call returns after a bounded number of its own steps, with the thread's producer, from any reachable state in which no other thread is in the middle of a resize, wherever the others are otherwise. |
| `BlockPool.Pool.Requisition` | grpc/comms_v2_bundles/concurrentqueue.h:3073-3092 | `requisition_block<CannotAlloc>` hands out a block nobody owns, and fails exactly when none is available. |
| `BlockPool.Pool.Add` | grpc/comms_v2_bundles/concurrentqueue.h:3050-3056 | The block leaves its owner and is available again; no other block changes hands. |
| `BlockPool.Pool.Conserved` | grpc/comms_v2_bundles/concurrentqueue.h:3022-3092 | Blocks owned by producers and blocks still available always add up to the pool. |
| `BlockPool.Pool.Fill` | grpc/comms_v2_bundles/concurrentqueue.h:2152-2226 | The second half of a bulk enqueue, following `next` from the first block: all elements of the batch get stored behind those already there, each in the cell its index names. |
| `BlockPool.Pool.Read` | grpc/comms_v2_bundles/concurrentqueue.h:2267-2308 | Moving out a stretch of indices of one block gives exactly the elements with these indices, in order. |
| `ExplicitQueue.ExplicitProducer.constructor` | grpc/comms_v2_bundles/concurrentqueue.h:1751-1767 | The index of a new producer is a power of two, has room for the whole pool, and is the initial size or less than twice the pool. |
| `ExplicitQueue.IndexSize` | grpc/comms_v2_bundles/concurrentqueue.h:1760-1765 | Rounding the pool size up to a power of two, halving it, taking the larger of the two halves and doubling gives such a size. |
| `ExplicitQueue.ExplicitProducer.Enqueue` | grpc/comms_v2_bundles/concurrentqueue.h:1833-1937 | Succeeds if and only if the blocks in use and the empty blocks of the ring have room, or the pool has the block still needed and that block ends less than half the range of indices past the head and within the size limit; then the element is appended to the queue's contents, otherwise they are unchanged; and the ring, index, counters and cells stay consistent. |
| `ExplicitQueue.ExplicitProducer.EnqueueBulk` | grpc/comms_v2_bundles/concurrentqueue.h:2039-2230 | All or nothing: it succeeds if and only if the blocks in use and the empty ones of the ring suffice for the whole batch, or the pool has as many as are still needed and the last of them ends less than half the range of indices past the head and within the size limit. Then it appends the batch in order; a failure leaves the contents as they were, with every live block still found by lookup. |
| `ExplicitQueue.ExplicitProducer.ClaimFromRing` | grpc/comms_v2_bundles/concurrentqueue.h:2057-2068 | Empty blocks ahead are claimed one by one as far as needed or possible; the claimed blocks are exactly the next block numbers after the tail's, and all indexed blocks keep their entries. |
| `ExplicitQueue.ExplicitProducer.ClaimFromPool` | grpc/comms_v2_bundles/concurrentqueue.h:2071-2135 | The rest comes from the pool; succeeds if and only if nothing is needed, or the pool has enough blocks and the last one ends less than half the range of indices past the head and within the size limit. |
| `ExplicitQueue.ExplicitProducer.NeverOverLimit` | grpc/comms_v2_bundles/concurrentqueue.h:1859-1866 | With a size limit, rounded up to whole blocks, the queue never holds more elements than that. |
| `ExplicitQueue.ExplicitProducer.Claim` | grpc/comms_v2_bundles/concurrentqueue.h:2045-2135 | The blocks claimed by a bulk enqueue are exactly the multiples of BLOCK_SIZE in [tail, tail + count), or everything is undone. |
| `ExplicitQueue.ExplicitProducer.Undo` | grpc/comms_v2_bundles/concurrentqueue.h:2079-2084 | The rollback brings ring and index back to the last block in use, although the blocks injected from the pool stay in the ring. |
| `ExplicitQueue.ExplicitProducer.ResetBlocks` | grpc/comms_v2_bundles/concurrentqueue.h:2137-2150 | Resetting walks exactly over the claimed blocks and puts them in use; no other block's counter changes. |
| `ExplicitQueue.ExplicitProducer.Dequeue` | grpc/comms_v2_bundles/concurrentqueue.h:1939-2033 | Returns the oldest element, if there is one, and removes it from the contents. |
| `ExplicitQueue.ExplicitProducer.DequeueBulk` | grpc/comms_v2_bundles/concurrentqueue.h:2232-2320 | Returns the oldest min(max, size) elements, in order, across block boundaries, and removes exactly these. |
| `ExplicitQueue.ExplicitProducer.LookupHead` | grpc/comms_v2_bundles/concurrentqueue.h:1990-2003 | The offset computed from the published index entry leads to the block of the oldest element, whatever the rotation of the index. |
| `ExplicitQueue.ExplicitProducer.SetManyEmpty` | grpc/comms_v2_bundles/concurrentqueue.h:1606-1612 | The counting form: after counting elements as dequeued, each block's counter again says how many of its elements are gone, and a used-up block becomes one the producer may reuse. |
| `BlockStatus.Block.SetManyEmpty` | grpc/comms_v2_bundles/concurrentqueue.h:1595-1613 | Both forms a block can have, a flag per element, kept from the last to the first, or a count, record exactly these elements as gone; only the counting form reports the block as empty. The source's assertions hold. |
| `BlockStatus.Block.IsEmpty` | grpc/comms_v2_bundles/concurrentqueue.h:1549-1572 | In both forms: true if and only if all elements are gone. |
| `BlockStatus.FlagsCount` | grpc/comms_v2_bundles/concurrentqueue.h:1574-1613 | The two forms agree: with the same elements gone, the count is the number of flags set, and all flags are set if and only if the count says the block is empty. |
| `BlockReuse.FlagsInstead` | grpc/comms_v2_bundles/concurrentqueue.h:1549-1572 | Under concurrent consumers: a block whose flags stand for the indices marked empty tells the producer just what its count does. |
| `BlockReuse.MarkingSetsFlags` | grpc/comms_v2_bundles/concurrentqueue.h:1595-1605 | And they go on doing so: what a consumer marks are positions not yet set, and setting them gives the flags of the new state, in that block and no other. |
| `ExplicitQueue.ExplicitProducer.PoolInRing` | grpc/comms_v2_bundles/concurrentqueue.h:1760-1765 | When the ring is as long as the index, the whole pool is in it; this is why the `CannotAlloc` index never has to grow. |
| `ExplicitQueue.EmptyAhead` | grpc/comms_v2_bundles/concurrentqueue.h:1842-1851 | The block ahead of the tail's is empty exactly when not all blocks of the ring are in use or claimed. |
| `ExplicitQueue.Unclaim` | grpc/comms_v2_bundles/concurrentqueue.h:2102-2107 | Turning the ring back to the block it ended with before the claims makes every block in use keep its number. |
| `ExplicitQueue.IndexClaim` | grpc/comms_v2_bundles/concurrentqueue.h:2062-2066 | Writing the entry of a newly claimed block overwrites no entry that is still needed, as long as the ring is no longer than the index. |
| `ExplicitQueue.ConsumeFilled` | grpc/comms_v2_bundles/concurrentqueue.h:1595-1613 | Dequeuing elements of the head's block keeps the relation between counters and head for all blocks of the ring. |
| `ImplicitQueue.ImplicitProducer.constructor` | grpc/comms_v2_bundles/concurrentqueue.h:2408-2414 | A new producer is an empty queue with an index of the initial size, all of whose entries are free. |
| `ImplicitQueue.ImplicitProducer.Enqueue` | grpc/comms_v2_bundles/concurrentqueue.h:2471-2533 | Appends the element if and only if the tail's block has room, or there are an index entry and a pool block for a new one and it ends less than half the range of indices past the head and within the size limit; a failure changes nothing, not even the index tail. |
| `ImplicitQueue.ImplicitProducer.EnqueueBulk` | grpc/comms_v2_bundles/concurrentqueue.h:2610-2759 | All or nothing, decided by the same quantities for the blocks the batch needs; after a failure the contents, the live blocks, the index tail, the tail block and the set of blocks with producers are what they were. |
| `ImplicitQueue.ImplicitProducer.ClaimBlocks` | grpc/comms_v2_bundles/concurrentqueue.h:2630-2690 | Claims index entries and blocks one by one; succeeds if and only if the size limit, the pool and the free index entries suffice. |
| `ImplicitQueue.ImplicitProducer.NeverOverLimit` | grpc/comms_v2_bundles/concurrentqueue.h:2475-2483 | With a size limit, rounded up to whole blocks, the queue never holds more elements than that. |
| `ImplicitQueue.ImplicitProducer.Undo` | grpc/comms_v2_bundles/concurrentqueue.h:2647-2664 | The rollback gives every requisitioned block back, nulls its entry and rewinds the index tail to its old position. |
| `ImplicitQueue.ImplicitProducer.UndoOne` | grpc/comms_v2_bundles/concurrentqueue.h:2653-2660 | One round of the undo loop: it nulls the right entry although it looks the block up while the index tail already stands at an earlier or later one. |
| `ImplicitQueue.ImplicitProducer.AddBlocksToFreeList` | grpc/comms_v2_bundles/concurrentqueue.h:3058-3065 | Exactly the claimed blocks are given back, each once. |
| `ImplicitQueue.ImplicitProducer.Dequeue` | grpc/comms_v2_bundles/concurrentqueue.h:2535-2604 | Returns the oldest element, if any; a block used up by it leaves this producer and becomes available. |
| `ImplicitQueue.ImplicitProducer.DequeueBulk` | grpc/comms_v2_bundles/concurrentqueue.h:2764-2864 | Returns the oldest min(max, size) elements, in order; the blocks used up leave the producer and nobody else's block does. |
| `ImplicitQueue.ImplicitProducer.LookupEntry` | grpc/comms_v2_bundles/concurrentqueue.h:2924-2947 | From whichever live or just rewound block the index tail stands at, the lookup finds the entry of the block of any index in the index; both assertions of the source hold. |
| `ImplicitQueue.ImplicitProducer.InsertIndexEntry` | grpc/comms_v2_bundles/concurrentqueue.h:2885-2916 | Takes the entry after the tail if and only if fewer blocks are live than the index has entries; otherwise nothing changes. |
| `ImplicitQueue.ImplicitProducer.AddBlock` | grpc/comms_v2_bundles/concurrentqueue.h:2486-2514 | A new tail block needs a free entry and an available block; without one the entry taken is given back and index, blocks and pool are unchanged. |
| `ImplicitQueue.ImplicitProducer.SetManyEmpty` | grpc/comms_v2_bundles/concurrentqueue.h:2842-2852 | When the count completes the block, its entry is nulled and it goes to the pool, exactly then. |
| `ImplicitQueue.RoomInIndex` | grpc/comms_v2_bundles/concurrentqueue.h:2893-2899 | The test of the entry after the tail says exactly whether fewer blocks are live than the index has entries. |
| `ImplicitQueue.EnterNothing` | grpc/comms_v2_bundles/concurrentqueue.h:2918-2922 | Entering a base and rewinding changes nothing the lookup depends on. |
| `ImplicitQueue.ImplicitProducer.RoomIsFits` | grpc/comms_v2_bundles/concurrentqueue.h:2478-2490 | Whether n more elements fit depends only on head, tail, the first block in use and how many blocks the producer can have at once. |
| `ImplicitQueue.FitsOneByOne` | grpc/comms_v2_bundles/concurrentqueue.h:2471-2514 | One by one as many elements fit as at once. |
| `ImplicitQueue.RefusedExactly` | grpc/comms_v2_bundles/concurrentqueue.h:2475-2498 | One more element is refused exactly when the tail is at a block boundary and the queue would get too long or no block can be had. |
| `ImplicitQueue.GivenBack` | grpc/comms_v2_bundles/concurrentqueue.h:2647-2664 | Giving the claimed blocks back restores the set of blocks owned before. |
| `BlockReuse.StepKeepsInv` | grpc/comms_v2_bundles/concurrentqueue.h:1833-2320 | Every operation of the producer (claiming, resetting, entering, publishing, constructing, failing) and of any number of consumers (claiming, looking up, reading, marking empty) keeps the invariant. |
| `BlockReuse.LookupReaches` | grpc/comms_v2_bundles/concurrentqueue.h:1988-2003 | From the head `fetch_add` that claims an index until it is marked empty, the lookup from the published entry leads to its block's entry, and the cell there holds the element. |
| `BlockReuse.ProducerLeavesHeldAlone` | grpc/comms_v2_bundles/concurrentqueue.h:1842-1851 | In that time no step of the producer changes the block's number, its counter, its index entry or the element's cell. |
| `BlockReuse.ReadsElement` | grpc/comms_v2_bundles/concurrentqueue.h:2003-2025 | What a consumer reads, with an entry and a block it looked up any number of steps earlier, is the element with the index it claimed. |
| `BlockReuse.ConsumersReadTheirElements` | grpc/comms_v2_bundles/concurrentqueue.h:1988-2025 | Over any run, every element read is the one with that index. |
| `BlockReuse.EveryClaimRead` | grpc/comms_v2_bundles/concurrentqueue.h:1988-2033 | Over any run no claimed element is lost: each index below the head is held by a consumer or its element has been read, and all have been read when no consumer is at work. |
| `BlockReuse.AheadKeepsInv` | grpc/comms_v2_bundles/concurrentqueue.h:2057-2068 | Taking the empty block ahead keeps the invariant: all its indices have been marked empty. |
| `BlockReuse.AheadExactly` | grpc/comms_v2_bundles/concurrentqueue.h:2057-2058 | The block ahead, while it still carries indices, passes the producer's test if and only if all of them have been marked empty. |
| `BlockReuse.FailKeepsInv` | grpc/comms_v2_bundles/concurrentqueue.h:2079-2107 | So does undoing the claims while consumers are at work. |
| `BlockReuse.WriteKeepsInv` | grpc/comms_v2_bundles/concurrentqueue.h:2062-2066 | So does each of the two writes to a reused index entry. |
| `ImplicitReuse.StepKeepsInv` | grpc/comms_v2_bundles/concurrentqueue.h:2471-2947 | The same for an implicit producer, whose index consumers write as well: every operation of an enqueue, of its rollback, and of any number of consumers that look up, read, mark empty and null entries in any order keeps the invariant. |
| `ImplicitReuse.LookupReaches` | grpc/comms_v2_bundles/concurrentqueue.h:2924-2946 | From the head `fetch_add` that claims an index until it is marked empty, the lookup from wherever the index tail is, also while a failed enqueue is rewinding it, leads to the block's entry; both assertions of the source hold and the element is there. |
| `ImplicitReuse.HeldStays` | grpc/comms_v2_bundles/concurrentqueue.h:2630-2664 | In that time no step of anybody, neither one that inserts, undoes or nulls an entry, changes the block's entry or takes the block away. |
| `ImplicitReuse.ReadsElement` | grpc/comms_v2_bundles/concurrentqueue.h:2550-2591 | What a consumer reads, with an entry it looked up any number of steps earlier, is the element with the index it claimed. |
| `ImplicitReuse.ConsumersReadTheirElements` | grpc/comms_v2_bundles/concurrentqueue.h:2535-2604 | Over any run, every element read is the one with that index, whatever the entries' values are at the start. |
| `ImplicitReuse.NothingForgotten` | grpc/comms_v2_bundles/concurrentqueue.h:2550-2602 | Over any run no claimed element and no used-up block is lost: each index below the head is held by a consumer or has been read; a block all of whose indices are marked has a consumer about to release it, so that none is left in the index when no consumer is at work. |
| `ImplicitReuse.NextIsFree` | grpc/comms_v2_bundles/concurrentqueue.h:2893-2899 | An entry that passes the test for insertion belongs to no live block, and no live block is as old as the one it held. |
| `ImplicitReuse.InsertExactly` | grpc/comms_v2_bundles/concurrentqueue.h:2893-2899 | In every state a run reaches, the test succeeds if and only if no live block has the entry. |
| `ImplicitReuse.UndoSlot` | grpc/comms_v2_bundles/concurrentqueue.h:2653-2660 | While consumers are at work, the producer's own lookup during the rollback finds the right entry although the tail has been rewound past later blocks. |
| `ImplicitReuse.NullingFacts` | grpc/comms_v2_bundles/concurrentqueue.h:2842-2852 | A consumer nulls an entry only for a block all of whose indices have been marked empty. |
| `ImplicitReuse.SettledWhenReady` | grpc/comms_v2_bundles/concurrentqueue.h:2647-2664 | After an enqueue, failed or not, the index tail is at the last block started, no later block is entered, and every started block with indices left is. |
| `ImplicitReuse.NobodyIsStuck` | grpc/comms_v2_bundles/concurrentqueue.h:2471-2864 | The steps' guards hide no lookup that goes astray: consumers and the producer can always go on. |
| `BlockReuse.NobodyIsStuck` | grpc/comms_v2_bundles/concurrentqueue.h:1833-2320 | The steps' guards hide no lookup that goes astray: a consumer with a claim can always go on, and so can the producer. |
| `BlockConservation.StepKeepsInv` | grpc/comms_v2_bundles/concurrentqueue.h:2584-3092 | Every operation of any number of producers and consumers on the pool, the free list and the blocks' counters keeps each block where it is said to be. |
| `BlockConservation.InExactlyOnePlace` | grpc/comms_v2_bundles/concurrentqueue.h:3039-3092 | In every reachable state each pool block is in exactly one of these places, once: not yet issued, on the free list, in one thread's hands, with one producer; and nothing else is anywhere. |
| `BlockConservation.HandedOutAndBackInTurns` | grpc/comms_v2_bundles/concurrentqueue.h:3039-3092 | Over any run, every block is handed out and given back in turns. |
| `BlockConservation.CompletingHoldsAll` | grpc/comms_v2_bundles/concurrentqueue.h:1576-1613 | A consumer completes a block's count exactly when it holds the claim to all cells left, so no other claim on the block exists then. |
| `BlockConservation.FreedByTheLast` | grpc/comms_v2_bundles/concurrentqueue.h:2842-2852 | A block leaves its implicit producer by the one consumer whose marking completes the count, and by no other. |
| `BlockConservation.NothingForgotten` | grpc/comms_v2_bundles/concurrentqueue.h:3073-3092 | Over any run, a thread turns to the free list only when the initial pool is used up, and every cell of a block in use that has not been marked is held by a thread or still to be claimed. |
| `Circular.CircularLessExact` | grpc/comms_v2_bundles/concurrentqueue.h:468-480 | On wrapped indices less than a full range apart, `circular_less_than` agrees with the true order if and only if they are no more than half a range apart (the half itself on one side only). |
| `Circular.WrappedLookup` | grpc/comms_v2_bundles/concurrentqueue.h:1996-2003 | With index size times block size dividing the range of a word, the lookup on wrapped words, with its masks and unsigned division, finds the slot of the block of any index, in whichever direction and however far from the front it is, and agrees with the lookup on unbounded indices. |
| `Circular.MaskLow` | grpc/comms_v2_bundles/concurrentqueue.h:2001-2002 | Masking with a power of two less one is the remainder. |
| `Circular.MaskHigh` | grpc/comms_v2_bundles/concurrentqueue.h:2000 | Masking a word with the complement rounds down to the block base. |
| `Circular.CeilToPow2` | grpc/comms_v2_bundles/concurrentqueue.h:488-504 | `ceil_to_pow_2` on words of any number of bytes: the least power of two not below x, as a word; zero for zero. |
| `Circular.SmearDoubles` | grpc/comms_v2_bundles/concurrentqueue.h:494-500 | Each or-shift round doubles the run of ones at the top. |
| `Circular.IsCeilLeast` | grpc/comms_v2_bundles/concurrentqueue.h:488-504 | The power found is below every other power of two that is at least x. |
| `BlockMath.LookupFinds` | grpc/comms_v2_bundles/concurrentqueue.h:1999-2002 | The lookup from any held block's entry gives the slot of the block of the index sought. |
| `BlockMath.BaseDiff` | grpc/comms_v2_bundles/concurrentqueue.h:2045-2053 | The base difference computed at the start of a bulk enqueue is BLOCK_SIZE times the number of blocks the batch must start. |
| `IndexGrowth.NewExplicitIndex` | grpc/comms_v2_bundles/concurrentqueue.h:2341-2378 | Growing copies the entries in use in order, oldest first, from any rotation. |
| `IndexGrowth.ExplicitGrowthKeepsLookup` | grpc/comms_v2_bundles/concurrentqueue.h:2341-2378 | Every block found through the old explicit index is found, at the same entry, through the doubled one, from whichever block is exposed as its front. |
| `IndexGrowth.NewImplicitIndex` | grpc/comms_v2_bundles/concurrentqueue.h:2949-2991 | Growing carries over the entry objects from the one after the tail around to the tail, and adds as many new free ones. |
| `IndexGrowth.ImplicitGrowthKeepsLookup` | grpc/comms_v2_bundles/concurrentqueue.h:2949-2991 | Every block is found at the same entry object as before, for any rotation, and the entry after the new tail is free. |
| `ExplicitQueue.ExplicitProducer.GrowthKeepsLookup` | grpc/comms_v2_bundles/concurrentqueue.h:1866-1880 | Applied to a producer whose index is full: growing would lose no block in use, from whichever of them is exposed as the front. |
| `IndexGrowth.LookupFindsHeld` | grpc/comms_v2_bundles/concurrentqueue.h:1999-2002 | The lookup finds the entry of every block the index holds, whichever of these is published. |
| `TokenDequeue.ConcurrentQueue.TryDequeueBulk` | grpc/comms_v2_bundles/concurrentqueue.h:1227-1268 | With no concurrent activity: terminates although the walk moves `currentProducer`, and returns exactly min(max, all elements), each producer visited at most once and giving its oldest elements in order; what it gave is gone and nothing else. The producer whose turn it is comes first; the token stays with the last one that gave something; and the global offset moves exactly when that first producer alone gave all that was wanted and its quota is used up. |
| `TokenDequeue.ConcurrentQueue.DequeueOthers` | grpc/comms_v2_bundles/concurrentqueue.h:1247-1266 | The walk over the other producers takes min(wanted, what they have), and the token goes to the last one that gave something. |
| `TokenDequeue.ConcurrentQueue.VisitNext` | grpc/comms_v2_bundles/concurrentqueue.h:1251-1266 | One stop of the walk: it takes all of the producer or all that is wanted, and if that producer had nothing the walk gets nearer to its end. |
| `TokenDequeue.ConcurrentQueue.DequeueCurrent` | grpc/comms_v2_bundles/concurrentqueue.h:1236-1246 | The token's own producer is served first and gives min(max, what it has); all tokens are told to move on exactly when it gave all that was wanted and its quota is used up. |
| `TokenDequeue.CameRound` | grpc/comms_v2_bundles/concurrentqueue.h:1247-1252 | A walk that has come round to `currentProducer` has left all producers empty. |
| `TokenDequeue.ConcurrentQueue.UpdateCurrentProducerAfterRotation` | grpc/comms_v2_bundles/concurrentqueue.h:1371-1409 | A token moves on by the number of rotations since it last looked, modulo the number of producers and across wrap-around of the 32-bit offset; a new token starts at a producer of its own; it fails only when there are no producers. |
| `Bundles.Bundle.Add` | grpc/comms_v2_bundles/comms_bundle.cc:10-12 | Appends the packet, for a bundle that is not full; the others stay. |
| `Bundles.Bundle.Clear` | grpc/comms_v2_bundles/comms_bundle.cc:18-20 | Empties the bundle. |
| `Bundles.Bundle.SetReapRc` | grpc/comms_v2_bundles/comms_bundle.cc:26-30 | Sets every packet's return code and nothing else. |
| `Bundles.Bundle.SetOpaque` | grpc/comms_v2_bundles/comms_accessor.cc:19-25 | Sets every packet's opaque pointer to the accessor's reap queue and nothing else. |
| `Accessors.Accessor.SubmitBundle` | grpc/comms_v2_bundles/comms_accessor.cc:19-43 | The bundle goes to the deposit queue as a whole with its packets addressed, or else every packet goes to the reap queue with COMMS_NOT_SCHEDULED; the bundle is emptied and no other bundle changes. |
| `Accessors.Accessor.SubmitN` | grpc/comms_v2_bundles/comms_accessor.cc:45-56 | A bundle is deposited just when it is full: every deposit of the call has COMMS_BUNDLE_SIZE packets, and each bundle keeps what its packets and the new ones leave over. For every end point, what has been deposited followed by what is still in its bundle is what was submitted for it, in order; and the deposit and reap queues grew by exactly the accepted and refused deposits. |
| `Accessors.Accessor.SubmitFlush` | grpc/comms_v2_bundles/comms_accessor.cc:58-65 | Every bundle is deposited once, in the order of the end points, with what was in it, even nothing; afterwards all are empty and everything submitted for an end point has been deposited, in order. |
| `Accessors.AcceptedConcat` | grpc/comms_v2_bundles/comms_accessor.cc:29-39 | What several calls deposit is what they deposit one after the other, accepted and refused ones alike. |
| `CatchStream.Catcher.CatchN` | grpc/comms_v2_bundles/comms_accessor.cc:72-96 | Over any sequence of calls with any sizes, the packets returned followed by the left-over queue are the packets of the bundles taken, in order; a call returns fewer than asked for only when nothing is left anywhere. |
| `CatchStream.Catcher.RoomWhenDrained` | grpc/comms_v2_bundles/comms_impl.h:17-24 | A drained local queue has room for any left-over of a 4096-packet bundle: at most one of its six 1024-element blocks is still in use. |
| `CatchStream.Catcher.Keep` | grpc/comms_v2_bundles/comms_accessor.cc:89-93 | The enqueue of the left-over never fails. |
| `Writers.ReturnBundle` | grpc/comms_v2_bundles/comms_writer.cc:50-55 | Every reap queue gets, in order, its packets of the bundle with the return code 0 or 1, except those its `try_enqueue` refuses; and none is refused if and only if beforehand every queue had room for its packets, which can be checked before the call. |
| `Writers.AllAccepted` | grpc/comms_v2_bundles/comms_writer.cc:52-55 | Every queue gets all its packets if and only if no enqueue is refused. |
| `Writers.LostFrom` | grpc/comms_v2_bundles/comms_accessor.cc:11-17 | With the reap queue's own parameters and other writers drawing on its blocks: a packet is refused, and lost, exactly when it needs a new block and the writer has 256 blocks of packets in the queue that are not yet reaped, or all 2048 blocks are taken, although the queue is made for 2^21 packets. |
| `Writers.LoseOne` | grpc/comms_v2_bundles/comms_writer.cc:50-55 | A run in which that happens: after 262,144 packets returned and not reaped, the next one is refused. |
| `CommsRun.StepKeepsInv` | grpc/comms_v2_bundles/comms_accessor.cc:19-65 | Every step of any number of accessors and writers and of the shutdown, the atomic operations of `try_dequeue` among them, keeps every packet in one place, every list of packets free of duplicates and in order, and in each sub-queue of the submit queue just what its accessor deposited and nobody claimed. |
| `CommsRun.EachPacketInOnePlace` | grpc/comms_v2_bundles/comms_accessor.cc:19-70 | Every packet passed to `submit_n` is at all times in exactly one place, once: a bundle of its own accessor for its destination, the submit queue, a writer, its own accessor's reap queue, or reaped by that accessor. |
| `CommsRun.BundlesStayInOrder` | grpc/comms_v2_bundles/comms_accessor.cc:45-65 | Over any run no bundle overflows, and per accessor and end point the packets deposited, accepted or refused, and those in the bundle are those submitted, in order. |
| `CommsRun.SubmitQueueInOrder` | grpc/comms_v2_bundles/comms_accessor.cc:29-56 | Over any run, the packets of one accessor for one end point are in the submit queue, and then in the bundle being filled, in the order in which they were passed to `submit_n`. |
| `CommsRun.TakenInOrder` | grpc/comms_v2_bundles/comms_writer.cc:36-38 | The bundle that a writer's claim takes is the oldest of the sub-queue claimed from, and was submitted before everything for the same end point that it leaves behind. |
| `CommsRun.ReapedAsSubmitted` | grpc/comms_v2_bundles/comms_writer.cc:50-55 | What an accessor reaps it has submitted itself, with tag, payload and size unchanged. |
| `CommsReturns.ReturnCodes` | grpc/comms_v2_bundles/comms_writer.cc:48-55 | Over any run: a packet in a reap queue or reaped has return code 0 if and only if it was in a bundle whose transmission succeeded; it has 1 if the transmission failed or the deposit was refused. |
| `CommsRun.DepositedWhenFull` | grpc/comms_v2_bundles/comms_accessor.cc:45-56 | Over any run without a flush every bundle in the submit queue is full, and the one being filled holds the packets submitted modulo COMMS_BUNDLE_SIZE. |
| `CommsRun.FlushDeposits` | grpc/comms_v2_bundles/comms_accessor.cc:58-65 | A flush queues what is in the bundle behind everything of its kind, or returns it to the accessor at once if the deposit is refused, and empties the bundle. |
| `CommsProgress.EveryPacketCanComeBack` | grpc/comms_v2_bundles/comms_writer.cc:35-70 | No state before the shutdown is a dead end: with at least one writer, from every reachable state, whatever the writers are in the middle of, a schedule leads to the packet being reaped by the accessor that submitted it. |
| `CommsShutdown.EmptiesExactly` | grpc/comms_v2_bundles/comms.cc:102-110 | What decides it when the shutdown begins with no submit under way, and since the last deposit there was a moment with no writer inside `try_dequeue`: the submit queue is emptied in every run in which all writers leave if and only if it is empty already, or there is a writer that has not just failed to find what is queued. Such runs exist. |
| `CommsShutdown.ShutdownEmptiesExactly` | grpc/comms_v2_bundles/comms.cc:102-110 | The same when no writer is inside `try_dequeue` as the shutdown begins, for any number of writers; with no writer at all, what is queued stays. |
| `CommsShutdown.StaysUnhidden` | grpc/comms_v2_bundles/comms_writer.cc:35-45 | That condition, once met, lasts until the next deposit, whatever the writers do. |
| `CommsShutdown.SoleWriterEmptiesExactly` | grpc/comms_v2_bundles/comms.cc:17-26 | With one writer, the default, wherever it is when the shutdown begins: the queue is always emptied if and only if nothing is queued, or the writer has not failed to find it and is in no call that is going to fail. |
| `CommsShutdown.ShutdownLeavesNothing` | grpc/comms_v2_bundles/comms.cc:102-110 | With any number of writers, anywhere: a shutdown that begins with no submit under way leaves an empty submit queue if and only if, when the last writer is told to stop, it is not the case that bundles are queued and this writer has already failed to find one or is in a call that is going to fail. |
| `CommsShutdown.WritersCanLeave` | grpc/comms_v2_bundles/comms_writer.cc:35-70 | From wherever a shutdown is, all writers can leave: each has a next step that brings it nearer to its end. |
| `CommsLeftBehind.MissedFromInside` | grpc/comms_v2_bundles/comms_writer.cc:35-45 | A counterexample for a writer inside `try_dequeue`: two writers compete for a bundle, a second bundle is accepted before the loser gives its reservation back, the shutdown begins; both find nothing and leave, and the bundle stays. |
| `CommsLeftBehind.PacketLeftBehind` | grpc/comms_v2_bundles/comms_writer.cc:35-45 | A counterexample: the writer finds nothing, a bundle is accepted, the shutdown begins, the writer sees its flag and leaves; the packet stays in the submit queue for good. |
| `CommsShutdown.EmptyStaysEmpty` | grpc/comms_v2_bundles/comms.cc:102-126 | If the submit queue is empty and no submit is under way once the shutdown has begun, it stays empty. |
| `CommsShutdown.NothingAtWriters` | grpc/comms_v2_bundles/comms_writer.cc:47-70 | No writer that has exited still holds a packet; with an empty submit queue every packet is with its accessor. |
| `CommsShutdown.GateHolds` | grpc/comms_v2_bundles/comms.cc:279-295 | Once the shutdown has begun no new submit or flush gets in; with none under way nothing is submitted or deposited any more. |
| `ServiceCache.GlobalCache.WatchCallback` | grpc/discovery/discovery/server/discovery_server.py:20-57 | If some value of the batch cannot be parsed the cache is unchanged. Otherwise every service is afterwards as the last event about it says, row or deletion, with the old ttl if a put changes nothing else; and no other service changes. |
| `ServiceCache.RolledBackExactly` | grpc/discovery/discovery/server/discovery_server.py:26-53 | A batch is rolled back if and only if it contains a put whose value cannot be parsed. |
| `ServiceCache.AppliedLast` | grpc/discovery/discovery/server/discovery_server.py:33-50 | What an applied batch makes of each service depends only on the last event about it; services without one keep their row. |
| `ServiceCache.GlobalCache.Register` | grpc/discovery/discovery/server/cache.py:47-97 | Afterwards the service has the row, up to the ttl; the old ttl survives if nothing else differs, otherwise the row is taken over whole; no other service changes; a change is reported exactly when the service was missing or differed in more than the ttl. |
| `ServiceCache.GlobalCache.SyncRemoteToGlobal` | grpc/discovery/discovery/server/discovery_server.py:215-248 | With a connection and every value readable, the cache has exactly the snapshot's services, each with the snapshot's row, except that the old ttl stays if nothing else differs; without a connection or with a value that cannot be parsed it is unchanged. |
| `ServiceCache.GlobalCache.SyncLocalToGlobal` | grpc/discovery/discovery/server/discovery_server.py:250-269 | Exactly the local services that the global cache lacks or has differently (up to ttl) are put into the store. |
| `Replica.StepKeepsInv` | grpc/discovery/discovery/server/discovery_server.py:20-57 | Changes, deliveries, resyncs and restarts of the watch keep the invariant: the cache has for each service, up to ttl, what the store had at that service's basis, which is the revision of the last successful resync or, if later, of the last batch applied with a change to it; a rolled-back batch or a restart moves no basis. |
| `Replica.AgreesExactly` | grpc/discovery/discovery/server/discovery_server.py:20-57 | The exact condition, after any run: the cache agrees with the store on a service if and only if the store has the row for it that it had at the service's basis (before there is one: if and only if the row from the start is right). |
| `Replica.ReplicaAgrees` | grpc/discovery/discovery/server/discovery_server.py:203-213 | A condition on the schedule: after a resync from a snapshot no older than what was delivered, and steps that pass over no change to the service (no rolled-back batch, late watch or older snapshot that concerns it), the cache agrees with the store on it once everything is delivered. |
| `Replica.AppliedAgrees` | grpc/discovery/discovery/server/discovery_server.py:20-53 | After a batch a service's row depends only on the last event that touches it, and agrees with the store then. |
| `Replica.SyncedAgrees` | grpc/discovery/discovery/server/discovery_server.py:215-243 | A successful resync alone establishes agreement with its snapshot from any prior cache. |
| `Replica.LostChange` | grpc/discovery/discovery/server/discovery_server.py:175-198 | A counterexample: a change between the first snapshot and the start of the watch is missing although all that the watch delivers has been delivered. |
| `Replica.OlderSnapshotUndoes` | grpc/discovery/discovery/server/discovery_server.py:215-243 | A counterexample: a snapshot taken before a change that the watch delivered meanwhile undoes it. |
| `Replica.RolledBackIsLost` | grpc/discovery/discovery/server/discovery_server.py:51-57 | A counterexample: one value that cannot be parsed rolls back a change to another service in the same response, which is not delivered again. |
| `Replica.LocalServicesWin` | grpc/discovery/discovery/server/discovery_server.py:250-270 | After local-to-global synchronization from a cache in agreement, the store has every local service as it is, up to ttl, and no other service has changed. |
| `KvCodec.RoundTrip` | grpc/discovery/discovery/etcd/client.py:43-55 | `kv_to_service` undoes `service_to_kv` (port and ttl as numbers) if and only if no part of the service's identity has a slash and the namespace has exactly two. |
| `KvCodec.KeyPieces` | grpc/discovery/discovery/etcd/client.py:46-53 | How the key splits: the pieces of namespace, instance, type and name, and how many there are. |
| `KvCodec.IntegerOfLiteral` | grpc/discovery/discovery/etcd/client.py:49-54 | Writing an integer and reading its digits back gives the same number. |
| `KvCodec.DeletedKeyNamesService` | grpc/discovery/discovery/etcd/client.py:43-50 | A deleted key, which comes without a value, still names its service. |
| `KvCodec.KeysDistinct` | grpc/discovery/discovery/etcd/client.py:52-54 | No two services share a key. |
| `RangeEnd.ComputeRangeEnd` | grpc/discovery/discovery/etcd/__init__.py:5-11 | Raises the last byte below 0xff by one and keeps all others, also those behind it. |
| `RangeEnd.SelectsPrefixExactly` | grpc/discovery/discovery/etcd/client.py:66-73 | The range from the key to `range_end` selects exactly the keys that begin with the key if and only if the key is not empty and its last byte is below 0xff. |
| `RangeEnd.RangeIsPrefix` | grpc/discovery/discovery/etcd/client.py:172-181 | For such a key, k is in the range in byte-lexicographic order if and only if it begins with the key; a namespace, which ends in a slash, is such a key. |
| `RangeEnd.TrailingByteFails` | grpc/discovery/discovery/etcd/__init__.py:7-10 | A key that ends in 0xff selects other keys than those it is a prefix of. |

## Left out

- The C++ memory model: fences, relaxed loads and torn plain writes. Steps are sequentially consistent.
- Exceptions thrown by elements, destructors, move and swap of queues.
- Unbounded indices: except in `Circular`, indices do not wrap. `Circular` shows that the wrapped comparison and lookup agree with the unbounded ones; a value that stays unread for more than half the range of indices is not covered.
- ExplicitQueue.ExplicitProducer.SetManyEmpty: uses the count also for blocks of up to 32 elements, for which the source keeps flags; `BlockStatus.FlagsCount` and `BlockReuse.FlagsInstead` prove that the flags say the same.
- ExplicitQueue.ExplicitProducer.EnqueueBulk: `CanAlloc`, where a pool block may be allocated and the index may grow in the middle of an enqueue, is not modelled; `IndexGrowth` proves growth by itself.
- ExplicitQueue.ExplicitProducer.constructor: a pool of more than 2^63 blocks, for which the rounded size is zero, is left out; it does not fit into memory.
- ExplicitQueue.ExplicitProducer.NeverOverLimit: a size limit within one block of the largest word, which the source turns into no limit, has to be passed as none.
- ProducerHash.CallReturns: a call that meets a resize under way waits for it, so others' progress decides there.
- ExplicitQueue.ExplicitProducer.Dequeue: the classes model one thread at a time. With one thread the counters settle so that the two tests compare head and tail (`DequeueProtocol.QuiescentDequeueExact`); what other threads can do in between is in `DequeueProtocol`, `BlockReuse` and `BlockConservation`.
- BlockReuse.StepKeepsInv: the blocks' `next` pointers, which only the producer uses, appear as a sequence; `ExplicitQueue` links them.
- ImplicitReuse.StepKeepsInv: `next` pointers and `tailBlock`, which only the producer uses, appear as a map from block number to block; `ImplicitQueue` links them. Giving a block back is in `BlockConservation`.
- BlockConservation.StepKeepsInv: a claim over several blocks is several steps, between which others may step in; the free list appears with atomic operations, as `FreeList` justifies.
- ProducerHash.StepKeepsInv: allocation failure and the recycling of producers of threads that have exited.
- CommsShutdown.EmptiesExactly: with several writers of which some have been inside `try_dequeue` at every moment since the last deposit, whether bundles can be left depends on what each of them has read; there is the counterexample, and the condition at the last writer's end.
- TryDequeue.StepKeepsInv: a call's element is claimed by the `fetch_add` on the head; reading and releasing it is in `BlockReuse` and `ImplicitReuse`. Producers are not recycled.
- TokenDequeue.ConcurrentQueue.TryDequeueBulk: other threads at work at the same time.
- Accessors.Accessor.SubmitBundle: the loops that wait until the reap queue has room, here and in `release_n`, are taken to end. Bundles are sequences there; `Bundles` has the array.
- Accessors.Accessor.SubmitFlush: the number it returns, which is read from bundles already cleared.
- CatchStream.Catcher.CatchN: the caller's array is the sequence returned; a single thread takes from the shared queue of bundles.
- CommsRun.ReapedAsSubmitted: the order of packets inside a reap queue, which is a set here. `reap_n` takes any packets of it.
- CommsRun.StepKeepsInv: a destination for which there is no end point, which the source does not test for. An accepted deposit is one step: the enqueue takes effect when its tail is stored.
- Transmission over gRPC with its retries (the writer sends every bundle to the first end point, `comms_writer.cc:48`), receivers and readers, `comms_release`, condition variables, configuration.
- Discovery: lease keep-alive, service timeouts, tasks and timers, the request handlers, database errors, chunking in `get_many` and `put_many`. SQL tables are maps and JSON is a map of strings.
- The other variants of the comms layer (`grpc/comms`, `grpc/comms_async`, `grpc/comms_v2`), `etcd/synchronization`, `etcd/libetcd`, `rabbitmq-fuse` and the saiteki client: earlier forms of the same, or plumbing with easy members.
