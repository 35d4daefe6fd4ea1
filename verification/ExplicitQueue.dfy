/** ExplicitProducer of concurrentqueue.h, in allocation mode CannotAlloc, as an object used by one
    thread at a time: a circular list of blocks, a circular index of block bases, and a counter of
    dequeued elements per block. It is proved to be a FIFO queue. */
module ExplicitQueue {
  import opened Collections
  import opened Options
  import opened ModArith
  import opened BlockMath
  import opened BlockPool
  import opened Circular
  import IndexGrowth

  // ---------------------------------------------------------------- the ring and its index, as values

  function Follower(ring: seq<Block>, i: nat): Block
    requires i < |ring|
  {
    ring[if i + 1 == |ring| then 0 else i + 1]
  }

  predicate LinkedAt(ring: seq<Block>, next: seq<Option<Block>>, i: nat)
    requires i < |ring|
  {
    ring[i] < |next| && next[ring[i]] == Some(Follower(ring, i))
  }

  /** The ring is what following `next` from any of its blocks visits. */
  predicate Linked(ring: seq<Block>, next: seq<Option<Block>>) {
    forall i :: 0 <= i < |ring| ==> LinkedAt(ring, next, i)
  }

  /** Blocks lo, lo + 1, ... end - 1 are the last blocks of the ring, in order. Those before `hi` hold
      elements, those from `hi` on are claimed for a bulk enqueue under way; all others are used up. */
  predicate Filled(ring: seq<Block>, done: seq<nat>, head: nat, lo: nat, hi: nat, end: nat, bs: nat) {
    && lo <= hi <= end && end - lo <= |ring|
    && (forall i :: 0 <= i < |ring| ==> ring[i] < |done|)
    && (forall i :: 0 <= i < |ring| - (end - lo) ==> done[ring[i]] == bs)
    && (forall k :: lo <= k < hi ==> done[BlockAt(ring, end, k)] == Consumed(head, k, bs))
    && (forall k :: hi <= k < end ==> done[BlockAt(ring, end, k)] == bs)
  }

  /** The index finds every block from lo to end - 1: block k is at entry k modulo the index size. */
  predicate Indexed(ring: seq<Block>, entries: seq<Entry>, lo: nat, end: nat, bs: nat) {
    && lo <= end && end - lo <= |ring| && 0 < |entries|
    && (forall k :: lo <= k < end ==> entries[k % |entries|] == Entry(k * bs, BlockAt(ring, end, k)))
  }

  lemma LinkedChained(ring: seq<Block>, next: seq<Option<Block>>, end: nat, k0: int)
    requires Linked(ring, next) && end - |ring| <= k0
    ensures Chained(ring, next, end, k0)
  {
    forall k | k0 <= k < end - 1 ensures ChainedAt(ring, next, end, k) {
      assert LinkedAt(ring, next, |ring| - end + k);
    }
  }

  lemma RotateLinked(ring: seq<Block>, next: seq<Option<Block>>, n: nat)
    requires Linked(ring, next) && n <= |ring|
    ensures Linked(Rotate(ring, n), next)
  {
    var r := Rotate(ring, n);
    forall i | 0 <= i < |r| ensures LinkedAt(r, next, i) {
      assert LinkedAt(ring, next, if i < |ring| - n then n + i else n + i - |ring|);
      RotateAt(ring, n, i);
      RotateAt(ring, n, if i + 1 == |r| then 0 else i + 1);
    }
  }

  lemma RotateSame(ring: seq<Block>, n: nat)
    requires n <= |ring|
    ensures Distinct(ring) ==> Distinct(Rotate(ring, n))
    ensures Elems(Rotate(ring, n)) == Elems(ring)
  {
    assert ring == ring[..n] + ring[n..];
    forall i, j | 0 <= i < j < |ring| && Distinct(ring) ensures Rotate(ring, n)[i] != Rotate(ring, n)[j] {
      RotateAt(ring, n, i);
      RotateAt(ring, n, j);
    }
  }

  /** Inserting a block after the last one of the ring. */
  lemma InsertLinked(ring: seq<Block>, next: seq<Option<Block>>, b: Block, next': seq<Option<Block>>)
    requires Linked(ring, next) && Distinct(ring) && b !in ring && b < |next|
    requires ring != [] ==> ring[|ring| - 1] < |next|
    requires next' == if ring == [] then next[b := Some(b)]
                      else next[b := next[ring[|ring| - 1]]][ring[|ring| - 1] := Some(b)]
    ensures Linked(ring + [b], next') && Distinct(ring + [b]) && Elems(ring + [b]) == Elems(ring) + {b}
  {
    var r := ring + [b];
    assert ring != [] ==> LinkedAt(ring, next, |ring| - 1);
    forall i | 0 <= i < |r| ensures LinkedAt(r, next', i) {
      if i < |ring| {
        assert ring[i] != b;
        assert LinkedAt(ring, next, i);
      }
    }
  }

  /** An empty block ahead that is not claimed yet is one of the used-up blocks. */
  lemma EmptyAheadFree(ring: seq<Block>, done: seq<nat>, head: nat, lo: nat, hi: nat, end: nat, bs: nat)
    requires head < lo * bs + bs && Filled(ring, done, head, lo, hi, end, bs)
    requires ring != [] && done[ring[0]] == bs && end - hi < |ring|
    ensures end - lo < |ring|
  {
    ConsumedShort(head, lo, lo, bs);
    assert end - lo == |ring| ==> ring[0] == BlockAt(ring, end, lo);
  }

  /** Claiming the block ahead turns the ring by one. */
  lemma ClaimAhead(ring: seq<Block>, done: seq<nat>, head: nat, lo: nat, hi: nat, end: nat, bs: nat)
    requires Filled(ring, done, head, lo, hi, end, bs) && end - lo < |ring|
    ensures Filled(Rotate(ring, 1), done, head, lo, hi, end + 1, bs)
    ensures forall k :: lo <= k < end ==> BlockAt(Rotate(ring, 1), end + 1, k) == BlockAt(ring, end, k)
    ensures BlockAt(Rotate(ring, 1), end + 1, end) == ring[0]
  {
    var r := Rotate(ring, 1);
    forall i | 0 <= i < |r| ensures r[i] == ring[if i < |ring| - 1 then i + 1 else 0] {
      RotateAt(ring, 1, i);
    }
    forall k | lo <= k < end + 1 ensures BlockAt(r, end + 1, k) == if k < end then BlockAt(ring, end, k) else ring[0] {
    }
    assert forall i :: 0 <= i < |r| - (end + 1 - lo) ==> done[r[i]] == bs;
    assert forall k :: lo <= k < hi ==> done[BlockAt(r, end + 1, k)] == Consumed(head, k, bs);
    var e := end + 1;
    forall k | hi <= k < e ensures done[BlockAt(r, e, k)] == bs {
      assert k < end ==> done[BlockAt(ring, end, k)] == bs;
    }
  }

  /** All that taking the empty block ahead does to the ring. */
  lemma TurnAhead(ring: seq<Block>, next: seq<Option<Block>>, done: seq<nat>, head: nat, lo: nat, hi: nat, end: nat,
                  bs: nat)
    requires Linked(ring, next) && Distinct(ring) && Filled(ring, done, head, lo, hi, end, bs) && head < lo * bs + bs
    requires ring != [] && done[ring[0]] == bs && end - hi < |ring|
    ensures var r := Rotate(ring, 1);
            && Linked(r, next) && Distinct(r) && Elems(r) == Elems(ring)
            && Filled(r, done, head, lo, hi, end + 1, bs)
            && ring[|ring| - 1] < |next| && next[ring[|ring| - 1]] == Some(ring[0]) && r[|r| - 1] == ring[0]
            && BlockAt(r, end + 1, end) == ring[0]
            && forall k :: lo <= k < end ==> BlockAt(r, end + 1, k) == BlockAt(ring, end, k)
  {
    assert LinkedAt(ring, next, |ring| - 1);
    EmptyAheadFree(ring, done, head, lo, hi, end, bs);
    ClaimAhead(ring, done, head, lo, hi, end, bs);
    RotateLinked(ring, next, 1);
    RotateSame(ring, 1);
  }

  /** A block from the pool is inserted after the last one: marked empty it is a claimed block,
      reset it is a block in use. */
  lemma InsertFilled(ring: seq<Block>, done: seq<nat>, head: nat, lo: nat, hi: nat, end: nat, bs: nat, b: Block,
                     hi': nat)
    requires Filled(ring, done, head, lo, hi, end, bs) && b < |done|
    requires (done[b] == bs && hi' == hi) || (done[b] == 0 == Consumed(head, end, bs) && hi == end && hi' == end + 1)
    ensures Filled(ring + [b], done, head, lo, hi', end + 1, bs)
    ensures forall k :: lo <= k < end ==> BlockAt(ring + [b], end + 1, k) == BlockAt(ring, end, k)
    ensures BlockAt(ring + [b], end + 1, end) == b
  {
    var r, e := ring + [b], end + 1;
    forall k | lo <= k < e ensures BlockAt(r, e, k) == if k < end then BlockAt(ring, end, k) else b {
    }
    assert forall i :: 0 <= i < |r| - (e - lo) ==> done[r[i]] == bs;
    forall k | hi' <= k < e ensures done[BlockAt(r, e, k)] == bs {
      assert k < end ==> done[BlockAt(ring, end, k)] == bs;
    }
  }

  /** Changing the count of a block that is not in the ring changes nothing. */
  lemma FilledElsewhere(ring: seq<Block>, done: seq<nat>, head: nat, lo: nat, hi: nat, end: nat, bs: nat, b: Block,
                        v: nat)
    requires Filled(ring, done, head, lo, hi, end, bs) && b !in ring && b < |done|
    ensures Filled(ring, done[b := v], head, lo, hi, end, bs)
  {
    forall i | 0 <= i < |ring| ensures done[b := v][ring[i]] == done[ring[i]] {
      assert ring[i] != b;
    }
    forall k | lo <= k < end ensures done[b := v][BlockAt(ring, end, k)] == done[BlockAt(ring, end, k)] {
      assert BlockAt(ring, end, k) == ring[|ring| - end + k];
    }
  }

  /** Entering block `end` in the index overwrites no entry still needed. */
  lemma IndexClaim(ring: seq<Block>, entries: seq<Entry>, lo: nat, end: nat, bs: nat, ring': seq<Block>)
    requires Indexed(ring, entries, lo, end, bs) && end - lo < |entries|
    requires end + 1 - lo <= |ring'|
    requires forall k :: lo <= k < end ==> BlockAt(ring', end + 1, k) == BlockAt(ring, end, k)
    ensures Indexed(ring', entries[end % |entries| := Entry(end * bs, BlockAt(ring', end + 1, end))], lo, end + 1, bs)
  {
    forall k | lo <= k < end ensures k % |entries| != end % |entries| {
      ModDistinct(k, end, |entries|);
    }
  }

  /** Undoing the claims: the ring ends again with the block it ended with before, at position p. If no
      block is in use, all are used up or claimed, and the ring may end with any of them. */
  lemma Unclaim(ring: seq<Block>, done: seq<nat>, head: nat, lo: nat, hi: nat, end: nat, bs: nat, p: nat)
    requires Filled(ring, done, head, lo, hi, end, bs) && p < |ring|
    requires lo < hi ==> p + 1 == |ring| - (end - hi)
    ensures Filled(Rotate(ring, p + 1), done, head, lo, hi, hi, bs)
    ensures Rotate(ring, p + 1)[|ring| - 1] == ring[p]
    ensures forall k :: lo <= k < hi ==> BlockAt(Rotate(ring, p + 1), hi, k) == BlockAt(ring, end, k)
  {
    var r := Rotate(ring, p + 1);
    RotateAt(ring, p + 1, |ring| - 1);
    forall k | lo <= k < hi ensures BlockAt(r, hi, k) == BlockAt(ring, end, k) {
      RotateAt(ring, p + 1, |ring| - hi + k);
    }
    forall i | 0 <= i < |r| - (hi - lo) ensures done[r[i]] == bs {
      RotateAt(ring, p + 1, i);
      var j := if i < |ring| - p - 1 then p + 1 + i else p + 1 + i - |ring|;
      if j >= |ring| - (end - lo) {
        assert ring[j] == BlockAt(ring, end, j - |ring| + end);
      }
    }
  }

  /** Resetting the claimed blocks puts them in use. */
  lemma ResetClaimed(ring: seq<Block>, done: seq<nat>, done': seq<nat>, head: nat, lo: nat, hi: nat, end: nat, bs: nat)
    requires Filled(ring, done, head, lo, hi, end, bs) && |done'| == |done|
    requires forall k :: hi <= k < end ==> Consumed(head, k, bs) == 0
    requires forall i :: 0 <= i < |ring| ==> done'[ring[i]] == if i < |ring| - (end - hi) then done[ring[i]] else 0
    ensures Filled(ring, done', head, lo, end, end, bs)
  {
    forall k | lo <= k < end ensures done'[BlockAt(ring, end, k)] == Consumed(head, k, bs) {
      var i := |ring| - end + k;
      assert done'[ring[i]] == if k < hi then done[ring[i]] else 0;
    }
  }

  /** Changing the count of one block of a ring of distinct blocks. */
  lemma OneCount(ring: seq<Block>, done: seq<nat>, p: nat, v: nat)
    requires Distinct(ring) && p < |ring| && forall i :: 0 <= i < |ring| ==> ring[i] < |done|
    ensures forall i :: 0 <= i < |ring| ==> done[ring[p] := v][ring[i]] == if i == p then v else done[ring[i]]
  {
    forall i | 0 <= i < |ring| && i != p ensures ring[i] != ring[p] {
    }
  }

  /** Dequeuing c elements of the head's block, which may use it up. */
  lemma ConsumeFilled(ring: seq<Block>, done: seq<nat>, head: nat, lo: nat, hi: nat, bs: nat, c: nat, lo': nat)
    requires Filled(ring, done, head, lo, hi, hi, bs) && Distinct(ring) && lo < hi
    requires lo * bs <= head && head + c <= lo * bs + bs
    requires lo' == if head + c == lo * bs + bs then lo + 1 else lo
    ensures var b := BlockAt(ring, hi, lo);
            done[b] + c <= bs && Filled(ring, done[b := done[b] + c], head + c, lo', hi, hi, bs)
  {
    var p := |ring| - hi + lo;
    var v := done[ring[p]] + c;
    var done' := done[ring[p] := v];
    assert ring[p] == BlockAt(ring, hi, lo);
    assert v == head + c - lo * bs;
    OneCount(ring, done, p, v);
    forall k | lo' <= k < hi ensures done'[BlockAt(ring, hi, k)] == Consumed(head + c, k, bs) {
      BlockCount(ring, done, done', head, lo, hi, bs, c, k);
    }
    assert forall i :: 0 <= i < p ==> done'[ring[i]] == bs;
    assert |ring| - (hi - lo') == if lo' == lo then p else p + 1;
  }

  lemma BlockCount(ring: seq<Block>, done: seq<nat>, done': seq<nat>, head: nat, lo: nat, hi: nat, bs: nat, c: nat,
                   k: nat)
    requires hi - |ring| <= lo <= k < hi && BlockAt(ring, hi, k) < |done| == |done'|
    requires lo * bs <= head && head + c <= lo * bs + bs
    requires done[BlockAt(ring, hi, k)] == Consumed(head, k, bs)
    requires done'[BlockAt(ring, hi, k)] == if k == lo then head + c - lo * bs else done[BlockAt(ring, hi, k)]
    ensures done'[BlockAt(ring, hi, k)] == Consumed(head + c, k, bs)
  {
    if lo < k {
      assert (lo + 1) * bs == lo * bs + bs;
      assert (lo + 1) * bs <= k * bs;
    }
  }

  // ---------------------------------------------------------------- the producer

  /** What new_block_index makes of a full index. */
  predicate GrownFrom(grown: seq<Entry>, entries: seq<Entry>, front: nat, copied: nat) {
    && 0 < |entries| && |grown| == 2 * |entries| && copied <= |entries|
    && forall d :: 0 <= d < copied ==> grown[d] == entries[(front - copied + d) % |entries|]
  }

  /** Searched from block `from`, the index finds for an element what the bigger index finds, searched from entry
      expose - 1. */
  predicate SameEntryFound(entries: seq<Entry>, grown: seq<Entry>, front: nat, end: nat, from: nat, expose: nat,
                           bs: nat, index: nat)
    requires bs > 0 && 0 < |entries| && 0 < expose <= |grown|
  {
    var published := (front - end + from) % |entries|;
    entries[LookupSlot(published, entries[published].base, index, bs, |entries|)]
    == grown[LookupSlot(expose - 1, grown[expose - 1].base, index, bs, |grown|)]
  }

  /** The index of a producer is of the kind that module IndexGrowth grows: it holds the blocks in use, the last one
      right before its front. */
  lemma IndexGrows(ring: seq<Block>, entries: seq<Entry>, lo: nat, end: nat, bs: nat, grown: seq<Entry>, expose: nat,
                   from: nat, index: nat)
    requires bs > 0 && Indexed(ring, entries, lo, end, bs) && end - lo <= |entries|
    requires GrownFrom(grown, entries, end % |entries|, |entries|)
    requires |entries| - (end - lo) < expose <= |entries| && lo <= from < end && lo <= index / bs < end
    ensures SameEntryFound(entries, grown, end % |entries|, end, from, expose, bs, index)
  {
    var front, size := end % |entries|, |entries|;
    forall k | lo <= k < end ensures IndexGrowth.SlotHolds(entries, front, end, k, bs) {
      ModShift(end, k - end, size);
      assert entries[k % size] == Entry(k * bs, BlockAt(ring, end, k));
    }
    IndexGrowth.ExplicitGrowthKeepsLookup(entries, front, end - lo, grown, size, expose, end, bs, from, index);
  }

  lemma IndexedFrom(ring: seq<Block>, entries: seq<Entry>, lo: nat, end: nat, bs: nat, lo': nat)
    requires Indexed(ring, entries, lo, end, bs) && lo <= lo' <= end
    ensures Indexed(ring, entries, lo', end, bs)
  {
  }

  /** The block ahead is empty exactly when not every block of the ring is in use or claimed. */
  lemma EmptyAhead(ring: seq<Block>, done: seq<nat>, head: nat, lo: nat, hi: nat, end: nat, bs: nat)
    requires head < lo * bs + bs && Filled(ring, done, head, lo, hi, end, bs) && ring != []
    ensures end - hi < |ring| ==> (done[ring[0]] == bs <==> end - lo < |ring|)
  {
    if end - hi < |ring| && done[ring[0]] == bs {
      EmptyAheadFree(ring, done, head, lo, hi, end, bs);
    }
  }

  /** A bulk enqueue has claimed blocks hi, ... end - 1; startBlock, the tail block it began with, is the
      block before them or, if no block is in use, any block. */
  ghost predicate Claiming(ring: seq<Block>, lo: nat, hi: nat, end: nat, startBlock: Option<Block>,
                           firstAllocated: Option<Block>) {
    && lo <= hi <= end && end - lo <= |ring|
    && firstAllocated == (if hi < end then Some(BlockAt(ring, end, hi)) else None)
    && match startBlock {
         case None => lo == hi && (end == hi ==> ring == [])
         case Some(b) => b in Elems(ring) && (lo < hi ==> b == BlockAt(ring, end, hi - 1))
       }
  }

  lemma StartPosition(ring: seq<Block>, lo: nat, hi: nat, end: nat, startBlock: Option<Block>, first: Option<Block>)
    returns (p: nat)
    requires Claiming(ring, lo, hi, end, startBlock, first) && ring != []
    ensures p < |ring| && (if startBlock == None then first else startBlock) == Some(ring[p])
    ensures lo < hi ==> p + 1 == |ring| - (end - hi)
  {
    if lo < hi {
      p := |ring| - end + hi - 1;
    } else if startBlock == None {
      p := |ring| - end + hi;
    } else {
      p :| 0 <= p < |ring| && ring[p] == startBlock.value;
    }
  }

  /** All that undoing the claims does to the ring. */
  lemma TurnedBack(ring: seq<Block>, next: seq<Option<Block>>, done: seq<nat>, head: nat, lo: nat, hi: nat, end: nat,
                   bs: nat, p: nat)
    requires Linked(ring, next) && Distinct(ring) && Filled(ring, done, head, lo, hi, end, bs) && p < |ring|
    requires lo < hi ==> p + 1 == |ring| - (end - hi)
    ensures var r := Rotate(ring, p + 1);
            && Linked(r, next) && Distinct(r) && Elems(r) == Elems(ring) && r[|r| - 1] == ring[p]
            && Filled(r, done, head, lo, hi, hi, bs)
            && forall k :: lo <= k < hi ==> BlockAt(r, hi, k) == BlockAt(ring, end, k)
  {
    Unclaim(ring, done, head, lo, hi, end, bs, p);
    RotateLinked(ring, next, p + 1);
    RotateSame(ring, p + 1);
  }

  lemma IndexedUnclaimed(ring: seq<Block>, entries: seq<Entry>, lo: nat, hi: nat, end: nat, bs: nat, ring': seq<Block>)
    requires Indexed(ring, entries, lo, end, bs) && lo <= hi <= end && hi - lo <= |ring'|
    requires forall k :: lo <= k < hi ==> BlockAt(ring', hi, k) == BlockAt(ring, end, k)
    ensures Indexed(ring', entries, lo, hi, bs)
  {
  }

  lemma IndexSize(poolSize: nat, rounded: nat, initial: nat)
    requires poolSize <= Pow2(63) && IsPow2(initial) && initial > 1
    requires poolSize == 0 ==> rounded == 0
    requires poolSize > 0 ==> exists n :: IsCeil(poolSize, n) && rounded == Word(Pow2(n), 64)
    ensures var size := 2 * (if rounded / 2 > initial / 2 then rounded / 2 else initial / 2);
            IsPow2(size) && size >= poolSize && size > 1 && (size == initial || size < 2 * poolSize)
  {
    Even(initial);
    if poolSize > 0 {
      Rounded(poolSize, rounded);
    }
  }

  lemma Rounded(poolSize: nat, rounded: nat)
    requires 0 < poolSize <= Pow2(63) && exists n :: IsCeil(poolSize, n) && rounded == Word(Pow2(n), 64)
    ensures IsPow2(rounded) && poolSize <= rounded < 2 * poolSize && (rounded == 1 || rounded % 2 == 0)
  {
    var n :| IsCeil(poolSize, n) && rounded == Word(Pow2(n), 64);
    hide Pow2, Word;
    IsCeilLeast(poolSize, n, 63);
    SmallWord(n);
    Half(n);
  }

  lemma SmallWord(n: nat)
    requires n <= 63
    ensures Word(Pow2(n), 64) == Pow2(n) && IsPow2(Pow2(n))
  {
    Pow2Monotone(n, 63);
    Double(63);
    hide Pow2;
    ModUnique(Pow2(n), Pow2(64), 0, Pow2(n));
  }

  lemma Half(n: nat)
    ensures if n == 0 then Pow2(n) == 1 else Pow2(n) == 2 * Pow2(n - 1)
  {
  }

  lemma Double(n: nat)
    ensures Pow2(n + 1) == 2 * Pow2(n) > Pow2(n)
  {
  }

  lemma Even(x: nat)
    requires IsPow2(x) && x > 1
    ensures x % 2 == 0
  {
    var k :| x == Pow2(k);
    assert k > 0;
  }

  class ExplicitProducer<T(0)> {
    const pool: Pool<T>
    const half: nat                          // half the range of index_t
    const maxSubqueue: Option<nat>           // MAX_SUBQUEUE_SIZE, if it is not the default "no limit"
    var tailIndex: nat
    var headIndex: nat
    var tailBlock: Option<Block>
    var slotsUsed: nat                       // pr_blockIndexSlotsUsed
    var indexFront: nat                      // pr_blockIndexFront: the next entry
    var published: nat                       // blockIndex->front: the entry consumers start from
    const entries: array<Entry>              // blockIndex->entries
    ghost var drained: nat                   // elements dequeued and marked so in their blocks
    ghost var lo: nat                        // the block of the first element not drained
    ghost var ring: seq<Block>               // the circular list, ending with tailBlock
    ghost var items: seq<T>                  // everything ever enqueued

    ghost function Hi(): nat
      reads this
      requires pool.blockSize > 0
    {
      Started(tailIndex, pool.blockSize)
    }

    /** The blocks below hi are in use; those from hi to end - 1 are claimed by an enqueue under way. */
    ghost predicate Laid(hi: nat, end: nat)
      reads this, pool, pool.cells, entries
    {
      && pool.Valid() && pool.size <= entries.Length && entries.Length > 1
      && Elems(ring) <= pool.Owned() && Distinct(ring)
      && slotsUsed <= |ring| && Capped(|ring|)
      && tailBlock == (if ring == [] then None else Some(ring[|ring| - 1]))
      && Linked(ring, pool.next)
      && drained <= headIndex <= tailIndex == |items|
      && lo * pool.blockSize <= drained < lo * pool.blockSize + pool.blockSize
      && Filled(ring, pool.done, drained, lo, hi, end, pool.blockSize)
      && Indexed(ring, entries[..], lo, end, pool.blockSize)
      && indexFront == end % entries.Length
      && Stored(pool.cells, items, ring, end, drained, pool.blockSize)
    }

    ghost predicate Valid()
      reads this, pool, pool.cells, entries
    {
      pool.blockSize > 0 && Laid(Hi(), Hi()) && Published(Hi()) && drained == headIndex
    }

    /** Consumers start their search at the newest block in use. */
    ghost predicate Published(hi: nat)
      reads this
    {
      hi > 0 && entries.Length > 0 ==> published == (hi - 1) % entries.Length
    }

    /** The queue's contents. */
    ghost function Contents(): seq<T>
      reads this
      requires headIndex <= |items|
    {
      items[headIndex..]
    }

    /** The size limit, if there is one, is a number of whole blocks, and so many blocks keep to it. */
    ghost predicate Capped(blocks: nat) {
      maxSubqueue.Some? ==> pool.blockSize > 0 && maxSubqueue.value % pool.blockSize == 0
                            && blocks * pool.blockSize <= maxSubqueue.value
    }

    /** The index gets room for the whole pool, and its size is a power of two; the size limit is rounded up to whole
        blocks. */
    constructor (pool: Pool<T>, initialIndexSize: nat, half: nat, maxSubqueue: Option<nat>)
      requires pool.Valid() && pool.size <= Pow2(63) && IsPow2(initialIndexSize) && initialIndexSize > 1
      ensures Valid() && this.pool == pool && items == [] && headIndex == 0 && ring == []
      ensures fresh(entries) && IsPow2(entries.Length) && entries.Length >= pool.size
      ensures entries.Length == initialIndexSize || entries.Length < 2 * pool.size
      ensures this.half == half && this.maxSubqueue == WholeBlocks(maxSubqueue, pool.blockSize)
    {
      hide IsPow2, Pow2, IsCeil, Word;
      Double(63);
      var poolBasedIndexSize := CeilToPow2(pool.size, 8);
      IndexSize(pool.size, poolBasedIndexSize, initialIndexSize);
      var indexSize := initialIndexSize / 2;
      if poolBasedIndexSize / 2 > indexSize {
        indexSize := poolBasedIndexSize / 2;
      }
      indexSize := 2 * indexSize;
      this.pool, this.half, this.maxSubqueue := pool, half, WholeBlocks(maxSubqueue, pool.blockSize);
      tailIndex, headIndex := 0, 0;
      tailBlock, slotsUsed, indexFront, published := None, 0, 0, 0;
      entries := new Entry[indexSize](_ => Entry(0, 0));
      ring, items, drained, lo := [], [], 0, 0;
      new;
      if maxSubqueue.Some? { WholeBlocksRound(maxSubqueue.value, pool.blockSize); }
      ModUnique(0, indexSize, 0, 0);
      ModUnique(pool.blockSize - 1, pool.blockSize, 0, pool.blockSize - 1);
      ModUnique(0, pool.blockSize, 0, 0);
    }

    /** How many blocks count more elements need beside those of the ring that are not in use. */
    ghost function Missing(count: nat): int
      reads this
      requires pool.blockSize > 0
    {
      Started(tailIndex + count, pool.blockSize) - lo - |ring|
    }

    /** How far past the head the last block would end. */
    ghost function Reach(count: nat): int
      reads this
      requires pool.blockSize > 0
    {
      Started(tailIndex + count, pool.blockSize) * pool.blockSize - headIndex
    }

    /** What Full says of block end - 1, when it would be a new one: its end is half the range of indices or more past
        the head, or further than the size limit. */
    lemma FullMeans(end: nat)
      requires pool.blockSize > 0 && headIndex < end * pool.blockSize
      ensures var reach := end * pool.blockSize - headIndex;
              Full((end - 1) * pool.blockSize) <==> reach >= half || (maxSubqueue.Some? && reach > maxSubqueue.value)
    {
      assert (end - 1) * pool.blockSize + pool.blockSize == end * pool.blockSize;
    }

    /** A block that may be added to a ring all of whose blocks are in use keeps to the limit. */
    lemma CappedNext(end: nat)
      requires pool.blockSize > 0 && Capped(|ring|) && end - lo == |ring|
               && headIndex < lo * pool.blockSize + pool.blockSize
      requires lo <= end && headIndex < (end + 1) * pool.blockSize && !Full(end * pool.blockSize)
      ensures Capped(|ring| + 1)
    {
      FullMeans(end + 1);
      if maxSubqueue.Some? {
        var bs, blocks := pool.blockSize, maxSubqueue.value / pool.blockSize;
        assert maxSubqueue.value == blocks * bs;
        assert (end + 1) * bs < (blocks + lo + 1) * bs;
        MulMonotone(blocks + lo + 1, end + 1, bs);
        MulMonotone(|ring| + 1, blocks, bs);
      }
    }

    /** The queue never holds more than the size limit. */
    lemma NeverOverLimit()
      requires Valid() && maxSubqueue.Some?
      ensures |Contents()| <= maxSubqueue.value
    {
      StartedBounds(tailIndex, pool.blockSize);
      MulMonotone(Hi() - lo, |ring|, pool.blockSize);
      assert Hi() * pool.blockSize - lo * pool.blockSize == (Hi() - lo) * pool.blockSize;
    }

    /** The queue may not grow by another block: the tail could overtake the head's range, or the
        sub-queue would exceed its size limit. */
    predicate Full(base: int)
      reads this`headIndex
    {
      || !(headIndex < base + pool.blockSize < headIndex + half)
      || (maxSubqueue.Some? && (maxSubqueue.value == 0 || maxSubqueue.value < base - headIndex + pool.blockSize))
    }

    /** entry.base = base; entry.block = tailBlock; and on to the next entry */
    method EnterIndex(base: nat, ghost r: seq<Block>, ghost end: nat)
      requires entries.Length > 1 && tailBlock.Some?
      requires pool.blockSize > 0 && base == end * pool.blockSize && indexFront == end % entries.Length
      requires ring != [] && tailBlock.value == BlockAt(ring, end + 1, end)
      requires Indexed(r, entries[..], lo, end, pool.blockSize)
      requires end + 1 - lo <= |ring| <= entries.Length
      requires forall k :: lo <= k < end ==> BlockAt(ring, end + 1, k) == BlockAt(r, end, k)
      modifies this`indexFront, entries
      ensures Indexed(ring, entries[..], lo, end + 1, pool.blockSize)
      ensures indexFront == (end + 1) % entries.Length
    {
      IndexClaim(r, entries[..], lo, end, pool.blockSize, ring);
      ghost var entries0 := entries[..];
      entries[indexFront] := Entry(base, tailBlock.value);
      assert entries[..] == entries0[end % entries.Length := Entry(base, tailBlock.value)];
      ModShift(end, 1, entries.Length);
      indexFront := (indexFront + 1) % entries.Length;
    }

    lemma RingFacts(hi: nat, end: nat)
      requires pool.blockSize > 0 && Laid(hi, end)
      ensures pool.Valid() && lo <= end && end - lo <= |ring|
      ensures forall i :: 0 <= i < |ring| ==> ring[i] < pool.size
    {
    }

    /** Insert a requisitioned block, already marked, into the ring as block `end`. */
    method TakeNew(block: Block, base: nat, ghost hi: nat, ghost end: nat, ghost hi': nat)
      requires pool.blockSize > 0 && Laid(hi, end) && base == end * pool.blockSize
      requires block in pool.Owned() && block !in ring && block < pool.size && Capped(|ring| + 1)
      requires (pool.done[block] == pool.blockSize && hi' == hi) ||
               (pool.done[block] == 0 == Consumed(drained, end, pool.blockSize) && hi == end && hi' == end + 1)
      modifies this`tailBlock, this`slotsUsed, this`indexFront, this`ring, pool`next, entries
      ensures Laid(hi', end + 1)
      ensures ring == old(ring) + [block] && tailBlock == Some(block) && slotsUsed == old(slotsUsed) + 1
      ensures BlockAt(ring, end + 1, end) == block
      ensures forall k :: lo <= k < end ==> BlockAt(ring, end + 1, k) == BlockAt(old(ring), end, k)
    {
      hide Stored, Filled, Linked, Indexed;
      RingFacts(hi, end);
      ghost var ring0 := ring;
      ghost var next0 := pool.next;
      if tailBlock == None {
        pool.next := pool.next[block := Some(block)];
      } else {
        pool.next := pool.next[block := pool.next[tailBlock.value]];
        pool.next := pool.next[tailBlock.value := Some(block)];
      }
      InsertLinked(ring0, next0, block, pool.next);
      InsertFilled(ring0, pool.done, drained, lo, hi, end, pool.blockSize, block, hi');
      tailBlock := Some(block);
      slotsUsed := slotsUsed + 1;
      ring := ring + [block];
      RingFits(ring, pool.size);
      EnterIndex(base, ring0, end);
      StoredKept(pool.cells, items, ring0, end, drained, lo, pool.blockSize, ring, end + 1);
    }

    /** Take the empty block ahead as block `end`. */
    method TakeAhead(base: nat, ghost hi: nat, ghost end: nat)
      requires pool.blockSize > 0 && Laid(hi, end) && base == end * pool.blockSize
      requires ring != [] && pool.done[ring[0]] == pool.blockSize && end - hi < |ring|
      modifies this`tailBlock, this`indexFront, this`ring, entries
      ensures Laid(hi, end + 1)
      ensures Elems(ring) == Elems(old(ring)) && |ring| == |old(ring)| && tailBlock == Some(old(ring)[0])
      ensures BlockAt(ring, end + 1, end) == old(ring)[0]
      ensures forall k :: lo <= k < end ==> BlockAt(ring, end + 1, k) == BlockAt(old(ring), end, k)
    {
      ghost var ring0 := ring;
      RingFits(ring, pool.size);
      TurnAhead(ring, pool.next, pool.done, drained, lo, hi, end, pool.blockSize);
      tailBlock := pool.next[tailBlock.value];
      ring := Rotate(ring, 1);
      EnterIndex(base, ring0, end);
      StoredKept(pool.cells, items, ring0, end, drained, lo, pool.blockSize, ring, end + 1);
    }

    /** Whether count more elements can be enqueued: the blocks to be started are either empty blocks
        ahead in the ring, or the last of them would not make the queue too long and the pool has the rest. */
    ghost predicate Room(count: nat)
      reads this, pool
      requires pool.Valid()
    {
      || Missing(count) <= 0
      || (Missing(count) <= pool.Available() && Reach(count) < half
          && (maxSubqueue.Some? ==> Reach(count) <= maxSubqueue.value))
    }

    /** What decides it, in terms of the source's test of the last block. */
    lemma RoomByTest(count: nat, end: nat)
      requires pool.Valid() && headIndex <= tailIndex && Hi() < end == Started(tailIndex + count, pool.blockSize)
      ensures Room(count) <==>
              || end - lo <= |ring|
              || (end - lo - |ring| <= pool.Available() && !Full((end - 1) * pool.blockSize))
      ensures Reach(count) == (end - 1) * pool.blockSize + pool.blockSize - headIndex
    {
      hide Started, Full;
      StartedBounds(tailIndex, pool.blockSize);
      NextMultiple(Hi(), end, pool.blockSize);
      FullMeans(end);
    }

    /** Insert a block from the pool for the tail to start, if there is one. */
    method NewBlock(currentTailIndex: nat, ghost hi: nat) returns (ok: bool)
      requires pool.blockSize > 0 && Laid(hi, hi) && drained <= currentTailIndex == hi * pool.blockSize
      requires Capped(|ring| + 1)
      modifies this`tailBlock, this`slotsUsed, this`indexFront, this`published, this`ring
      modifies pool`next, pool`done, pool`issued, pool`free, entries
      ensures ok == (old(pool.Available()) > 0)
      ensures Laid(if ok then hi + 1 else hi, if ok then hi + 1 else hi)
      ensures published == if ok then hi % entries.Length else old(published)
    {
      if slotsUsed == entries.Length {
        RingFits(ring, pool.size);
        PoolInRing();
        return false;
      }
      var block := pool.Requisition();
      if block == None {
        return false;
      }
      FreshBlock(old(pool.Owned()), block.value);
      FilledElsewhere(ring, pool.done, drained, lo, hi, hi, pool.blockSize, block.value, 0);
      NothingConsumed(drained, hi, hi, pool.blockSize);
      pool.done := pool.done[block.value := 0];
      published := indexFront;
      TakeNew(block.value, currentTailIndex, hi, hi, hi + 1);
      return true;
    }

    /** The block after the tail's is empty just when the ring has a block that is not in use. */
    lemma AheadOfTail(hi: nat)
      requires pool.blockSize > 0 && Laid(hi, hi)
      ensures lo <= hi <= lo + |ring| && pool.Valid() && (tailBlock == None <==> ring == []) && Capped(|ring|)
      ensures tailBlock != None ==>
                && tailBlock.value < |pool.next| && pool.Follow(tailBlock.value) == Some(ring[0])
                && ring[0] < |pool.done|
                && (pool.IsEmpty(Some(ring[0])) <==> hi - lo < |ring|)
    {
      if tailBlock != None {
        EmptyAhead(ring, pool.done, drained, lo, hi, hi, pool.blockSize);
        assert LinkedAt(ring, pool.next, |ring| - 1);
      }
    }

    /** Start a block at the tail. */
    method StartBlock(currentTailIndex: nat, ghost hi: nat) returns (ok: bool)
      requires pool.blockSize > 0 && Laid(hi, hi) && hi == Hi() && currentTailIndex == tailIndex == hi * pool.blockSize
      requires drained == headIndex && Started(tailIndex + 1, pool.blockSize) == hi + 1
      modifies this`tailBlock, this`slotsUsed, this`indexFront, this`published, this`ring
      modifies pool`next, pool`done, pool`issued, pool`free, entries
      ensures ok == old(Room(1))
      ensures Laid(if ok then hi + 1 else hi, if ok then hi + 1 else hi)
      ensures published == if ok then hi % entries.Length else old(published)
    {
      hide Stored, Indexed, Filled, Linked, Room, Full, Started, Capped;
      AheadOfTail(hi);
      NothingConsumed(drained, hi, hi, pool.blockSize);
      HeadBefore(hi, hi);
      RoomByTest(1, hi + 1);
      if tailBlock != None && pool.IsEmpty(pool.Follow(tailBlock.value)) {
        published := indexFront;
        TakeAhead(currentTailIndex, hi, hi);
        ResetTail(hi);
        return true;
      }
      if Full(currentTailIndex) {
        return false;
      }
      CappedNext(hi);
      ok := NewBlock(currentTailIndex, hi);
    }

    /** Put an element into the tail's block and advance the tail. */
    method Append(x: T, ghost hi: nat)
      requires pool.blockSize > 0 && Laid(hi, hi) && Started(tailIndex + 1, pool.blockSize) == hi
      requires tailIndex / pool.blockSize == hi - 1 && ring != []
      modifies this`tailIndex, this`items, pool.cells
      ensures Laid(hi, hi) && tailIndex == old(tailIndex) + 1 && items == old(items) + [x]
    {
      pool.Put(tailBlock.value, tailIndex, x, items, ring, hi, drained);
      items := items + [x];
      tailIndex := tailIndex + 1;
    }

    /** enqueue */
    method Enqueue(x: T) returns (ok: bool)
      requires Valid()
      modifies this`tailIndex, this`tailBlock, this`slotsUsed, this`indexFront, this`published, this`ring, this`items
      modifies pool`next, pool`done, pool`issued, pool`free, pool.cells, entries
      ensures Valid()
      ensures ok <==> old(Missing(1) <= 0
                          || (Missing(1) <= pool.Available() && Reach(1) < half
                              && (maxSubqueue.Some? ==> Reach(1) <= maxSubqueue.value)))
      ensures Contents() == if ok then old(Contents()) + [x] else old(Contents())
    {
      ghost var hi := Started(tailIndex + 1, pool.blockSize);
      StartedBounds(tailIndex, pool.blockSize);
      DivBounds(tailIndex, pool.blockSize);
      if tailIndex % pool.blockSize == 0 {
        ok := StartBlock(tailIndex, hi - 1);
        if !ok {
          return;
        }
      }
      Append(x, hi);
      ok := true;
    }

    /** Allocate as many blocks as possible from ahead. */
    method ClaimFromRing(diff: nat, base: int, ghost hi: nat, ghost needed: nat)
      returns (blockBaseDiff: nat, currentTailIndex: int, firstAllocated: Option<Block>, ghost end: nat)
      requires pool.blockSize > 0 && Laid(hi, hi)
      requires Times(diff, needed, pool.blockSize) && Times(base, hi - 1, pool.blockSize)
      modifies this`tailBlock, this`indexFront, this`ring, entries
      ensures hi <= end <= hi + needed && Laid(hi, end)
      ensures Claiming(ring, lo, hi, end, old(tailBlock), firstAllocated)
      ensures Times(blockBaseDiff, needed - (end - hi), pool.blockSize)
              && Times(currentTailIndex, end - 1, pool.blockSize)
      ensures |ring| == |old(ring)| && end == if needed <= |ring| - (hi - lo) then hi + needed else lo + |ring|
    {
      blockBaseDiff, currentTailIndex, firstAllocated, end := diff, base, None, hi;
      ghost var startBlock := tailBlock;
      ghost var left := needed;
      assert Claiming(ring, lo, hi, hi, startBlock, None);
      hide Laid, Claiming, Times;
      while blockBaseDiff > 0 && tailBlock != None && pool.Follow(tailBlock.value) != firstAllocated
            && pool.IsEmpty(pool.Follow(tailBlock.value))
        invariant left <= needed && end == hi + needed - left
        invariant Laid(hi, end) && Claiming(ring, lo, hi, end, startBlock, firstAllocated)
        invariant Times(blockBaseDiff, left, pool.blockSize) && Times(currentTailIndex, end - 1, pool.blockSize)
        invariant |ring| == |old(ring)|
      {
        blockBaseDiff, currentTailIndex := NextBase(blockBaseDiff, currentTailIndex, end, left, pool.blockSize);
        firstAllocated := ClaimNext(currentTailIndex, hi, end, startBlock, firstAllocated);
        end, left := end + 1, left - 1;
      }
      LeftOver(blockBaseDiff, left, pool.blockSize);
      NoneAhead(hi, end, startBlock, firstAllocated);
    }

    method ClaimNext(base: int, ghost hi: nat, ghost end: nat, ghost startBlock: Option<Block>, first: Option<Block>)
      returns (firstAllocated: Option<Block>)
      requires pool.blockSize > 0 && Laid(hi, end) && Claiming(ring, lo, hi, end, startBlock, first)
      requires Times(base, end, pool.blockSize)
      requires tailBlock != None && pool.Follow(tailBlock.value) != first && pool.IsEmpty(pool.Follow(tailBlock.value))
      modifies this`tailBlock, this`indexFront, this`ring, entries
      ensures Laid(hi, end + 1) && Claiming(ring, lo, hi, end + 1, startBlock, firstAllocated)
      ensures |ring| == |old(ring)|
    {
      assert LinkedAt(ring, pool.next, |ring| - 1);
      TakeAhead(base, hi, end);
      firstAllocated := if first == None then tailBlock else first;
    }

    /** When no block ahead can be claimed, all blocks of the ring are in use or claimed. */
    lemma NoneAhead(hi: nat, end: nat, startBlock: Option<Block>, first: Option<Block>)
      requires pool.blockSize > 0 && Laid(hi, end) && Claiming(ring, lo, hi, end, startBlock, first)
      ensures lo <= hi && end - lo <= |ring|
      ensures tailBlock == None || pool.Follow(tailBlock.value) == first
              || !pool.IsEmpty(pool.Follow(tailBlock.value)) ==>
                end - lo == |ring|
    {
      if ring != [] {
        assert LinkedAt(ring, pool.next, |ring| - 1);
        EmptyAhead(ring, pool.done, drained, lo, hi, end, pool.blockSize);
      }
    }

    /** Allocate as many blocks as necessary from the block pool. */
    method ClaimFromPool(diff: nat, base: int, first: Option<Block>, ghost hi: nat, ghost end0: nat, ghost left: nat,
                         ghost startBlock: Option<Block>)
      returns (ok: bool, firstAllocated: Option<Block>, ghost end: nat)
      requires pool.blockSize > 0 && Laid(hi, end0) && Claiming(ring, lo, hi, end0, startBlock, first)
      requires Times(diff, left, pool.blockSize) && Times(base, end0 - 1, pool.blockSize) && headIndex == drained
      requires lo <= end0 && (left > 0 ==> end0 - lo == |ring|)
      modifies this`tailBlock, this`slotsUsed, this`indexFront, this`ring
      modifies pool`next, pool`done, pool`issued, pool`free, entries
      ensures Laid(hi, end) && Claiming(ring, lo, hi, end, startBlock, firstAllocated)
      ensures |ring| >= |old(ring)|
      ensures ok ==> end == end0 + left
      ensures var reach := base + diff + pool.blockSize - headIndex;
              ok <==> left == 0 || (left <= old(pool.Available()) && reach < half
                                    && (maxSubqueue.Some? ==> reach <= maxSubqueue.value))
    {
      hide Laid, Claiming, Full, Times;
      LastBlockEnd(diff, base, hi, end0, left);
      var blockBaseDiff, currentTailIndex := diff, base;
      firstAllocated, end, ok := first, end0, true;
      ghost var rem: nat := left;
      RingFacts(hi, end0);
      LeftOver(blockBaseDiff, rem, pool.blockSize);
      while blockBaseDiff > 0
        invariant rem <= left && end == end0 + left - rem
        invariant Laid(hi, end) && Claiming(ring, lo, hi, end, startBlock, firstAllocated)
        invariant Times(blockBaseDiff, rem, pool.blockSize) && Times(currentTailIndex, end - 1, pool.blockSize)
        invariant currentTailIndex + blockBaseDiff == base + diff
        invariant pool.Valid() && pool.Available() == old(pool.Available()) - (left - rem)
        invariant rem < left ==> !Full(currentTailIndex)
        invariant left > 0 ==> lo <= end && end - lo == |ring|
        invariant ok && (blockBaseDiff == 0 <==> rem == 0) && |ring| >= |old(ring)|
      {
        blockBaseDiff, currentTailIndex := NextBase(blockBaseDiff, currentTailIndex, end, rem, pool.blockSize);
        ok, firstAllocated := ClaimNew(currentTailIndex, hi, end, startBlock, firstAllocated);
        if !ok {
          FullLater(hi, end, currentTailIndex, base + diff);
          return;
        }
        end, rem := end + 1, rem - 1;
        LeftOver(blockBaseDiff, rem, pool.blockSize);
      }
    }

    lemma LastBlockEnd(diff: nat, base: int, hi: nat, end0: nat, left: nat)
      requires pool.blockSize > 0 && Laid(hi, end0) && headIndex == drained && lo <= end0
      requires Times(diff, left, pool.blockSize) && Times(base, end0 - 1, pool.blockSize)
      ensures left > 0 ==>
                var reach := base + diff + pool.blockSize - headIndex;
                Full(base + diff) <==> reach >= half || (maxSubqueue.Some? && reach > maxSubqueue.value)
    {
      if left > 0 {
        LastBase(base, end0, diff, end0 + left, pool.blockSize);
        NextMultiple(lo, end0 + left, pool.blockSize);
        FullMeans(end0 + left);
      }
    }

    /** What is too long with one more block is too long with more blocks. */
    lemma FullLater(hi: nat, end: nat, base: int, last: int)
      requires pool.blockSize > 0 && Laid(hi, end) && headIndex == drained && Times(base, end, pool.blockSize)
               && base <= last
      ensures Full(base) ==> Full(last)
    {
      MulMonotone(lo, end, pool.blockSize);
    }

    lemma HeadBefore(hi: nat, end: nat)
      requires pool.blockSize > 0 && Laid(hi, end) && headIndex == drained && lo <= end
      ensures Capped(|ring|) && headIndex < lo * pool.blockSize + pool.blockSize
              && headIndex < (end + 1) * pool.blockSize
    {
      MulMonotone(lo, end, pool.blockSize);
    }

    method ClaimNew(base: nat, ghost hi: nat, ghost end: nat, ghost startBlock: Option<Block>, first: Option<Block>)
      returns (ok: bool, firstAllocated: Option<Block>)
      requires pool.blockSize > 0 && Laid(hi, end) && Claiming(ring, lo, hi, end, startBlock, first)
      requires Times(base, end, pool.blockSize) && headIndex == drained && lo <= end && end - lo == |ring|
      modifies this`tailBlock, this`slotsUsed, this`indexFront, this`ring
      modifies pool`next, pool`done, pool`issued, pool`free, entries
      ensures Laid(hi, if ok then end + 1 else end) && pool.Valid()
      ensures |ring| == |old(ring)| + (if ok then 1 else 0)
      ensures ok == (!Full(base) && old(pool.Available()) > 0)
      ensures ok ==> pool.Available() == old(pool.Available()) - 1
      ensures Claiming(ring, lo, hi, if ok then end + 1 else end, startBlock, firstAllocated)
    {
      firstAllocated := first;
      if slotsUsed == entries.Length || Full(base) {
        if slotsUsed == entries.Length {
          RingFits(ring, pool.size);
          PoolInRing();
        }
        return false, first;
      }
      var block := pool.Requisition();
      if block == None {
        return false, first;
      }
      FreshBlock(old(pool.Owned()), block.value);
      HeadBefore(hi, end);
      CappedNext(end);
      FilledElsewhere(ring, pool.done, drained, lo, hi, end, pool.blockSize, block.value, pool.blockSize);
      pool.done := pool.done[block.value := pool.blockSize];
      TakeNew(block.value, base, hi, end, hi);
      firstAllocated := if first == None then tailBlock else first;
      return true, firstAllocated;
    }

    /** Undo the claims, but keep the blocks that were inserted. */
    method Undo(startBlock: Option<Block>, firstAllocated: Option<Block>, originalFront: nat, originalSlots: nat,
                ghost hi: nat, ghost end: nat)
      requires pool.blockSize > 0 && Laid(hi, end) && Claiming(ring, lo, hi, end, startBlock, firstAllocated)
      requires originalFront == hi % entries.Length && originalSlots <= |ring| && tailIndex <= hi * pool.blockSize
      modifies this`tailBlock, this`slotsUsed, this`indexFront, this`ring
      ensures Laid(hi, hi)
    {
      hide Linked, Filled, Indexed, Stored, Rotate;
      indexFront := originalFront;
      slotsUsed := originalSlots;
      tailBlock := if startBlock == None then firstAllocated else startBlock;
      if ring != [] {
        ghost var p := StartPosition(ring, lo, hi, end, startBlock, firstAllocated);
        TurnedBack(ring, pool.next, pool.done, drained, lo, hi, end, pool.blockSize, p);
        StoredUnclaimed(pool.cells, items, ring, end, drained, lo, hi, pool.blockSize, Rotate(ring, p + 1));
        IndexedUnclaimed(ring, entries[..], lo, hi, end, pool.blockSize, Rotate(ring, p + 1));
        ring := Rotate(ring, p + 1);
      }
    }

    /** Reset the emptiness of each claimed block. */
    method ResetBlocks(firstAllocated: Block, ghost hi: nat, ghost end: nat)
      requires pool.blockSize > 0 && Laid(hi, end) && hi < end && firstAllocated == BlockAt(ring, end, hi)
      requires drained <= hi * pool.blockSize
      modifies pool`done
      ensures Laid(end, end)
    {
      ghost var p, done0 := |ring| - (end - hi), pool.done;
      var block, more := firstAllocated, true;
      ghost var i := p;
      while more
        invariant p <= i < |ring| && block == ring[i] && |pool.done| == |done0|
        invariant forall j :: 0 <= j < |ring| ==>
                    pool.done[ring[j]] == if p <= j < i || (j == i && !more) then 0 else done0[ring[j]]
        invariant !more ==> i == |ring| - 1
        decreases |ring| - i, more
      {
        OneCount(ring, pool.done, i, 0);
        pool.done := pool.done[block := 0];
        if Some(block) == tailBlock {
          more := false;
        } else {
          assert LinkedAt(ring, pool.next, i);
          block := pool.next[block].value;
          i := i + 1;
        }
      }
      forall k | hi <= k < end ensures Consumed(drained, k, pool.blockSize) == 0 {
        NothingConsumed(drained, hi, k, pool.blockSize);
      }
      ResetClaimed(ring, done0, pool.done, drained, lo, hi, end, pool.blockSize);
    }

    /** Enqueue, one block at a time. */
    method Fill(batch: seq<T>, startBlock: Option<Block>, firstAllocated: Option<Block>, ghost hi: nat, ghost end: nat)
      requires pool.blockSize > 0 && Laid(end, end) && hi == Hi() && end == Started(tailIndex + |batch|, pool.blockSize)
      requires hi <= end && end - hi <= |ring|
               && firstAllocated == if hi < end then Some(BlockAt(ring, end, hi)) else None
      requires if hi == end then startBlock == tailBlock && (batch != [] ==> ring != []) else
                 tailIndex % pool.blockSize != 0 ==> end - hi < |ring| && startBlock == Some(BlockAt(ring, end, hi - 1))
      modifies this`tailIndex, this`items, pool.cells
      ensures Laid(end, end)
      ensures items == old(items) + batch && tailIndex == old(tailIndex) + |batch|
    {
      var onBoundary := tailIndex % pool.blockSize == 0 && firstAllocated != None;
      ghost var k0 := if onBoundary then hi as int else hi - 1;
      FirstBlock(tailIndex, |batch|, hi, end, pool.blockSize, k0);
      if batch != [] {
        LinkedChained(ring, pool.next, end, k0);
      }
      pool.Fill(batch, tailIndex, if onBoundary then firstAllocated else startBlock, tailBlock, items, ring, end,
                drained, k0);
      items := items + batch;
      tailIndex := tailIndex + |batch|;
    }

    /** Make room for count elements: claim the blocks they need, or undo everything. */
    method Claim(count: nat, startBlock: Option<Block>, blockBaseDiff: nat, base: int, ghost hi: nat, ghost end: nat)
      returns (ok: bool, firstAllocated: Option<Block>)
      requires pool.blockSize > 0 && Laid(hi, hi) && drained == headIndex && hi == Hi() && startBlock == tailBlock
      requires end == Started(tailIndex + count, pool.blockSize) && hi < end
      requires Times(blockBaseDiff, end - hi, pool.blockSize) && Times(base, hi - 1, pool.blockSize)
      modifies this`tailBlock, this`slotsUsed, this`indexFront, this`published, this`ring
      modifies pool`next, pool`done, pool`issued, pool`free, entries
      ensures ok == old(Room(count))
      ensures ok ==> Laid(end, end) && Claiming(ring, lo, hi, end, startBlock, firstAllocated)
      ensures ok ==> published == (end - 1) % entries.Length
      ensures !ok ==> Laid(hi, hi) && published == old(published)
    {
      hide Filled, Indexed, Stored, Linked, Times, Started, Full;
      var originalFront, originalSlots := indexFront, slotsUsed;
      ghost var mid;
      var diff, currentTailIndex;
      AheadOfTail(hi);
      RoomByTest(count, end);
      StartedBounds(tailIndex, pool.blockSize);
      diff, currentTailIndex, firstAllocated, mid := ClaimFromRing(blockBaseDiff, base, hi, end - hi);
      LastBase(currentTailIndex, mid, diff, end, pool.blockSize);
      ok, firstAllocated, mid := ClaimFromPool(diff, currentTailIndex, firstAllocated, hi, mid, end - mid, startBlock);
      if !ok {
        Undo(startBlock, firstAllocated, originalFront, originalSlots, hi, mid);
        return;
      }
      ResetBlocks(firstAllocated.value, hi, end);
      ModShift(end, -1, entries.Length);
      published := (indexFront - 1) % entries.Length;
    }

    /** enqueue_bulk: all of the elements in order, or none. */
    method EnqueueBulk(batch: seq<T>) returns (ok: bool)
      requires Valid()
      modifies this`tailIndex, this`tailBlock, this`slotsUsed, this`indexFront, this`published, this`ring, this`items
      modifies pool`next, pool`done, pool`issued, pool`free, pool.cells, entries
      ensures Valid()
      ensures ok <==> old(Missing(|batch|) <= 0
                          || (Missing(|batch|) <= pool.Available() && Reach(|batch|) < half
                              && (maxSubqueue.Some? ==> Reach(|batch|) <= maxSubqueue.value)))
      ensures Contents() == if ok then old(Contents()) + batch else old(Contents())
    {
      var startTailIndex, startBlock, firstAllocated := tailIndex, tailBlock, None;
      hide Indexed, Stored, Times, Linked, Filled;
      ghost var hi, end := Hi(), Started(tailIndex + |batch|, pool.blockSize);
      RingFacts(hi, hi);
      var base := Floor(startTailIndex - 1, pool.blockSize);
      var blockBaseDiff := Floor(startTailIndex + |batch| - 1, pool.blockSize) - base;
      BaseDiff(startTailIndex, |batch|, pool.blockSize);
      LeftOver(blockBaseDiff, end - hi, pool.blockSize);
      TailBlock(startTailIndex, |batch|, drained, lo, pool.blockSize);
      if blockBaseDiff > 0 {
        ok, firstAllocated := Claim(|batch|, startBlock, blockBaseDiff, base, hi, end);
        if !ok {
          return;
        }
      }
      Fill(batch, startBlock, firstAllocated, hi, end);
      ok := true;
    }

    /** When the index is full the ring holds the whole pool. */
    lemma PoolInRing()
      requires pool.Valid() && Distinct(ring) && Elems(ring) <= pool.Owned() && pool.size <= |ring|
      ensures pool.Available() == 0
    {
      DistinctSize(ring);
      SubsetSize(Elems(ring), pool.Owned());
      pool.Conserved();
    }

    lemma FreshBlock(owned: set<Block>, block: Block)
      requires Elems(ring) <= owned && block !in owned
      ensures block !in ring
    {
      assert block !in Elems(ring);
    }

    /** reset_empty of the block just taken from ahead. */
    method ResetTail(ghost hi: nat)
      requires pool.blockSize > 0 && Laid(hi, hi + 1) && tailBlock.Some? && Consumed(drained, hi, pool.blockSize) == 0
      modifies pool`done
      ensures Laid(hi + 1, hi + 1)
    {
      ghost var done0 := pool.done;
      OneCount(ring, pool.done, |ring| - 1, 0);
      pool.done := pool.done[tailBlock.value := 0];
      ResetClaimed(ring, done0, pool.done, drained, lo, hi, hi + 1, pool.blockSize);
    }

    /** Where a consumer that has claimed `index` finds its block: at block lo's entry. */
    lemma LookupHead(index: nat)
      requires pool.blockSize > 0 && Laid(Hi(), Hi()) && Published(Hi())
      requires lo * pool.blockSize <= index < lo * pool.blockSize + pool.blockSize && index < tailIndex
      ensures lo < Hi() && published < entries.Length
      ensures LookupSlot(published, entries[published].base, index, pool.blockSize, entries.Length)
              == lo % entries.Length
      ensures entries[lo % entries.Length].block == BlockAt(ring, Hi(), lo)
    {
      hide Stored, Filled, Linked, Started;
      var bs := pool.blockSize;
      StartedBounds(tailIndex, bs);
      MulMonotone(Hi(), lo, bs);
      assert entries[..][(Hi() - 1) % entries.Length] == Entry((Hi() - 1) * bs, BlockAt(ring, Hi(), Hi() - 1));
      assert entries[..][lo % entries.Length] == Entry(lo * bs, BlockAt(ring, Hi(), lo));
      LookupFinds(published, Hi() - 1, index, bs, entries.Length);
      ModUnique(index, bs, lo, index - lo * bs);
    }

    /** So growing the index when it is full would not lose a block in use: the bigger index finds for every element not
        drained the entry that this one finds, from whichever block in use is exposed as its front. */
    lemma GrowthKeepsLookup(grown: seq<Entry>, expose: nat, from: nat, index: nat)
      requires Valid() && slotsUsed == entries.Length
      requires GrownFrom(grown, entries[..], indexFront, slotsUsed)
      requires 0 < expose && slotsUsed - (Hi() - lo) < expose <= slotsUsed && lo <= from < Hi()
      requires drained <= index < tailIndex
      ensures SameEntryFound(entries[..], grown, indexFront, Hi(), from, expose, pool.blockSize, index)
    {
      var bs, end := pool.blockSize, Hi();
      RingFits(ring, pool.size);
      BlockBelow(lo, index, bs);
      StartedBounds(tailIndex, bs);
      BlockAbove(end, index, bs);
      IndexGrows(ring, entries[..], lo, end, bs, grown, expose, from, index);
    }

    /** set_empty and set_many_empty: count elements of the block lo have been dequeued. */
    method SetManyEmpty(block: Block, count: nat)
      requires pool.blockSize > 0 && Laid(Hi(), Hi()) && lo < Hi() && block == BlockAt(ring, Hi(), lo)
      requires drained + count <= headIndex && drained + count <= lo * pool.blockSize + pool.blockSize
      modifies pool`done, this`drained, this`lo
      ensures Laid(Hi(), Hi()) && drained == old(drained) + count
      ensures lo == if drained == old(lo) * pool.blockSize + pool.blockSize then old(lo) + 1 else old(lo)
    {
      ghost var lo' := if drained + count == lo * pool.blockSize + pool.blockSize then lo + 1 else lo;
      ConsumeFilled(ring, pool.done, drained, lo, Hi(), pool.blockSize, count, lo');
      HeadBlock(drained, lo, pool.blockSize, count, lo');
      IndexedFrom(ring, entries[..], lo, Hi(), pool.blockSize, lo');
      StoredFrom(pool.cells, items, ring, Hi(), drained, pool.blockSize, drained + count);
      pool.done := pool.done[block := pool.done[block] + count];
      drained, lo := drained + count, lo';
    }

    /** dequeue: the oldest element, if there is one. With one thread at a time the optimistic count
        settles at head + overcommit, and its two tests come down to comparing head and tail. */
    method Dequeue() returns (x: Option<T>)
      requires Valid()
      modifies this`headIndex, this`drained, this`lo, pool`done
      ensures Valid()
      ensures x == if old(Contents()) == [] then None else Some(old(Contents())[0])
      ensures Contents() == if old(Contents()) == [] then [] else old(Contents())[1..]
    {
      x := None;
      if headIndex < tailIndex {
        var index := headIndex;
        headIndex := headIndex + 1;
        LookupHead(index);
        var slot := LookupSlot(published, entries[published].base, index, pool.blockSize, entries.Length);
        var block := entries[slot].block;
        var part := pool.Read(block, index, index + 1, items, ring, Hi(), drained, lo);
        x := Some(part[0]);
        SetManyEmpty(block, 1);
      }
    }

    /** dequeue_bulk: the oldest min(max, size) elements, in order. */
    method DequeueBulk(max: nat) returns (out: seq<T>)
      requires Valid()
      modifies this`headIndex, this`drained, this`lo, pool`done
      ensures Valid()
      ensures |out| == if max < |old(Contents())| then max else |old(Contents())|
      ensures out == old(Contents())[..|out|] && Contents() == old(Contents())[|out|..]
    {
      out := [];
      if headIndex < tailIndex {
        var actualCount := if tailIndex - headIndex < max then tailIndex - headIndex else max;
        var firstIndex := headIndex;
        headIndex := headIndex + actualCount;
        out := DequeueBlocks(firstIndex, actualCount);
      }
    }

    /** Dequeue the claimed elements of one block. */
    method DequeueBlock(indexIndex: nat, index: nat, stop: nat) returns (part: seq<T>, endIndex: nat)
      requires pool.blockSize > 0 && Laid(Hi(), Hi()) && Published(Hi())
      requires index == drained < tailIndex && index <= stop == headIndex && indexIndex == lo % entries.Length
      modifies this`drained, this`lo, pool`done
      ensures Laid(Hi(), Hi()) && index <= endIndex == drained <= stop && part == items[index..endIndex]
      ensures endIndex != stop ==> index < endIndex && lo == old(lo) + 1
    {
      ModUnique(index, pool.blockSize, lo, index - lo * pool.blockSize);
      endIndex := Floor(index, pool.blockSize) + pool.blockSize;
      endIndex := if stop < endIndex then stop else endIndex;
      LookupHead(index);
      var block := entries[indexIndex].block;
      part := pool.Read(block, index, endIndex, items, ring, Hi(), drained, lo);
      SetManyEmpty(block, endIndex - index);
    }

    /** Iterate the blocks of the claimed elements and dequeue them. */
    method DequeueBlocks(firstIndex: nat, actualCount: nat) returns (out: seq<T>)
      requires pool.blockSize > 0 && Laid(Hi(), Hi()) && Published(Hi())
      requires firstIndex == drained < tailIndex && firstIndex + actualCount == headIndex
      modifies this`drained, this`lo, pool`done
      ensures Laid(Hi(), Hi()) && drained == headIndex
      ensures out == items[firstIndex..headIndex]
    {
      LookupHead(firstIndex);
      hide Filled, Indexed, Stored, Linked, Started;
      out := [];
      var indexIndex := LookupSlot(published, entries[published].base, firstIndex, pool.blockSize, entries.Length);
      var index, more, part := firstIndex, true, [];
      while more
        invariant Laid(Hi(), Hi()) && Published(Hi())
        invariant firstIndex <= index == drained <= headIndex
        invariant out == items[firstIndex..index]
        invariant more ==> index < tailIndex && indexIndex == lo % entries.Length
        invariant !more ==> index == headIndex
        decreases headIndex - index, more
      {
        ModShift(lo, 1, entries.Length);
        part, index := DequeueBlock(indexIndex, index, firstIndex + actualCount);
        out := out + part;
        indexIndex := (indexIndex + 1) % entries.Length;
        more := index != firstIndex + actualCount;
      }
    }
  }
}
