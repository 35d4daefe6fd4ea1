/** ImplicitProducer of concurrentqueue.h, in allocation mode CannotAlloc, as an object used by one thread at
    a time. Unlike an explicit producer it gives every used-up block back to the pool, and it rewinds its
    block index when a bulk enqueue fails. It is proved to be a FIFO queue that leaks no block. */
module ImplicitQueue {
  import opened Collections
  import opened Options
  import opened ModArith
  import opened BlockMath
  import opened BlockPool

  /** The base of block k is never the invalid one. */
  lemma BaseValid(k: nat, bs: nat)
    requires bs > 1
    ensures k * bs != INVALID_BLOCK_BASE
  {
    assert k >= 1 ==> k * bs >= bs;
  }

  // ---------------------------------------------------------------- the block index, as a value

  /** The index entry of block k holds its base and the block. */
  ghost predicate IsEntry(keys: seq<nat>, values: seq<Option<Block>>, k: nat, bs: nat, b: Block) {
    && 0 < |keys| == |values|
    && keys[k % |keys|] == k * bs && values[k % |keys|] == Some(b)
  }

  /** Block k can be entered. */
  ghost predicate IsFree(keys: seq<nat>, values: seq<Option<Block>>, k: nat) {
    && 0 < |keys| == |values|
    && (keys[k % |keys|] == INVALID_BLOCK_BASE || values[k % |keys|] == None)
  }

  /** The entries of the live blocks lo, ... end - 1 are in place and all others are free. */
  ghost predicate Entered(live: seq<Block>, keys: seq<nat>, values: seq<Option<Block>>, lo: nat, end: nat, bs: nat) {
    && 0 < |keys| == |values|
    && lo <= end && end - lo == |live| <= |keys|
    && (forall k :: lo <= k < end ==> IsEntry(keys, values, k, bs, BlockAt(live, end, k)))
    && (forall k :: end <= k < lo + |keys| ==> IsFree(keys, values, k))
  }

  /** The count of each live block. */
  ghost predicate Counted(live: seq<Block>, done: seq<nat>, head: nat, lo: nat, end: nat, bs: nat) {
    && lo <= end && end - lo == |live|
    && (forall i :: 0 <= i < |live| ==> live[i] < |done|)
    && (forall k :: lo <= k < end ==> done[BlockAt(live, end, k)] == Consumed(head, k, bs))
  }

  /** Entering block `end`. */
  lemma EnterBlock(live: seq<Block>, keys: seq<nat>, values: seq<Option<Block>>, lo: nat, end: nat, bs: nat, b: Block)
    requires Entered(live, keys, values, lo, end, bs) && |live| < |keys|
    ensures var s := end % |keys|;
            Entered(live + [b], keys[s := end * bs], values[s := Some(b)], lo, end + 1, bs)
  {
    var s := end % |keys|;
    var keys', values', e := keys[s := end * bs], values[s := Some(b)], end + 1;
    forall k | lo <= k < e ensures IsEntry(keys', values', k, bs, BlockAt(live + [b], e, k)) {
      if k < end {
        assert IsEntry(keys, values, k, bs, BlockAt(live, end, k));
        ModDistinct(k, end, |keys|);
      }
    }
    forall k | e <= k < lo + |keys| ensures IsFree(keys', values', k) {
      assert IsFree(keys, values, k);
      ModDistinct(end, k, |keys|);
    }
  }

  /** Entering only the base of block `end` and taking it back changes nothing. */
  lemma EnterNothing(live: seq<Block>, keys: seq<nat>, values: seq<Option<Block>>, lo: nat, end: nat, bs: nat)
    requires Entered(live, keys, values, lo, end, bs) && |live| < |keys|
    ensures var s := end % |keys|; Entered(live, keys[s := end * bs], values[s := None], lo, end, bs)
  {
    var s := end % |keys|;
    var keys', values' := keys[s := end * bs], values[s := None];
    forall k | lo <= k < end ensures IsEntry(keys', values', k, bs, BlockAt(live, end, k)) {
      assert IsEntry(keys, values, k, bs, BlockAt(live, end, k));
      ModDistinct(k, end, |keys|);
    }
    forall k | end <= k < lo + |keys| ensures IsFree(keys', values', k) {
      assert IsFree(keys, values, k);
      if k != end {
        ModDistinct(end, k, |keys|);
      }
    }
  }

  /** There is room in the index exactly when fewer blocks are live than it has entries. */
  lemma RoomInIndex(live: seq<Block>, keys: seq<nat>, values: seq<Option<Block>>, lo: nat, end: nat, bs: nat)
    requires Entered(live, keys, values, lo, end, bs) && bs > 1
    ensures IsFree(keys, values, end) <==> |live| < |keys|
  {
    if |live| == |keys| {
      assert IsEntry(keys, values, lo, bs, BlockAt(live, end, lo));
      ModShift(lo, 0, |keys|);
      ModUnique(lo + |keys|, |keys|, lo / |keys| + 1, lo % |keys|);
      BaseValid(lo, bs);
    }
  }

  /** Freeing block lo. */
  lemma LeaveBlock(live: seq<Block>, keys: seq<nat>, values: seq<Option<Block>>, lo: nat, end: nat, bs: nat)
    requires Entered(live, keys, values, lo, end, bs) && lo < end
    ensures Entered(live[1..], keys, values[lo % |keys| := None], lo + 1, end, bs)
  {
    var values' := values[lo % |keys| := None];
    forall k | lo + 1 <= k < end ensures IsEntry(keys, values', k, bs, BlockAt(live[1..], end, k)) {
      assert IsEntry(keys, values, k, bs, BlockAt(live, end, k));
      ModDistinct(lo, k, |keys|);
    }
    forall k | end <= k < lo + 1 + |keys| ensures IsFree(keys, values', k) {
      if k == lo + |keys| {
        ModUnique(lo + |keys|, |keys|, lo / |keys| + 1, lo % |keys|);
      } else {
        assert IsFree(keys, values, k);
      }
    }
  }

  /** Freeing or adding blocks keeps the counts of the others. */
  lemma CountedRest(live: seq<Block>, done: seq<nat>, head: nat, lo: nat, end: nat, bs: nat)
    requires Counted(live, done, head, lo, end, bs) && lo < end
    ensures Counted(live[1..], done, head, lo + 1, end, bs)
  {
    forall k | lo + 1 <= k < end ensures done[BlockAt(live[1..], end, k)] == Consumed(head, k, bs) {
      assert BlockAt(live[1..], end, k) == BlockAt(live, end, k);
    }
  }

  lemma CountedMore(live: seq<Block>, done: seq<nat>, head: nat, lo: nat, end: nat, bs: nat, b: Block)
    requires Counted(live, done, head, lo, end, bs) && b !in live && b < |done| && Consumed(head, end, bs) == 0
    ensures Counted(live + [b], done[b := 0], head, lo, end + 1, bs)
  {
    var done', e := done[b := 0], end + 1;
    forall k | lo <= k < e ensures done'[BlockAt(live + [b], e, k)] == Consumed(head, k, bs) {
      if k < end {
        assert BlockAt(live + [b], e, k) == BlockAt(live, end, k) == live[k - lo];
      }
    }
  }

  /** c elements of the head's block are dequeued. */
  lemma CountedDequeue(live: seq<Block>, done: seq<nat>, head: nat, lo: nat, end: nat, bs: nat, c: nat)
    requires Counted(live, done, head, lo, end, bs) && Distinct(live) && lo < end && bs > 1
    requires lo * bs <= head && head + c <= lo * bs + bs
    ensures var b := live[0];
            && done[b] + c == head + c - lo * bs
            && Counted(live, done[b := done[b] + c], head + c, lo, end, bs)
  {
    var b := live[0];
    assert BlockAt(live, end, lo) == b;
    var done' := done[b := done[b] + c];
    forall k | lo <= k < end ensures done'[BlockAt(live, end, k)] == Consumed(head + c, k, bs) {
      if k > lo {
        assert BlockAt(live, end, k) == live[k - lo] != b;
        NextMultiple(lo, k, bs);
      }
    }
  }

  // ---------------------------------------------------------------- how much fits

  /** What decides how much a producer can still enqueue: where its queue begins and ends, the block of its first
      element not drained, and how many blocks it can have at once. */
  datatype Space = Space(tail: nat, head: nat, lo: nat, bs: nat, blocks: nat, half: nat, maxSubqueue: Option<nat>)

  predicate TooLong(sp: Space, base: int) {
    || !(sp.head < base + sp.bs < sp.head + sp.half)
    || (sp.maxSubqueue.Some? && (sp.maxSubqueue.value == 0 || sp.maxSubqueue.value < base - sp.head + sp.bs))
  }

  /** The tail's block has room for n more elements, or the blocks that they need can be had. */
  predicate Fits(sp: Space, n: nat)
    requires sp.bs > 0
  {
    var end := Started(sp.tail + n, sp.bs);
    end <= Started(sp.tail, sp.bs) || (!TooLong(sp, (end - 1) * sp.bs) && end - sp.lo <= sp.blocks)
  }

  /** One by one as many elements fit as at once. */
  lemma FitsOneByOne(sp: Space, n: nat)
    requires sp.bs > 1 && sp.head <= sp.tail
    ensures Fits(sp, n + 1) <==> Fits(sp, 1) && Fits(sp.(tail := sp.tail + 1), n)
  {
    hide Started, TooLong;
    var t, bs := sp.tail, sp.bs;
    var s0, s1, s2 := Started(t, bs), Started(t + 1, bs), Started(t + n + 1, bs);
    StartedBounds(t, bs);
    StartedGrows(t + 1, n, bs);
    assert Started(t + 1 + n, bs) == Started(t + (n + 1), bs) == s2;
    LongerStill(sp, t, (s2 - 1) * bs);
    if s0 < s1 {
      assert s0 * bs == t by { LastBlock(t, bs); }
      MulMonotone(s1 - 1, s2 - 1, bs);
      LongerStill(sp, (s1 - 1) * bs, (s2 - 1) * bs);
    }
  }

  /** With more to enqueue the queue would be too long all the same; where it ends now does not matter. */
  lemma LongerStill(sp: Space, base: nat, further: int)
    requires sp.bs > 0 && sp.head <= base
    ensures base <= further && TooLong(sp, base) ==> TooLong(sp, further)
    ensures TooLong(sp.(tail := sp.tail + 1), further) <==> TooLong(sp, further)
  {
  }

  /** One more element is refused exactly when it would start a block and no block can be had. */
  lemma RefusedExactly(sp: Space)
    requires sp.bs > 1
    ensures !Fits(sp, 1) <==> sp.tail % sp.bs == 0 && (TooLong(sp, sp.tail) || sp.tail / sp.bs - sp.lo >= sp.blocks)
  {
    StartedBounds(sp.tail, sp.bs);
    if sp.tail % sp.bs == 0 {
      DivBounds(sp.tail, sp.bs);
    }
  }

  // ---------------------------------------------------------------- the producer

  class ImplicitProducer<T(0)> {
    const pool: Pool<T>
    const half: nat                          // half the range of index_t
    const maxSubqueue: Option<nat>           // MAX_SUBQUEUE_SIZE, if it is not the default "no limit"
    var tailIndex: nat
    var headIndex: nat
    var tailBlock: Option<Block>             // may be a block given back already
    var indexTail: nat                       // blockIndex->tail
    const keys: array<nat>                   // the entries' keys
    const values: array<Option<Block>>       // the entries' values
    ghost var drained: nat                   // elements dequeued and marked so in their blocks
    ghost var lo: nat                        // the block of the first element not drained
    ghost var live: seq<Block>               // blocks lo, ... : those that are not used up
    ghost var items: seq<T>                  // everything ever enqueued

    ghost function Hi(): nat
      reads this
      requires pool.blockSize > 0
    {
      Started(tailIndex, pool.blockSize)
    }

    /** The blocks below `end` are started; some may be claimed by an enqueue under way. */
    ghost predicate Laid(end: nat)
      reads this, pool, pool.cells, keys, values
    {
      && pool.Valid()
      && Distinct(live) && Elems(live) <= pool.Owned()
      && drained <= headIndex <= tailIndex == |items|
      && lo * pool.blockSize <= drained < lo * pool.blockSize + pool.blockSize
      && Counted(live, pool.done, drained, lo, end, pool.blockSize)
      && Entered(live, keys[..], values[..], lo, end, pool.blockSize)
      && indexTail == (end - 1) % keys.Length
      && Stored(pool.cells, items, live, end, drained, pool.blockSize)
    }

    ghost predicate Valid()
      reads this, pool, pool.cells, keys, values
    {
      && pool.blockSize > 0 && Laid(Hi()) && drained == headIndex
      && (tailIndex % pool.blockSize != 0 ==> live != [] && tailBlock == Some(live[|live| - 1]))
      && (maxSubqueue.Some? ==> Hi() * pool.blockSize <= headIndex + maxSubqueue.value)
    }

    ghost function Contents(): seq<T>
      reads this
      requires headIndex <= |items|
    {
      items[headIndex..]
    }

    constructor (pool: Pool<T>, initialIndexSize: nat, half: nat, maxSubqueue: Option<nat>)
      requires pool.Valid() && initialIndexSize > 1
      ensures Valid() && this.pool == pool && items == [] && headIndex == 0 && live == []
      ensures this.half == half && this.maxSubqueue == WholeBlocks(maxSubqueue, pool.blockSize)
      ensures fresh(keys) && fresh(values) && keys.Length == initialIndexSize
    {
      this.pool, this.half, this.maxSubqueue := pool, half, WholeBlocks(maxSubqueue, pool.blockSize);
      tailIndex, headIndex, tailBlock := 0, 0, None;
      indexTail := initialIndexSize - 1;
      keys := new nat[initialIndexSize](_ => INVALID_BLOCK_BASE);
      values := new Option<Block>[initialIndexSize];
      live, items, drained, lo := [], [], 0, 0;
      new;
      ModUnique(-1, initialIndexSize, -1, initialIndexSize - 1);
      ModUnique(pool.blockSize - 1, pool.blockSize, 0, pool.blockSize - 1);
      ModUnique(0, pool.blockSize, 0, 0);
      forall k | 0 <= k < keys.Length ensures IsFree(keys[..], values[..], k) {
        ModUnique(k, keys.Length, 0, k);
      }
    }

    /** The queue may not grow by another block: the tail could overtake the head's range, or the
        sub-queue would exceed its size limit. */
    predicate Full(base: int)
      reads this`headIndex
    {
      || !(headIndex < base + pool.blockSize < headIndex + half)
      || (maxSubqueue.Some? && (maxSubqueue.value == 0 || maxSubqueue.value < base - headIndex + pool.blockSize))
    }

    /** How many blocks count more elements would start. */
    ghost function Needed(count: nat): int
      reads this
      requires pool.blockSize > 0
    {
      Started(tailIndex + count, pool.blockSize) - Hi()
    }

    /** How far past the head the last block would end. */
    ghost function Reach(count: nat): int
      reads this
      requires pool.blockSize > 0
    {
      Started(tailIndex + count, pool.blockSize) * pool.blockSize - headIndex
    }

    /** Whether count more elements can be enqueued: the queue would not be too long with the last of the
        blocks to be started, and the pool has the blocks and the index the entries for them. */
    ghost predicate Room(count: nat)
      reads this, pool
      requires pool.Valid()
    {
      || Needed(count) <= 0
      || (Reach(count) < half && (maxSubqueue.Some? ==> Reach(count) <= maxSubqueue.value)
          && Needed(count) <= pool.Available() && |live| + Needed(count) <= keys.Length)
    }

    lemma RoomMeans(count: nat)
      requires pool.Valid()
      ensures Room(count) <==>
              || Needed(count) <= 0
              || (Reach(count) < half && (maxSubqueue.Some? ==> Reach(count) <= maxSubqueue.value)
                  && Needed(count) <= pool.Available() && |live| + Needed(count) <= keys.Length)
      ensures Started(tailIndex + count, pool.blockSize) <= Hi() ==> Room(count)
    {
    }

    /** What Full says of a block that ends after the head: its end is half the range of indices or more past the head,
        or further than the size limit. */
    lemma FullMeans(end: nat)
      requires pool.blockSize > 0 && headIndex < end * pool.blockSize
      ensures var reach := end * pool.blockSize - headIndex;
              Full((end - 1) * pool.blockSize) <==> reach >= half || (maxSubqueue.Some? && reach > maxSubqueue.value)
    {
      assert (end - 1) * pool.blockSize + pool.blockSize == end * pool.blockSize;
    }

    /** What decides it, in terms of the source's test of the last block. */
    lemma RoomByTest(count: nat, end: nat)
      requires pool.Valid() && headIndex <= tailIndex && Hi() < end == Started(tailIndex + count, pool.blockSize)
      ensures Room(count) <==>
              && !Full((end - 1) * pool.blockSize) && end - Hi() <= pool.Available()
              && |live| + (end - Hi()) <= keys.Length
      ensures Room(count) && maxSubqueue.Some? ==> end * pool.blockSize <= headIndex + maxSubqueue.value
    {
      hide Started, Full;
      StartedBounds(tailIndex, pool.blockSize);
      NextMultiple(Hi(), end, pool.blockSize);
      FullMeans(end);
    }

    /** The queue never holds more than the size limit. */
    lemma NeverOverLimit()
      requires Valid() && maxSubqueue.Some?
      ensures |Contents()| <= maxSubqueue.value
    {
      StartedBounds(tailIndex, pool.blockSize);
    }

    ghost function SpaceLeft(): Space
      reads this, pool
    {
      var left := pool.size - |pool.Owned() - Elems(live)|;
      Space(tailIndex, headIndex, lo, pool.blockSize,
                  if left < 0 then 0 else if left < keys.Length then left else keys.Length, half, maxSubqueue)
    }

    /** The producer's blocks and those still available are the ones nobody else has. */
    lemma RoomIsFits(n: nat)
      requires Valid()
      ensures Room(n) <==> Fits(SpaceLeft(), n)
      ensures headIndex <= tailIndex == |items| && pool.blockSize > 1
    {
      hide Laid, Full, TooLong, Started;
      var end := Started(tailIndex + n, pool.blockSize);
      BlocksToHave(if Hi() < end then end - Hi() else 0);
      if Hi() < end {
        RoomByTest(n, end);
        SameTest((end - 1) * pool.blockSize);
      }
    }

    lemma SameTest(base: int)
      ensures Full(base) <==> TooLong(SpaceLeft(), base)
    {
    }

    lemma BlocksToHave(n: nat)
      requires Valid()
      ensures pool.Valid() && headIndex <= tailIndex == |items| && |live| == Hi() - lo
      ensures n <= pool.Available() && |live| + n <= keys.Length <==> |live| + n <= SpaceLeft().blocks
    {
      LaidShape(Hi());
      DistinctSize(live);
      pool.Conserved();
      SubsetSize(Elems(live), pool.Owned());
    }

    /** rewind_block_index_tail */
    method RewindIndexTail(ghost last: nat)
      requires keys.Length > 0 && indexTail == last % keys.Length
      modifies this`indexTail
      ensures indexTail == (last - 1) % keys.Length
    {
      ModShift(last, -1, keys.Length);
      indexTail := (indexTail - 1) % keys.Length;
    }

    /** insert_block_index_entry: the entry that was taken, if it was free. */
    method InsertIndexEntry(base: nat, ghost end: nat) returns (entry: Option<nat>)
      requires pool.blockSize > 0 && Laid(end) && Times(base, end, pool.blockSize)
      modifies this`indexTail, keys
      ensures entry == None <==> |live| == keys.Length
      ensures entry == None ==> unchanged(this) && unchanged(keys)
      ensures entry.Some? ==>
                && entry.value == indexTail == end % keys.Length
                && keys[..] == old(keys[..])[end % keys.Length := base]
    {
      ModShift(end - 1, 1, keys.Length);
      RoomInIndex(live, keys[..], values[..], lo, end, pool.blockSize);
      var newTail := (indexTail + 1) % keys.Length;
      if keys[newTail] == INVALID_BLOCK_BASE || values[newTail] == None {
        keys[newTail] := base;
        indexTail := newTail;
        return Some(newTail);
      }
      return None;
    }

    /** Start block `end`: take an index entry, then a block from the pool; without a block take the
        entry back. */
    method AddBlock(base: nat, ghost end: nat) returns (newBlock: Option<Block>)
      requires pool.blockSize > 0 && Laid(end) && Times(base, end, pool.blockSize) && drained <= base
      modifies this`indexTail, this`live, keys, values, pool`issued, pool`free, pool`done
      ensures pool.Valid()
      ensures newBlock == None <==> old(pool.Available()) == 0 || |old(live)| == keys.Length
      ensures newBlock == None ==>
                Laid(end) && live == old(live) && pool.Owned() == old(pool.Owned())
                  && pool.Available() == old(pool.Available())
      ensures newBlock.Some? ==>
                && Laid(end + 1) && live == old(live) + [newBlock.value]
                && pool.Available() == old(pool.Available()) - 1
                && newBlock.value < pool.size && newBlock.value !in old(pool.Owned())
                && pool.Owned() == old(pool.Owned()) + {newBlock.value}
    {
      hide Stored, Counted, Entered;
      LaidShape(end);
      ghost var keys0, values0, live0 := keys[..], values[..], live;
      var entry := InsertIndexEntry(base, end);
      if entry == None {
        return None;
      }
      newBlock := pool.Requisition();
      if newBlock == None {
        EnterNothing(live, keys0, values0, lo, end, pool.blockSize);
        RewindIndexTail(end);
        values[entry.value] := None;
        assert values[..] == values0[end % keys.Length := None];
        return;
      }
      NothingConsumed(drained, end, end, pool.blockSize);
      CountedMore(live, pool.done, drained, lo, end, pool.blockSize, newBlock.value);
      EnterBlock(live, keys0, values0, lo, end, pool.blockSize, newBlock.value);
      pool.done := pool.done[newBlock.value := 0];
      values[entry.value] := newBlock;
      assert values[..] == values0[end % keys.Length := newBlock];
      live := live + [newBlock.value];
      StoredKept(pool.cells, items, live0, end, drained, lo, pool.blockSize, live, end + 1);
    }

    /** Put an element into the tail's block and advance the tail. */
    method Append(x: T, ghost hi: nat)
      requires pool.blockSize > 0 && Laid(hi) && Started(tailIndex + 1, pool.blockSize) == hi
      requires tailIndex / pool.blockSize == hi - 1 && live != [] && tailBlock == Some(live[|live| - 1])
      modifies this`tailIndex, this`items, pool.cells
      ensures Laid(hi) && tailIndex == old(tailIndex) + 1 && items == old(items) + [x]
    {
      pool.Put(tailBlock.value, tailIndex, x, items, live, hi, drained);
      items := items + [x];
      tailIndex := tailIndex + 1;
    }

    /** Start a block at the tail. */
    method StartBlock(ghost hi: nat) returns (ok: bool)
      requires pool.blockSize > 0 && Laid(hi) && hi == Hi() && Times(tailIndex, hi, pool.blockSize)
      requires Started(tailIndex + 1, pool.blockSize) == hi + 1
      modifies this`tailBlock, this`indexTail, this`live, keys, values, pool`issued, pool`free, pool`done
      ensures ok == old(Room(1))
      ensures Laid(if ok then hi + 1 else hi)
      ensures pool.Owned() - Elems(live) == old(pool.Owned() - Elems(live))
      ensures if ok then live != [] && tailBlock == Some(live[|live| - 1]) else
                live == old(live) && indexTail == old(indexTail) && tailBlock == old(tailBlock)
    {
      hide Stored, Counted, Entered, Full, Room;
      LaidShape(hi);
      RoomByTest(1, hi + 1);
      if Full(tailIndex) {
        return false;
      }
      var newBlock := AddBlock(tailIndex, hi);
      if newBlock == None {
        LaidShape(hi);
        return false;
      }
      ElemsMore(old(live), newBlock.value);
      tailBlock := newBlock;
      ok := true;
    }

    /** enqueue */
    method Enqueue(x: T) returns (ok: bool)
      requires Valid()
      modifies this`tailIndex, this`tailBlock, this`indexTail, this`live, this`items, keys, values
      modifies pool`issued, pool`free, pool`done, pool.cells
      ensures Valid()
      ensures ok <==> old(Needed(1) <= 0
                          || (Reach(1) < half && (maxSubqueue.Some? ==> Reach(1) <= maxSubqueue.value)
                              && Needed(1) <= pool.Available() && |live| + Needed(1) <= keys.Length))
      ensures Contents() == if ok then old(Contents()) + [x] else old(Contents())
      ensures pool.Owned() - Elems(live) == old(pool.Owned() - Elems(live))
      ensures !ok ==> live == old(live) && indexTail == old(indexTail) && tailBlock == old(tailBlock)
    {
      hide Stored, Counted, Entered;
      ghost var hi := Started(tailIndex + 1, pool.blockSize);
      StartedBounds(tailIndex, pool.blockSize);
      DivBounds(tailIndex, pool.blockSize);
      if tailIndex % pool.blockSize == 0 {
        ok := StartBlock(hi - 1);
        if !ok {
          return;
        }
      }
      Append(x, hi);
      ok := true;
    }

    lemma LaidShape(end: nat)
      requires pool.blockSize > 0 && Laid(end)
      ensures |live| == end - lo <= keys.Length == values.Length && end >= lo && keys.Length > 0
      ensures indexTail == (end - 1) % keys.Length
      ensures forall i :: 0 <= i < |live| ==> live[i] < |pool.next|
    {
      forall i | 0 <= i < |live| ensures live[i] < |pool.next| {
        assert live[i] in Elems(live);
      }
    }

    /** get_block_index_entry_for_index, used on the first element not drained. */
    method LookupHead(index: nat) returns (slot: nat)
      requires pool.blockSize > 0 && Laid(Hi()) && index < tailIndex
      requires lo * pool.blockSize <= index < lo * pool.blockSize + pool.blockSize
      ensures live != [] && slot == lo % keys.Length == lo % values.Length && values[slot] == Some(live[0])
    {
      LastBlock(tailIndex, pool.blockSize);
      NextMultiple(Hi() - 1, lo, pool.blockSize);
      assert IsEntry(keys[..], values[..], lo, pool.blockSize, BlockAt(live, Hi(), lo));
      assert IsEntry(keys[..], values[..], Hi() - 1, pool.blockSize, BlockAt(live, Hi(), Hi() - 1));
      slot := LookupEntry(index, Hi() - 1, lo, Hi());
    }

    /** get_block_index_index_for_index: `last` is the block whose entry the index tail is at. Both
        assertions of the source hold. */
    method LookupEntry(index: nat, ghost last: nat, ghost k: nat, ghost end: nat) returns (slot: nat)
      requires pool.blockSize > 1 && 0 < keys.Length == values.Length && indexTail == last % keys.Length
      requires keys[indexTail] == last * pool.blockSize
      requires end - |live| <= k < end && IsEntry(keys[..], values[..], k, pool.blockSize, BlockAt(live, end, k))
      requires k * pool.blockSize <= index < k * pool.blockSize + pool.blockSize
      ensures slot == k % keys.Length
    {
      ModUnique(index, pool.blockSize, k, index - k * pool.blockSize);
      LookupFinds(indexTail, last, index, pool.blockSize, keys.Length);
      BaseValid(last, pool.blockSize);
      var tailBase := keys[indexTail];
      assert tailBase != INVALID_BLOCK_BASE;
      slot := LookupSlot(indexTail, tailBase, index, pool.blockSize, keys.Length);
      assert keys[slot] == Floor(index, pool.blockSize) && values[slot] != None;
    }

    /** set_empty and set_many_empty, and what follows when they use the block up: its entry is nulled and
        it goes to the free list. */
    method SetManyEmpty(slot: nat, block: Block, count: nat)
      requires pool.blockSize > 0 && Laid(Hi()) && live != [] && block == live[0] && slot == lo % keys.Length
      requires drained + count <= headIndex && drained + count <= lo * pool.blockSize + pool.blockSize
      modifies pool`done, pool`free, values, this`drained, this`lo, this`live
      ensures Laid(Hi()) && drained == old(drained) + count
      ensures if drained == old(lo) * pool.blockSize + pool.blockSize
              then lo == old(lo) + 1 && live == old(live)[1..] && pool.Owned() == old(pool.Owned()) - {block}
              else lo == old(lo) && live == old(live) && pool.Owned() == old(pool.Owned())
    {
      CountedDequeue(live, pool.done, drained, lo, Hi(), pool.blockSize, count);
      HeadBlock(drained, lo, pool.blockSize, count,
                if drained + count == lo * pool.blockSize + pool.blockSize then lo + 1 else lo);
      StoredFrom(pool.cells, items, live, Hi(), drained, pool.blockSize, drained + count);
      pool.done := pool.done[block := pool.done[block] + count];
      drained := drained + count;
      if pool.done[block] == pool.blockSize {
        Release(slot, block);
      }
    }

    method Release(slot: nat, block: Block)
      requires pool.blockSize > 0 && pool.Valid() && keys.Length > 0
      requires live != [] && block == live[0] && slot == lo % keys.Length
      requires Distinct(live) && Elems(live) <= pool.Owned()
      requires Counted(live, pool.done, drained, lo, Hi(), pool.blockSize)
      requires Entered(live, keys[..], values[..], lo, Hi(), pool.blockSize)
      requires Stored(pool.cells, items, live, Hi(), drained, pool.blockSize)
      requires drained == (lo + 1) * pool.blockSize
      modifies pool`free, values, this`lo, this`live
      ensures pool.Valid() && live == old(live)[1..] && lo == old(lo) + 1 && pool.Owned() == old(pool.Owned()) - {block}
      ensures Distinct(live) && Elems(live) <= pool.Owned()
      ensures Counted(live, pool.done, drained, lo, Hi(), pool.blockSize)
      ensures Entered(live, keys[..], values[..], lo, Hi(), pool.blockSize)
      ensures Stored(pool.cells, items, live, Hi(), drained, pool.blockSize)
    {
      hide Stored, Counted, IsEntry, IsFree;
      assert block in Elems(live);
      LeaveBlock(live, keys[..], values[..], lo, Hi(), pool.blockSize);
      CountedRest(live, pool.done, drained, lo, Hi(), pool.blockSize);
      StoredRest(pool.cells, items, live, Hi(), drained, lo, pool.blockSize);
      ElemsRest(live);
      ghost var values0 := values[..];
      values[slot] := None;
      assert values[..] == values0[lo % keys.Length := None];
      pool.Add(block);
      live, lo := live[1..], lo + 1;
    }

    /** dequeue: the oldest element, if there is one. With one thread at a time the optimistic count
        settles at head + overcommit, and its two tests come down to comparing head and tail. */
    method Dequeue() returns (x: Option<T>)
      requires Valid()
      modifies this`headIndex, this`drained, this`lo, this`live, values, pool`done, pool`free
      ensures Valid()
      ensures x == if old(Contents()) == [] then None else Some(old(Contents())[0])
      ensures Contents() == if old(Contents()) == [] then [] else old(Contents())[1..]
      ensures pool.Owned() - Elems(live) == old(pool.Owned() - Elems(live))
    {
      hide Stored, Counted, Entered;
      x := None;
      if headIndex < tailIndex {
        var index := headIndex;
        headIndex := headIndex + 1;
        var slot := LookupHead(index);
        var part, _ := DequeueBlock(slot, index, index + 1);
        TailBlock(tailIndex, 0, drained, lo, pool.blockSize);
        LaidShape(Hi());
        x := Some(part[0]);
      }
    }

    /** Dequeue the claimed elements of one block. */
    method DequeueBlock(indexIndex: nat, index: nat, stop: nat) returns (part: seq<T>, endIndex: nat)
      requires pool.blockSize > 0 && Laid(Hi()) && index == drained < tailIndex && index <= stop == headIndex
      requires indexIndex == lo % keys.Length && live != []
      modifies this`drained, this`lo, this`live, values, pool`done, pool`free
      ensures Laid(Hi()) && index <= endIndex == drained <= stop && part == items[index..endIndex]
      ensures endIndex != stop ==> index < endIndex && lo == old(lo) + 1
      ensures index < stop ==> index < endIndex
      ensures live != [] ==> live[|live| - 1] == old(live)[|old(live)| - 1]
      ensures pool.Owned() - Elems(live) == old(pool.Owned() - Elems(live))
    {
      ModUnique(index, pool.blockSize, lo, index - lo * pool.blockSize);
      endIndex := Floor(index, pool.blockSize) + pool.blockSize;
      endIndex := if stop < endIndex then stop else endIndex;
      assert IsEntry(keys[..], values[..], lo, pool.blockSize, BlockAt(live, Hi(), lo));
      var block := values[indexIndex].value;
      part := pool.Read(block, index, endIndex, items, live, Hi(), drained, lo);
      ElemsRest(live);
      SetManyEmpty(indexIndex, block, endIndex - index);
    }

    /** dequeue_bulk: the oldest min(max, size) elements, in order. */
    method DequeueBulk(max: nat) returns (out: seq<T>)
      requires Valid()
      modifies this`headIndex, this`drained, this`lo, this`live, values, pool`done, pool`free
      ensures Valid()
      ensures |out| == if max < |old(Contents())| then max else |old(Contents())|
      ensures out == old(Contents())[..|out|] && Contents() == old(Contents())[|out|..]
      ensures pool.Owned() - Elems(live) == old(pool.Owned() - Elems(live))
    {
      hide Stored, Counted, Entered;
      out := [];
      if headIndex < tailIndex {
        var actualCount := if tailIndex - headIndex < max then tailIndex - headIndex else max;
        var firstIndex := headIndex;
        headIndex := headIndex + actualCount;
        out := DequeueBlocks(firstIndex, actualCount);
        TailBlock(tailIndex, 0, drained, lo, pool.blockSize);
        LaidShape(Hi());
      }
    }

    /** Iterate the blocks of the claimed elements and dequeue them. */
    method DequeueBlocks(firstIndex: nat, actualCount: nat) returns (out: seq<T>)
      requires pool.blockSize > 0 && Laid(Hi())
      requires firstIndex == drained < tailIndex && firstIndex + actualCount == headIndex
      modifies this`drained, this`lo, this`live, values, pool`done, pool`free
      ensures Laid(Hi()) && drained == headIndex && out == items[firstIndex..headIndex]
      ensures old(live) != [] && (live != [] ==> live[|live| - 1] == old(live)[|old(live)| - 1])
      ensures pool.Owned() - Elems(live) == old(pool.Owned() - Elems(live))
    {
      hide Stored, Counted, Entered, Started;
      var indexIndex := LookupHead(firstIndex);
      LaidShape(Hi());
      out := [];
      var index, more, part := firstIndex, true, [];
      while more
        invariant Laid(Hi()) && keys.Length > 0
        invariant firstIndex <= index == drained <= headIndex
        invariant out == items[firstIndex..index]
        invariant more ==> index < tailIndex && live != [] && indexIndex == lo % keys.Length
        invariant !more ==> index == headIndex
        invariant live != [] ==> live[|live| - 1] == old(live)[|old(live)| - 1]
        invariant pool.Owned() - Elems(live) == old(pool.Owned() - Elems(live))
        decreases headIndex - index, more
      {
        ModShift(lo, 1, keys.Length);
        part, index := DequeueBlock(indexIndex, index, firstIndex + actualCount);
        out := out + part;
        indexIndex := (indexIndex + 1) % keys.Length;
        more := index != firstIndex + actualCount;
        StillLive();
      }
    }

    /** While an element is left, so is its block. */
    lemma StillLive()
      requires pool.blockSize > 0 && Laid(Hi())
      ensures drained < tailIndex ==> live != []
    {
      LastBlock(tailIndex, pool.blockSize);
      NextMultiple(Hi() - 1, lo, pool.blockSize);
    }

    /** enqueue_bulk has claimed blocks hi, ... end - 1. They are chained, from block k0 on; the chain ends
        with the last of them. */
    ghost predicate Claiming(hi: nat, end: nat, k0: int, firstAllocated: Option<Block>)
      reads this, pool
    {
      && lo <= hi <= end && end - lo == |live| && lo <= k0 <= hi <= k0 + 1
      && firstAllocated == (if hi < end then Some(BlockAt(live, end, hi)) else None)
      && (k0 < end ==> tailBlock == Some(live[|live| - 1]))
      && (hi < end ==> pool.Follow(live[|live| - 1]) == None && live[|live| - 1] < |pool.next|)
      && Chained(live, pool.next, end, k0)
    }

    /** Blocks claimed for this queue are behind those it had, and no block of another producer has changed hands. */
    ghost predicate Claimed(had: seq<Block>, others: set<Block>)
      reads this, pool
    {
      had <= live && pool.Owned() - Elems(live) == others
    }

    /** Claim one more block, or fail. */
    method ClaimNext(base: nat, first: Option<Block>, ghost hi: nat, ghost end: nat, ghost k0: int,
                     ghost had: seq<Block>, ghost others: set<Block>)
      returns (ok: bool, firstAllocated: Option<Block>)
      requires pool.blockSize > 0 && Laid(end) && Claiming(hi, end, k0, first) && Claimed(had, others)
      requires Times(base, end, pool.blockSize) && drained <= base && hi == Hi()
      requires k0 == if tailIndex % pool.blockSize == 0 then hi as int else hi - 1
      modifies this`tailBlock, this`indexTail, this`live, keys, values
      modifies pool`issued, pool`free, pool`done, pool`next
      ensures ok == (!Full(base) && old(pool.Available()) > 0 && |old(live)| < keys.Length)
      ensures Laid(if ok then end + 1 else end) && Claiming(hi, if ok then end + 1 else end, k0, firstAllocated)
      ensures pool.Available() == old(pool.Available()) - (if ok then 1 else 0)
      ensures |live| == |old(live)| + (if ok then 1 else 0) && Claimed(had, others)
    {
      hide Stored, Counted, Entered, Started, Chained;
      if Full(base) {
        return false, first;
      }
      LaidShape(end);
      var newBlock := AddBlock(base, end);
      if newBlock == None {
        return false, first;
      }
      ElemsMore(old(live), newBlock.value);
      assert newBlock.value !in Elems(old(live));
      ghost var next0 := pool.next;
      pool.next := pool.next[newBlock.value := None];
      if tailIndex % pool.blockSize != 0 || first != None {
        pool.next := pool.next[tailBlock.value := newBlock];
      }
      ChainMore(old(live), next0, end, k0, newBlock.value, pool.next);
      tailBlock := newBlock;
      firstAllocated := if first == None then newBlock else first;
      ok := true;
    }

    /** Claim the blocks a bulk enqueue needs, as far as possible. */
    method ClaimBlocks(diff: nat, base: int, ghost hi: nat, ghost left: nat, ghost k0: int)
      returns (ok: bool, firstAllocated: Option<Block>, ghost end: nat)
      requires pool.blockSize > 0 && Laid(hi) && Claiming(hi, hi, k0, None) && hi == Hi()
      requires Times(diff, left, pool.blockSize) && Times(base, hi - 1, pool.blockSize) && left > 0
               && headIndex == drained
      requires k0 == if tailIndex % pool.blockSize == 0 then hi as int else hi - 1
      modifies this`tailBlock, this`indexTail, this`live, keys, values
      modifies pool`issued, pool`free, pool`done, pool`next
      ensures Laid(end) && Claiming(hi, end, k0, firstAllocated)
      ensures ok ==> end == hi + left
      ensures var reach := base + diff + pool.blockSize - headIndex;
              ok <==> reach < half && (maxSubqueue.Some? ==> reach <= maxSubqueue.value)
                      && left <= old(pool.Available()) && |old(live)| + left <= keys.Length
      ensures |live| == |old(live)| + (end - hi) && Claimed(old(live), old(pool.Owned() - Elems(live)))
    {
      LastBlockEnd(diff, base, hi, left);
      var blockBaseDiff, currentTailIndex := diff, base;
      firstAllocated, end, ok := None, hi, true;
      ghost var rem := left;
      assert pool.Valid() && Claimed(live, pool.Owned() - Elems(live));
      HeadBeforeClaims(hi, currentTailIndex);
      ghost var others := pool.Owned() - Elems(live);
      hide Laid, Claiming, Full, Times, Started, Claimed;
      LeftOver(blockBaseDiff, rem, pool.blockSize);
      while blockBaseDiff > 0
        invariant rem <= left && end == hi + left - rem
        invariant Laid(end) && Claiming(hi, end, k0, firstAllocated)
        invariant Times(blockBaseDiff, rem, pool.blockSize) && Times(currentTailIndex, end - 1, pool.blockSize)
        invariant drained <= currentTailIndex + pool.blockSize && currentTailIndex + blockBaseDiff == base + diff
        invariant pool.Valid() && pool.Available() == old(pool.Available()) - (left - rem)
        invariant rem < left ==> !Full(currentTailIndex) && |live| <= keys.Length
        invariant ok && (blockBaseDiff == 0 <==> rem == 0)
        invariant |live| == |old(live)| + (end - hi) && Claimed(old(live), others)
      {
        blockBaseDiff, currentTailIndex := NextBase(blockBaseDiff, currentTailIndex, end, rem, pool.blockSize);
        ok, firstAllocated := ClaimNext(currentTailIndex, firstAllocated, hi, end, k0, old(live), others);
        if !ok {
          FullLater(currentTailIndex, base + diff);
          return;
        }
        end, rem := end + 1, rem - 1;
        LeftOver(blockBaseDiff, rem, pool.blockSize);
      }
    }

    lemma LastBlockEnd(diff: nat, base: int, hi: nat, left: nat)
      requires pool.blockSize > 0 && Laid(hi) && hi == Hi() && left > 0
      requires Times(diff, left, pool.blockSize) && Times(base, hi - 1, pool.blockSize)
      ensures base + diff == (hi + left - 1) * pool.blockSize
      ensures var reach := base + diff + pool.blockSize - headIndex;
              Full(base + diff) <==> reach >= half || (maxSubqueue.Some? && reach > maxSubqueue.value)
    {
      LastBase(base, hi, diff, hi + left, pool.blockSize);
      StartedBounds(tailIndex, pool.blockSize);
      NextMultiple(hi, hi + left, pool.blockSize);
      FullMeans(hi + left);
    }

    lemma HeadBeforeClaims(hi: nat, base: int)
      requires pool.blockSize > 0 && Laid(hi) && hi == Hi() && Times(base, hi - 1, pool.blockSize)
      ensures drained <= base + pool.blockSize
    {
      LastBlock(tailIndex, pool.blockSize);
    }

    /** What is too long with one more block is too long with more blocks. */
    lemma FullLater(base: int, last: int)
      requires headIndex <= base <= last && pool.blockSize > 0
      ensures Full(base) ==> Full(last)
    {
    }

    /** Undo the claims: the entry of each claimed block is looked up and nulled while the index tail is
        rewound past it, and the blocks are given back. */
    method Undo(startBlock: Option<Block>, firstAllocated: Option<Block>, base: int, ghost hi: nat, ghost end: nat,
                ghost k0: int, ghost owned0: set<Block>)
      requires pool.blockSize > 0 && Laid(end) && Claiming(hi, end, k0, firstAllocated)
      requires Times(base, hi - 1, pool.blockSize) && hi == Hi()
      requires Elems(live[..hi - lo]) <= owned0 && pool.Owned() - Elems(live) == owned0 - Elems(live[..hi - lo])
      modifies this`tailBlock, this`indexTail, this`live, values, pool`free
      ensures Laid(hi) && live == old(live)[..hi - lo] && pool.Owned() == owned0 && tailBlock == startBlock
    {
      hide Counted, Stored, Times, Chained, Entered, Elems;
      LaidShape(end);
      UndoEntries(firstAllocated, base, hi, end, k0);
      AddBlocksToFreeList(firstAllocated, hi, end, k0);
      GivenBack(owned0, live, hi - lo, old(pool.Owned()));
      CountedPrefix(live, pool.done, drained, lo, hi, end, pool.blockSize);
      StartedBounds(tailIndex, pool.blockSize);
      StoredUnclaimed(pool.cells, items, live, end, drained, lo, hi, pool.blockSize, live[..hi - lo]);
      live := live[..hi - lo];
      tailBlock := startBlock;
    }

    method UndoEntries(firstAllocated: Option<Block>, base: int, ghost hi: nat, ghost end: nat, ghost k0: int)
      requires pool.blockSize > 1 && Claiming(hi, end, k0, firstAllocated) && Times(base, hi - 1, pool.blockSize)
      requires 0 < keys.Length == values.Length && indexTail == (end - 1) % keys.Length
      requires Entered(live, keys[..], values[..], lo, end, pool.blockSize)
      modifies this`indexTail, values
      ensures Entered(live[..hi - lo], keys[..], values[..], lo, hi, pool.blockSize)
      ensures indexTail == (hi - 1) % keys.Length
    {
      var block, currentTailIndex := firstAllocated, base;
      ghost var j := hi;
      NoneUndone(live, keys[..], values[..], lo, hi, end, pool.blockSize);
      hide Entered, Chained, PartlyUndone;
      while block != None
        invariant hi <= j <= end && block == BlockOrNone(live, end, j)
        invariant Times(currentTailIndex, j - 1, pool.blockSize) && indexTail == (end - 1 - (j - hi)) % keys.Length
        invariant PartlyUndone(live, keys[..], values[..], lo, hi, j, end, pool.blockSize)
        decreases end - j
      {
        currentTailIndex := currentTailIndex + pool.blockSize;
        UndoOne(block.value, currentTailIndex, hi, j, end);
        block := NextInChain(block.value, k0, j, end);
        j := j + 1;
      }
      AllUndone(live, keys[..], values[..], lo, hi, end, pool.blockSize);
    }

    /** Null the entry of block j, which is looked up with the index tail already rewound to an earlier block. */
    method UndoOne(block: Block, base: int, ghost hi: nat, ghost j: nat, ghost end: nat)
      requires pool.blockSize > 1 && hi <= j < end && end - |live| <= lo <= hi
               && base == (j - 1) * pool.blockSize + pool.blockSize
      requires block == BlockAt(live, end, j)
      requires keys.Length == values.Length > 0 && indexTail == (end - 1 - (j - hi)) % keys.Length
      requires PartlyUndone(live, keys[..], values[..], lo, hi, j, end, pool.blockSize)
      modifies values, this`indexTail
      ensures PartlyUndone(live, keys[..], values[..], lo, hi, j + 1, end, pool.blockSize)
      ensures indexTail == (end - 1 - (j + 1 - hi)) % keys.Length
      ensures Times(base, j, pool.blockSize)
    {
      NextMultiple(j - 1, j, pool.blockSize);
      assert HasKey(keys[..], end - 1 - (j - hi), pool.blockSize);
      var slot := LookupEntry(base, end - 1 - (j - hi), j, end);
      UndoneMore(live, keys[..], values[..], lo, hi, j, end, pool.blockSize);
      ghost var values0 := values[..];
      values[slot] := None;
      assert values[..] == values0[j % keys.Length := None];
      RewindIndexTail(end - 1 - (j - hi));
    }

    /** Follow the chain of claimed blocks. */
    method NextInChain(block: Block, ghost k0: int, ghost j: nat, ghost end: nat) returns (next: Option<Block>)
      requires end - |live| <= k0 <= j < end && block == BlockAt(live, end, j) && Chained(live, pool.next, end, k0)
      requires live != [] && pool.Follow(live[|live| - 1]) == None
      ensures next == BlockOrNone(live, end, j + 1)
    {
      assert j < end - 1 ==> ChainedAt(live, pool.next, end, j);
      next := pool.Follow(block);
    }

    /** enqueue_bulk: all of the elements in order, or none; then the index tail, the tail block and the
        blocks of this and every other producer are as before. */
    method EnqueueBulk(batch: seq<T>) returns (ok: bool)
      requires Valid()
      modifies this`tailIndex, this`tailBlock, this`indexTail, this`live, this`items, keys, values
      modifies pool`issued, pool`free, pool`done, pool`next, pool.cells
      ensures Valid()
      ensures ok <==> old(Needed(|batch|) <= 0
                          || (Reach(|batch|) < half && (maxSubqueue.Some? ==> Reach(|batch|) <= maxSubqueue.value)
                              && Needed(|batch|) <= pool.Available() && |live| + Needed(|batch|) <= keys.Length))
      ensures Contents() == if ok then old(Contents()) + batch else old(Contents())
      ensures pool.Owned() - Elems(live) == old(pool.Owned() - Elems(live))
      ensures !ok ==> live == old(live) && indexTail == old(indexTail) && tailBlock == old(tailBlock)
      ensures !ok ==> pool.Owned() == old(pool.Owned())
    {
      var startTailIndex, startBlock, firstAllocated := tailIndex, tailBlock, None;
      ghost var hi, end := Hi(), Started(tailIndex + |batch|, pool.blockSize);
      ghost var k0: int := if tailIndex % pool.blockSize == 0 then hi as int else hi - 1;
      NothingClaimed(hi, k0);
      RoomMeans(|batch|);
      hide Laid, Claiming, Times, Started, Full, Reach, Needed, Room;
      var base := Floor(startTailIndex - 1, pool.blockSize);
      var blockBaseDiff := Floor(startTailIndex + |batch| - 1, pool.blockSize) - base;
      BaseDiff(startTailIndex, |batch|, pool.blockSize);
      LeftOver(blockBaseDiff, end - hi, pool.blockSize);
      TailBlock(startTailIndex, |batch|, drained, lo, pool.blockSize);
      if hi < end { RoomByTest(|batch|, end); }
      if blockBaseDiff > 0 {
        ok, firstAllocated := Claim(startBlock, blockBaseDiff, base, hi, end, k0);
        if !ok {
          return;
        }
      }
      Fill(batch, startBlock, firstAllocated, hi, end, k0, old(live));
      ok := true;
    }

    lemma NothingClaimed(hi: nat, k0: int)
      requires Valid() && hi == Hi() && k0 == if tailIndex % pool.blockSize == 0 then hi as int else hi - 1
      ensures Claiming(hi, hi, k0, None)
      ensures pool.Valid() && headIndex <= tailIndex == |items| && lo * pool.blockSize <= drained <= tailIndex
      ensures |live| == hi - lo && lo <= hi
    {
      TailBlock(tailIndex, 0, drained, lo, pool.blockSize);
    }

    /** Claim the blocks a bulk enqueue needs, or undo everything. */
    method Claim(startBlock: Option<Block>, blockBaseDiff: nat, base: int, ghost hi: nat, ghost end: nat, ghost k0: int)
      returns (ok: bool, firstAllocated: Option<Block>)
      requires pool.blockSize > 0 && Laid(hi) && Claiming(hi, hi, k0, None) && hi == Hi() && hi < end
               && headIndex == drained
      requires Times(blockBaseDiff, end - hi, pool.blockSize) && Times(base, hi - 1, pool.blockSize)
      requires startBlock == tailBlock && k0 == if tailIndex % pool.blockSize == 0 then hi as int else hi - 1
      modifies this`tailBlock, this`indexTail, this`live, keys, values
      modifies pool`issued, pool`free, pool`done, pool`next
      ensures Laid(if ok then end else hi)
      ensures ok == old(!Full((end - 1) * pool.blockSize) && end - hi <= pool.Available()
                        && |live| + (end - hi) <= keys.Length)
      ensures ok ==> Claiming(hi, end, k0, firstAllocated)
      ensures pool.Owned() - Elems(live) == old(pool.Owned() - Elems(live))
      ensures old(live) <= live
      ensures !ok ==>
                && live == old(live) && indexTail == old(indexTail) && tailBlock == startBlock
                && pool.Owned() == old(pool.Owned())
    {
      LastBlockEnd(blockBaseDiff, base, hi, end - hi);
      hide Stored, Counted, Entered, Times, Full;
      ghost var mid;
      ok, firstAllocated, mid := ClaimBlocks(blockBaseDiff, base, hi, end - hi, k0);
      if !ok {
        Undo(startBlock, firstAllocated, base, hi, mid, k0, old(pool.Owned()));
      }
    }

    /** Enqueue, one block at a time. */
    method Fill(batch: seq<T>, startBlock: Option<Block>, firstAllocated: Option<Block>, ghost hi: nat, ghost end: nat,
                ghost k0: int, ghost had: seq<Block>)
      requires pool.blockSize > 0 && Laid(end) && hi == Hi() && end == Started(tailIndex + |batch|, pool.blockSize)
      requires Claiming(hi, end, k0, firstAllocated)
      requires k0 == if tailIndex % pool.blockSize == 0 then hi as int else hi - 1
      requires had <= live && |had| == hi - lo
      requires tailIndex % pool.blockSize != 0 ==> had != [] && startBlock == Some(had[|had| - 1])
      requires hi == end ==> startBlock == tailBlock
      requires tailIndex % pool.blockSize == 0 && batch != [] ==> hi < end
      modifies this`tailIndex, this`items, pool.cells
      ensures Laid(end) && items == old(items) + batch && tailIndex == old(tailIndex) + |batch|
      ensures tailIndex % pool.blockSize != 0 ==> live != [] && tailBlock == Some(live[|live| - 1])
    {
      FirstBlock(tailIndex, |batch|, hi, end, pool.blockSize,
                 if tailIndex % pool.blockSize == 0 && hi < end then hi as int else hi - 1);
      LaidShape(end);
      var onBoundary := tailIndex % pool.blockSize == 0 && firstAllocated != None;
      pool.Fill(batch, tailIndex, if onBoundary then firstAllocated else startBlock, tailBlock, items, live, end,
                drained, k0);
      items := items + batch;
      tailIndex := tailIndex + |batch|;
      TailBlock(tailIndex, 0, drained, lo, pool.blockSize);
    }

    /** add_blocks_to_free_list */
    method AddBlocksToFreeList(firstAllocated: Option<Block>, ghost hi: nat, ghost end: nat, ghost k0: int)
      requires pool.Valid() && Distinct(live) && Elems(live) <= pool.Owned() && Claiming(hi, end, k0, firstAllocated)
      modifies pool`free
      ensures pool.Valid() && pool.Owned() == old(pool.Owned()) - Elems(live[hi - lo..])
    {
      hide Chained, Elems, Distinct;
      var block := firstAllocated;
      ghost var j := hi;
      NoElems(live, hi - lo);
      while block != None
        invariant hi <= j <= end && block == BlockOrNone(live, end, j)
        invariant pool.Valid() && pool.Owned() == old(pool.Owned()) - Elems(live[hi - lo..j - lo])
        decreases end - j
      {
        var next := NextInChain(block.value, k0, j, end);
        TakeNext(live, hi - lo, j - lo, old(pool.Owned()));
        pool.Add(block.value);
        block := next;
        j := j + 1;
      }
      assert live[hi - lo..end - lo] == live[hi - lo..];
    }
  }

  lemma NoElems(live: seq<Block>, i: nat)
    requires i <= |live|
    ensures Elems(live[i..i]) == {}
  {
  }

  lemma TakeNext(live: seq<Block>, from: nat, i: nat, owned: set<Block>)
    requires from <= i < |live| && Distinct(live) && Elems(live) <= owned
    ensures live[i] in owned - Elems(live[from..i])
    ensures owned - Elems(live[from..i + 1]) == owned - Elems(live[from..i]) - {live[i]}
  {
    assert live[from..i + 1] == live[from..i] + [live[i]];
    ElemsMore(live[from..i], live[i]);
    assert live[i] in Elems(live);
  }

  /** The entries of the claimed blocks hi, ... j - 1 are nulled. */
  ghost predicate PartlyUndone(live: seq<Block>, keys: seq<nat>, values: seq<Option<Block>>, lo: nat, hi: nat, j: nat,
                               end: nat, bs: nat) {
    && 0 < |keys| == |values|
    && lo <= hi <= j <= end && end - lo == |live| <= |keys|
    && (forall k :: lo <= k < hi || j <= k < end ==> IsEntry(keys, values, k, bs, BlockAt(live, end, k)))
    && (forall k :: hi <= k < j || end <= k < lo + |keys| ==> IsFree(keys, values, k))
    && (forall k :: lo <= k < end ==> HasKey(keys, k, bs))
  }

  ghost predicate HasKey(keys: seq<nat>, k: nat, bs: nat) { 0 < |keys| && keys[k % |keys|] == k * bs }

  lemma NoneUndone(live: seq<Block>, keys: seq<nat>, values: seq<Option<Block>>, lo: nat, hi: nat, end: nat, bs: nat)
    requires Entered(live, keys, values, lo, end, bs) && lo <= hi <= end
    ensures PartlyUndone(live, keys, values, lo, hi, hi, end, bs)
  {
    forall k | lo <= k < end ensures HasKey(keys, k, bs) {
      assert IsEntry(keys, values, k, bs, BlockAt(live, end, k));
    }
  }

  lemma UndoneMore(live: seq<Block>, keys: seq<nat>, values: seq<Option<Block>>, lo: nat, hi: nat, j: nat, end: nat,
                   bs: nat)
    requires PartlyUndone(live, keys, values, lo, hi, j, end, bs) && j < end
    ensures PartlyUndone(live, keys, values[j % |keys| := None], lo, hi, j + 1, end, bs)
  {
    var values' := values[j % |keys| := None];
    forall k | lo <= k < hi || j + 1 <= k < end ensures IsEntry(keys, values', k, bs, BlockAt(live, end, k)) {
      assert IsEntry(keys, values, k, bs, BlockAt(live, end, k));
      if k < j {
        ModDistinct(k, j, |keys|);
      } else {
        ModDistinct(j, k, |keys|);
      }
    }
    forall k | hi <= k < j + 1 || end <= k < lo + |keys| ensures IsFree(keys, values', k) {
      assert k != j ==> IsFree(keys, values, k);
    }
  }

  lemma AllUndone(live: seq<Block>, keys: seq<nat>, values: seq<Option<Block>>, lo: nat, hi: nat, end: nat, bs: nat)
    requires PartlyUndone(live, keys, values, lo, hi, end, end, bs)
    ensures Entered(live[..hi - lo], keys, values, lo, hi, bs)
  {
    var had := live[..hi - lo];
    forall k | lo <= k < hi ensures IsEntry(keys, values, k, bs, BlockAt(had, hi, k)) {
      assert IsEntry(keys, values, k, bs, BlockAt(live, end, k));
    }
  }

  lemma CountedPrefix(live: seq<Block>, done: seq<nat>, head: nat, lo: nat, hi: nat, end: nat, bs: nat)
    requires Counted(live, done, head, lo, end, bs) && lo <= hi <= end
    ensures Counted(live[..hi - lo], done, head, lo, hi, bs)
  {
    forall k | lo <= k < hi ensures done[BlockAt(live[..hi - lo], hi, k)] == Consumed(head, k, bs) {
      assert BlockAt(live[..hi - lo], hi, k) == BlockAt(live, end, k);
    }
  }

  lemma DistinctHalves(s: seq<Block>, n: nat)
    requires n <= |s| && Distinct(s)
    ensures forall b :: b in s[..n] ==> b !in s[n..]
  {
    forall b | b in s[..n] ensures b !in s[n..] {
      var i :| 0 <= i < n && s[i] == b;
      assert forall j :: n <= j < |s| ==> s[j] != s[i];
    }
  }

  /** The blocks owned before the claims are those owned after giving the claimed ones back. */
  lemma GivenBack(owned0: set<Block>, live: seq<Block>, n: nat, owned: set<Block>)
    requires n <= |live| && Distinct(live) && Elems(live) <= owned && Elems(live[..n]) <= owned0
    requires owned - Elems(live) == owned0 - Elems(live[..n])
    ensures owned - Elems(live[n..]) == owned0
  {
    assert live == live[..n] + live[n..];
    DistinctHalves(live, n);
    forall b ensures b in owned && b !in live[n..] <==> b in owned0 {
      assert b in live <==> b in live[..n] || b in live[n..];
      assert b in owned - Elems(live) <==> b in owned0 - Elems(live[..n]);
      assert b in Elems(live) ==> b in owned;
      assert b in Elems(live[..n]) ==> b in owned0;
    }
  }

  lemma ChainMore(list: seq<Block>, next: seq<Option<Block>>, end: nat, k0: int, b: Block, next': seq<Option<Block>>)
    requires end - |list| <= k0 && Chained(list, next, end, k0) && Distinct(list) && b !in list && b < |next|
    requires forall i :: 0 <= i < |list| ==> list[i] < |next|
    requires next' == if k0 < end then next[b := None][list[|list| - 1] := Some(b)] else next[b := None]
    ensures Chained(list + [b], next', end + 1, k0)
  {
    var l, e := list + [b], end + 1;
    forall k | k0 <= k < e - 1 ensures ChainedAt(l, next', e, k) {
      assert BlockAt(l, e, k) == BlockAt(list, end, k) == list[|list| - end + k];
      if k < end - 1 {
        assert ChainedAt(list, next, end, k);
        assert BlockAt(l, e, k + 1) == BlockAt(list, end, k + 1);
      }
    }
  }
}
