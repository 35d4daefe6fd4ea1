/** The blocks of a ConcurrentQueue in allocation mode CannotAlloc: the array allocated at
    construction, how much of it has been handed out, and the free list. Called from one thread
    at a time; modules FreeList and BlockConservation treat the concurrent case. */
module BlockPool {
  import opened Collections
  import opened Options
  import opened ModArith
  import opened BlockMath

  type Block = nat

  /** BlockIndexEntry of an explicit producer */
  datatype Entry = Entry(base: nat, block: Block)

  const INVALID_BLOCK_BASE: nat := 1

  predicate Distinct<T(==)>(s: seq<T>) { forall i, j :: 0 <= i < j < |s| ==> s[i] != s[j] }

  /** A producer's blocks are listed so that the last is block end - 1, the one before it block end - 2 and so on. */
  function BlockAt(list: seq<Block>, end: nat, k: int): Block
    requires end - |list| <= k < end
  {
    list[|list| - end + k]
  }

  /** A ring of blocks as seen from a later one. */
  function Rotate(ring: seq<Block>, n: nat): (r: seq<Block>)
    requires n <= |ring|
    ensures |r| == |ring|
  {
    ring[n..] + ring[..n]
  }

  lemma RotateAt(ring: seq<Block>, n: nat, i: nat)
    requires n <= |ring| && i < |ring|
    ensures Rotate(ring, n)[i] == ring[if i < |ring| - n then n + i else n + i - |ring|]
  {
  }

  function BlockOrNone(list: seq<Block>, end: nat, k: int): Option<Block> {
    if end - |list| <= k < end then Some(BlockAt(list, end, k)) else None
  }

  ghost predicate ChainedAt(list: seq<Block>, next: seq<Option<Block>>, end: nat, k: int)
    requires end - |list| <= k < end - 1
  {
    BlockAt(list, end, k) < |next| && next[BlockAt(list, end, k)] == Some(BlockAt(list, end, k + 1))
  }

  /** Following `next` from block k0 leads through the later blocks. */
  ghost predicate Chained(list: seq<Block>, next: seq<Option<Block>>, end: nat, k0: int)
    requires end - |list| <= k0
  {
    forall k :: k0 <= k < end - 1 ==> ChainedAt(list, next, end, k)
  }

  /** MAX_SUBQUEUE_SIZE: what the traits say, rounded up to whole blocks. */
  function WholeBlocks(limit: Option<nat>, bs: nat): Option<nat>
    requires bs > 0
  {
    match limit
    case None => None
    case Some(n) => Some(Started(n, bs) * bs)
  }

  lemma WholeBlocksRound(limit: nat, bs: nat)
    requires bs > 0
    ensures var m := WholeBlocks(Some(limit), bs).value; m % bs == 0 && limit <= m < limit + bs
  {
    DivBounds(limit + bs - 1, bs);
    MulDiv((limit + bs - 1) / bs, bs);
  }

  /** Element i is in the cell that its index designates, in the block that holds that index. */
  ghost predicate StoredAt<T>(cells: array2<T>, items: seq<T>, list: seq<Block>, end: nat, bs: nat, i: nat)
    reads cells
    requires bs > 0 && i < |items|
  {
    && end - |list| <= i / bs < end && BlockAt(list, end, i / bs) < cells.Length0 && i % bs < cells.Length1
    && cells[BlockAt(list, end, i / bs), i % bs] == items[i]
  }

  /** All elements not yet dequeued are stored. */
  ghost predicate Stored<T>(cells: array2<T>, items: seq<T>, list: seq<Block>, end: nat, head: nat, bs: nat)
    reads cells
  {
    bs > 0 && forall i :: head <= i < |items| ==> StoredAt(cells, items, list, end, bs, i)
  }

  lemma StoredFrom<T>(cells: array2<T>, items: seq<T>, list: seq<Block>, end: nat, head: nat, bs: nat, head': nat)
    requires Stored(cells, items, list, end, head, bs) && head <= head'
    ensures Stored(cells, items, list, end, head', bs)
  {
  }

  /** The elements stay found when the list changes but block k of each of them stays block k. */
  lemma StoredKept<T>(cells: array2<T>, items: seq<T>, list: seq<Block>, end: nat, head: nat, lo: nat, bs: nat,
                              list': seq<Block>, end': nat)
    requires Stored(cells, items, list, end, head, bs) && lo * bs <= head
    requires end - |list| <= lo && end' - |list'| <= lo && end <= end'
    requires forall k :: lo <= k < end ==> BlockAt(list', end', k) == BlockAt(list, end, k)
    ensures Stored(cells, items, list', end', head, bs)
  {
    forall i | head <= i < |items| ensures StoredAt(cells, items, list', end', bs, i) {
      assert StoredAt(cells, items, list, end, bs, i);
      BlockBelow(lo, i, bs);
    }
  }

  /** Freeing the first listed block when its elements are dequeued. */
  lemma StoredRest<T>(cells: array2<T>, items: seq<T>, list: seq<Block>, end: nat, head: nat, lo: nat, bs: nat)
    requires Stored(cells, items, list, end, head, bs) && head == (lo + 1) * bs && list != [] && end - |list| == lo
    ensures Stored(cells, items, list[1..], end, head, bs)
  {
    forall i | head <= i < |items| ensures StoredAt(cells, items, list[1..], end, bs, i) {
      assert StoredAt(cells, items, list, end, bs, i);
      BlockBelow(lo + 1, i, bs);
      assert BlockAt(list[1..], end, i / bs) == BlockAt(list, end, i / bs);
    }
  }

  lemma StoredUnclaimed<T>(cells: array2<T>, items: seq<T>, list: seq<Block>, end: nat, head: nat, lo: nat, hi: nat,
                           bs: nat, list': seq<Block>)
    requires Stored(cells, items, list, end, head, bs) && lo * bs <= head && |items| <= hi * bs
    requires hi <= end && end - |list| <= lo && hi - |list'| <= lo
    requires forall k :: lo <= k < hi ==> BlockAt(list', hi, k) == BlockAt(list, end, k)
    ensures Stored(cells, items, list', hi, head, bs)
  {
    forall i | head <= i < |items| ensures StoredAt(cells, items, list', hi, bs, i) {
      assert StoredAt(cells, items, list, end, bs, i);
      BlockBelow(lo, i, bs);
      BlockAbove(hi, i, bs);
    }
  }

  /** A Block object is its position in the initial array; its fields are the entries below at that position. */
  class Pool<T(0)> {
    const blockSize: nat                    // BLOCK_SIZE
    const size: nat                         // initialBlockPoolSize
    const cells: array2<T>                  // Block::elements
    var next: seq<Option<Block>>            // Block::next
    var done: seq<nat>                      // Block::elementsCompletelyDequeued
    var issued: nat                         // initialBlockPoolIndex
    var free: seq<Block>                    // freeList, head first

    ghost predicate Valid()
      reads this
    {
      && blockSize > 1
      && cells.Length0 == size && cells.Length1 == blockSize
      && |next| == size && |done| == size
      && issued <= size
      && Distinct(free) && (forall i :: 0 <= i < |free| ==> free[i] < issued)
    }

    /** The blocks in the hands of producers. */
    ghost function Owned(): set<Block>
      reads this
    {
      set b | 0 <= b < issued && b !in free
    }

    /** How many blocks can still be requisitioned. */
    ghost function Available(): nat
      reads this
      requires Valid()
    {
      size - issued + |free|
    }

    function Follow(b: Block): Option<Block>
      reads this
    {
      if b < |next| then next[b] else None
    }

    /** is_empty */
    predicate IsEmpty(b: Option<Block>)
      reads this
    {
      b.Some? && b.value < |done| && done[b.value] == blockSize
    }

    constructor (blockSize: nat, size: nat)
      requires blockSize > 1
      ensures Valid() && this.blockSize == blockSize && this.size == size
      ensures Owned() == {} && Available() == size
      ensures fresh(cells)
    {
      this.blockSize, this.size := blockSize, size;
      cells := new T[size, blockSize];
      next, done := seq(size, _ => None), seq(size, _ => 0);
      issued, free := 0, [];
    }

    /** requisition_block<CannotAlloc>: first the initial pool, then the free list. */
    method Requisition() returns (block: Option<Block>)
      requires Valid()
      modifies this`issued, this`free
      ensures Valid()
      ensures block == None <==> old(Available()) == 0
      ensures block == None ==> Owned() == old(Owned()) && Available() == 0
      ensures block.Some? ==>
                && block.value < size && block.value !in old(Owned())
                && Owned() == old(Owned()) + {block.value}
                && Available() == old(Available()) - 1
    {
      if issued < size {
        block := Some(issued);
        issued := issued + 1;
        assert Owned() == old(Owned()) + {block.value};
      } else if free != [] {
        block := Some(free[0]);
        free := free[1..];
        assert forall b :: b in old(free) <==> b == block.value || b in free;
        assert block.value !in free;
      } else {
        block := None;
      }
    }

    /** add_block_to_free_list */
    method Add(block: Block)
      requires Valid() && block in Owned()
      modifies this`free
      ensures Valid()
      ensures Owned() == old(Owned()) - {block}
      ensures Available() == old(Available()) + 1
    {
      free := [block] + free;
      assert forall b :: b in free <==> b == block || b in old(free);
    }

    /** Construct an element in its cell. */
    method Put(block: Block, index: nat, x: T, ghost known: seq<T>, ghost list: seq<Block>, ghost end: nat,
               ghost head: nat)
      requires blockSize > 0 && cells.Length1 == blockSize && index == |known|
      requires Stored(cells, known, list, end, head, blockSize)
      requires Distinct(list) && forall i :: 0 <= i < |list| ==> list[i] < cells.Length0
      requires end - |list| <= index / blockSize < end && block == BlockAt(list, end, index / blockSize)
      modifies cells
      ensures Stored(cells, known + [x], list, end, head, blockSize)
    {
      ghost var known' := known + [x];
      forall i | head <= i < |known|
        ensures StoredAt(cells, known, list, end, blockSize, i)
        ensures BlockAt(list, end, i / blockSize) != block || i % blockSize != index % blockSize
      {
        assert StoredAt(cells, known, list, end, blockSize, i);
        DivBounds(i, blockSize);
        DivBounds(index, blockSize);
      }
      label before:
      cells[block, index % blockSize] := x;
      forall i | head <= i < |known'| ensures StoredAt(cells, known', list, end, blockSize, i) {
        assert i < |known| ==> old@before(StoredAt(cells, known, list, end, blockSize, i));
      }
    }

    /** Construct the elements of the batch that belong to block k, with indices from `from` to `to`. */
    method PutMany(block: Block, from: nat, to: nat, batch: seq<T>, start: nat, ghost items: seq<T>,
                   ghost list: seq<Block>, ghost end: nat, ghost head: nat, ghost k: nat)
      requires blockSize > 0 && cells.Length1 == blockSize && start == |items| <= from <= to <= start + |batch|
      requires Within(from, k, blockSize) && Within(to, k, blockSize)
      requires end - |list| <= k < end && block == BlockAt(list, end, k)
      requires Distinct(list) && forall i :: 0 <= i < |list| ==> list[i] < cells.Length0
      requires Stored(cells, items + batch[..from - start], list, end, head, blockSize)
      modifies cells
      ensures Stored(cells, items + batch[..to - start], list, end, head, blockSize)
    {
      var index := from;
      while index != to
        invariant from <= index <= to
        invariant Stored(cells, items + batch[..index - start], list, end, head, blockSize)
      {
        ghost var known := items + batch[..index - start];
        ModUnique(index, blockSize, k, index - k * blockSize);
        Put(block, index, batch[index - start], known, list, end, head);
        assert known + [batch[index - start]] == items + batch[..index + 1 - start];
        index := index + 1;
      }
    }

    /** The second half of both enqueue_bulk operations: construct the elements, one block at a time,
        following `next` from the first block to endBlock. */
    method Fill(batch: seq<T>, start: nat, first: Option<Block>, endBlock: Option<Block>, ghost items: seq<T>,
                ghost list: seq<Block>, ghost end: nat, ghost head: nat, ghost k0: int)
      requires blockSize > 1 && cells.Length1 == blockSize && start == |items|
      requires Distinct(list) && forall i :: 0 <= i < |list| ==> list[i] < cells.Length0
      requires if batch == [] then first == endBlock else
                 && end == Started(start + |batch|, blockSize) && end - |list| <= k0 < end
                 && Within(start, k0, blockSize) && Within(start + 1, k0, blockSize)
                 && first == BlockOrNone(list, end, k0) && endBlock == BlockOrNone(list, end, end - 1)
                 && Chained(list, next, end, k0)
      requires Stored(cells, items, list, end, head, blockSize)
      modifies cells
      ensures Stored(cells, items + batch, list, end, head, blockSize)
    {
      var tailBlock, newTailIndex, currentTailIndex, more := first, start + |batch|, start, true;
      ghost var k := k0;
      assert items + batch[..0] == items;
      hide Within, Stored, Started;
      while more
        invariant start <= currentTailIndex <= newTailIndex
        invariant Stored(cells, items + batch[..currentTailIndex - start], list, end, head, blockSize)
        invariant batch == [] ==> tailBlock == endBlock
        invariant batch != [] ==>
          && k0 <= k < end && Within(currentTailIndex, k, blockSize) && tailBlock == BlockOrNone(list, end, k)
          && (currentTailIndex == newTailIndex || Within(currentTailIndex + 1, k, blockSize))
        invariant !more ==> currentTailIndex == newTailIndex
        decreases end - k, more
      {
        var stopIndex := Floor(currentTailIndex, blockSize) + blockSize;
        stopIndex := if newTailIndex < stopIndex then newTailIndex else stopIndex;
        if batch != [] {
          Stop(currentTailIndex, newTailIndex, stopIndex, k, end, blockSize);
        }
        if currentTailIndex != stopIndex {
          PutMany(tailBlock.value, currentTailIndex, stopIndex, batch, start, items, list, end, head, k);
        }
        currentTailIndex := stopIndex;
        if tailBlock == endBlock {
          more := false;
        } else {
          assert ChainedAt(list, next, end, k);
          tailBlock := Follow(tailBlock.value);
          k := k + 1;
        }
      }
      assert items + batch[..|batch|] == items + batch;
    }

    /** Move out the elements from, ... to - 1, which all lie in the given block. */
    method Read(block: Block, from: nat, to: nat, ghost items: seq<T>, ghost list: seq<Block>, ghost end: nat,
                ghost head: nat, ghost k: nat) returns (out: seq<T>)
      requires blockSize > 0 && Stored(cells, items, list, end, head, blockSize)
      requires end - |list| <= k < end && block == BlockAt(list, end, k)
      requires head <= from <= to <= |items| && Within(from, k, blockSize) && Within(to, k, blockSize)
      ensures out == items[from..to]
    {
      out := [];
      var index := from;
      while index != to
        invariant from <= index <= to
        invariant out == items[from..index]
      {
        assert StoredAt(cells, items, list, end, blockSize, index);
        ModUnique(index, blockSize, k, index - k * blockSize);
        out := out + [cells[block, index % blockSize]];
        index := index + 1;
      }
    }

    /** The pool's blocks are never lost: those producers own and those still available make up the pool. */
    lemma Conserved()
      requires Valid()
      ensures |Owned()| + Available() == size
    {
      var all := Below(issued);
      DistinctSize(free);
      SubsetSize(Elems(free), all);
      assert Owned() == all - Elems(free);
    }
  }

  ghost function Elems(s: seq<Block>): set<Block> { set b | b in s }

  lemma ElemsMore(s: seq<Block>, b: Block)
    ensures Elems(s + [b]) == Elems(s) + {b}
  {
  }

  lemma ElemsRest(s: seq<Block>)
    requires Distinct(s) && s != []
    ensures Elems(s[1..]) == Elems(s) - {s[0]} && s[0] !in s[1..]
  {
    assert s == [s[0]] + s[1..];
  }

  lemma {:induction false} DistinctSize(s: seq<Block>)
    requires Distinct(s)
    ensures |Elems(s)| == |s|
  {
    if s != [] {
      var n := |s| - 1;
      DistinctSize(s[..n]);
      assert Elems(s) == Elems(s[..n]) + {s[n]};
      assert s[n] !in s[..n];
    }
  }

  /** A ring of distinct pool blocks is no longer than the pool. */
  lemma RingFits(ring: seq<Block>, size: nat)
    requires Distinct(ring) && forall i :: 0 <= i < |ring| ==> ring[i] < size
    ensures |ring| <= size
  {
    DistinctSize(ring);
    SubsetSize(Elems(ring), Below(size));
  }
}
