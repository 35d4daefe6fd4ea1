/** Which block an index belongs to, and how the producers step through block bases. A block is numbered by
    its base divided by BLOCK_SIZE; bs stands for BLOCK_SIZE. */
module BlockMath {
  import opened ModArith

  /** Blocks started to hold the indices below `tail`. */
  function Started(tail: nat, bs: nat): nat
    requires bs > 0
  {
    (tail + bs - 1) / bs
  }

  lemma StartedBounds(tail: nat, bs: nat)
    requires bs > 1
    ensures tail <= Started(tail, bs) * bs < tail + bs
    ensures Started(tail + 1, bs) == (if tail % bs == 0 then Started(tail, bs) + 1 else Started(tail, bs))
    ensures tail / bs == (if tail % bs == 0 then Started(tail, bs) else Started(tail, bs) - 1)
  {
    var q, r := tail / bs, tail % bs;
    DivBounds(tail, bs);
    if r == 0 {
      ModUnique(tail + bs - 1, bs, q, bs - 1);
      ModUnique(tail + bs, bs, q + 1, 0);
    } else {
      ModUnique(tail + bs - 1, bs, q + 1, r - 1);
      ModUnique(tail + bs, bs, q + 1, r);
    }
  }

  /** The base of the block before the one that index t starts or continues. */
  lemma FloorStarted(t: nat, bs: nat)
    requires bs > 1
    ensures t - 1 - (t - 1) % bs == (Started(t, bs) - 1) * bs
  {
    DivBounds(t - 1, bs);
    ModUnique(t + bs - 1, bs, (t - 1) / bs + 1, (t - 1) % bs);
  }

  lemma StartedGrows(t: nat, n: nat, bs: nat)
    requires bs > 1
    ensures Started(t, bs) <= Started(t + n, bs)
    ensures n > 0 ==> (Started(t + n, bs) - 1) * bs < t + n
  {
    DivMonotone(t + bs - 1, t + n + bs - 1, bs);
    FloorStarted(t + n, bs);
  }

  lemma LastBlock(tail: nat, bs: nat)
    requires bs > 1
    ensures (Started(tail, bs) - 1) * bs < tail <= (Started(tail, bs) - 1) * bs + bs
  {
    FloorStarted(tail, bs);
    StartedBounds(tail, bs);
  }

  /** How many elements of block k have been dequeued when the head is at `head`, for a block not used up. */
  function Consumed(head: nat, k: nat, bs: nat): nat { if head > k * bs then head - k * bs else 0 }

  /** A block that is not used up is not empty. */
  lemma ConsumedShort(head: nat, lo: nat, k: nat, bs: nat)
    requires head < lo * bs + bs && lo <= k
    ensures Consumed(head, k, bs) < bs
  {
    assert lo * bs <= k * bs;
  }

  /** Blocks started after the head's own have nothing consumed. */
  lemma NothingConsumed(head: nat, hi: nat, k: nat, bs: nat)
    requires head <= hi * bs && hi <= k
    ensures Consumed(head, k, bs) == 0
  {
    assert hi * bs <= k * bs;
  }

  /** The block of the first element left after c more of block lo are gone. */
  lemma HeadBlock(head: nat, lo: nat, bs: nat, c: nat, lo': nat)
    requires lo * bs <= head && head + c <= lo * bs + bs && bs > 0
    requires lo' == if head + c == lo * bs + bs then lo + 1 else lo
    ensures lo' * bs <= head + c < lo' * bs + bs
  {
    assert (lo + 1) * bs == lo * bs + bs;
  }

  lemma MulMonotone(a: nat, b: nat, m: nat)
    ensures a <= b ==> a * m <= b * m
  {
  }

  lemma NextMultiple(k: int, m: int, bs: nat)
    requires bs > 1
    ensures k < m ==> k * bs + bs == (k + 1) * bs <= m * bs
    ensures k < 0 ==> k * bs + bs <= 0
  {
    if k < m {
      var d := m - k - 1;
      assert m * bs == k * bs + bs + d * bs;
    }
    assert k < 0 ==> k * bs <= -1 * bs;
  }

  lemma BlockBelow(k: nat, i: nat, bs: nat)
    requires bs > 0 && k * bs <= i
    ensures k <= i / bs
  {
    MulDiv(k, bs);
    DivMonotone(k * bs, i, bs);
  }

  lemma BlockAbove(k: nat, i: nat, bs: nat)
    requires bs > 0 && i < k * bs
    ensures i / bs < k
  {
    DivBounds(i, bs);
    var d := i / bs - k;
    assert i / bs * bs == k * bs + d * bs;
    assert d >= 0 ==> d * bs >= 0;
  }

  /** The first index of block k. */
  function Base(k: nat, bs: nat): nat { k * bs }

  /** x is n block sizes. */
  predicate Times(x: int, n: int, bs: nat) { x == n * bs }

  lemma LeftOver(x: int, n: int, bs: nat)
    requires bs > 0 && Times(x, n, bs)
    ensures x == 0 <==> n == 0
    ensures x > 0 <==> n > 0
  {
  }

  /** On to the base of the next block. */
  method NextBase(diff: nat, base: int, ghost end: nat, ghost left: nat, bs: nat)
    returns (blockBaseDiff: nat, currentTailIndex: int)
    requires bs > 0 && Times(diff, left, bs) && diff > 0 && Times(base, end - 1, bs)
    ensures left > 0 && Times(blockBaseDiff, left - 1, bs) && Times(currentTailIndex, end, bs)
    ensures currentTailIndex == base + bs >= 0 && currentTailIndex + blockBaseDiff == base + diff
  {
    LeftOver(diff, left, bs);
    assert left * bs == (left - 1) * bs + bs;
    assert end * bs == (end - 1) * bs + bs;
    blockBaseDiff, currentTailIndex := diff - bs, base + bs;
  }

  lemma LastBase(base: int, mid: nat, diff: int, end: nat, bs: nat)
    requires bs > 0 && mid <= end && Times(base, mid - 1, bs) && Times(diff, end - mid, bs)
    ensures base + diff == (end - 1) * bs
  {
    assert (end - 1) * bs == (mid - 1) * bs + (end - mid) * bs;
  }

  /** index & ~(BLOCK_SIZE - 1) */
  function Floor(i: int, bs: nat): int
    requires bs > 0
  {
    i - i % bs
  }

  /** How many blocks a bulk enqueue must start. */
  lemma BaseDiff(tail: nat, n: nat, bs: nat)
    requires bs > 1
    ensures Times(Floor(tail - 1, bs), Started(tail, bs) - 1, bs)
    ensures Times(Floor(tail + n - 1, bs) - Floor(tail - 1, bs), Started(tail + n, bs) - Started(tail, bs), bs)
    ensures Started(tail, bs) <= Started(tail + n, bs)
  {
    FloorStarted(tail, bs);
    FloorStarted(tail + n, bs);
    StartedGrows(tail, n, bs);
    var a, b := Started(tail, bs), Started(tail + n, bs);
    assert (b - 1) * bs - (a - 1) * bs == (b - a) * bs;
  }

  /** Elements are written to the block in use at the tail, unless the tail is on a block boundary. */
  lemma TailBlock(tail: nat, n: nat, head: nat, lo: nat, bs: nat)
    requires bs > 1 && lo * bs <= head <= tail
    ensures tail % bs != 0 ==> lo < Started(tail, bs)
    ensures tail % bs == 0 && n > 0 ==> Started(tail, bs) < Started(tail + n, bs)
  {
    hide Started;
    StartedBounds(tail, bs);
    LastBlock(tail, bs);
    NextMultiple(Started(tail, bs) - 1, lo, bs);
    if n > 0 {
      StartedGrows(tail + 1, n - 1, bs);
    }
  }

  predicate Within(i: int, k: int, bs: nat) { k * bs <= i <= k * bs + bs }

  /** The block where a bulk enqueue starts to fill. */
  lemma FirstBlock(tail: nat, n: nat, hi: nat, end: nat, bs: nat, k: int)
    requires bs > 1 && hi == Started(tail, bs) && end == Started(tail + n, bs)
    requires k == if tail % bs == 0 && hi < end then hi as int else hi - 1
    ensures Within(tail, k, bs) && (n == 0 || Within(tail + 1, k, bs)) && k < end
  {
    StartedBounds(tail, bs);
    StartedGrows(tail, n, bs);
    LastBlock(tail, bs);
    DivBounds(tail, bs);
    if n > 0 && tail % bs == 0 {
      LastBlock(tail + n, bs);
      NextMultiple(end - 1, hi, bs);
    }
  }

  /** Where filling block k stops, and that there is a next one exactly when elements are left. */
  lemma Stop(i: nat, newTail: nat, stop: nat, k: int, end: nat, bs: nat)
    requires bs > 1 && Within(i, k, bs) && i <= newTail && (i == newTail || Within(i + 1, k, bs)) && k < end
    requires end == Started(newTail, bs)
    requires stop == if newTail < i - i % bs + bs then newTail else i - i % bs + bs
    ensures i <= stop <= newTail && Within(stop, k, bs)
    ensures i < stop ==> k >= 0
    ensures k == end - 1 ==> stop == newTail
    ensures k < end - 1 ==> Within(stop, k + 1, bs) && (stop == newTail || Within(stop + 1, k + 1, bs))
  {
    LastBlock(newTail, bs);
    var last := (end - 1) * bs;
    NextMultiple(k, end - 1, bs);
    if i != newTail {
      ModUnique(i, bs, k, i - k * bs);
    }
  }

  /** The entry of the circular index for the block that holds `index`, found from the published entry. */
  function LookupSlot(front: nat, frontBase: int, index: nat, bs: nat, size: nat): (slot: int)
    requires bs > 0 && size > 0
    ensures 0 <= slot < size
  {
    (front + (index - index % bs - frontBase) / bs) % size
  }

  lemma LookupFinds(front: nat, last: nat, index: nat, bs: nat, size: nat)
    requires bs > 0 && size > 0 && front == last % size
    ensures LookupSlot(front, last * bs, index, bs, size) == index / bs % size
  {
    DivBounds(index, bs);
    var k := index / bs;
    assert k * bs - last * bs == (k - last) * bs;
    MulDiv(k - last, bs);
    ModShift(last, k - last, size);
  }
}
