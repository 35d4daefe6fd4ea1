/** How the two kinds of producers replace a full circular block index by one of twice the size, while consumers may
    still be using either. */
module IndexGrowth {
  import opened Options
  import opened ModArith
  import opened BlockMath
  import opened BlockPool

  // ---------------------------------------------------------------- explicit producers

  /** ExplicitProducer::new_block_index: the entries in use are copied in order, oldest first. */
  method NewExplicitIndex(prior: array<Entry>, indexFront: nat, slotsUsed: nat, numberOfFilledSlotsToExpose: nat)
    returns (entries: array<Entry>, newFront: nat, exposed: int)
    requires indexFront < prior.Length && slotsUsed <= prior.Length
    ensures fresh(entries) && entries.Length == 2 * prior.Length
    ensures newFront == slotsUsed && exposed == numberOfFilledSlotsToExpose - 1
    ensures forall d :: 0 <= d < slotsUsed ==> entries[d] == prior[(indexFront - slotsUsed + d) % prior.Length]
  {
    var size := prior.Length;
    entries := new Entry[2 * size](_ => Entry(0, 0));
    var j := 0;
    if slotsUsed != 0 {
      var i := (indexFront - slotsUsed) % size;
      var more := true;
      while more
        invariant 0 <= j <= slotsUsed && (more ==> j < slotsUsed) && (!more ==> j == slotsUsed)
        invariant i == (indexFront - slotsUsed + j) % size
        invariant forall d :: 0 <= d < j ==> entries[d] == prior[(indexFront - slotsUsed + d) % size]
        decreases slotsUsed - j, more
      {
        entries[j] := prior[i];
        ModShift(indexFront - slotsUsed + j, 1, size);
        j := j + 1;
        i := (i + 1) % size;
        // back at the front exactly when all entries in use are copied
        ModUnique(indexFront, size, 0, indexFront);
        if j < slotsUsed {
          ModDistinct(indexFront - slotsUsed + j, indexFront, size);
        }
        more := i != indexFront;
      }
    }
    return entries, j, numberOfFilledSlotsToExpose - 1;
  }

  /** The circular index holds the last `used` blocks, ending with block end - 1 right before the front. */
  ghost predicate HoldsLast(entries: seq<Entry>, front: int, used: nat, end: nat, bs: nat) {
    && 0 < |entries| && used <= |entries| && used <= end
    && forall k :: end - used <= k < end ==> SlotHolds(entries, front, end, k, bs)
  }

  /** The entry of block k, end - k entries before the front. */
  ghost predicate SlotHolds(entries: seq<Entry>, front: int, end: nat, k: nat, bs: nat) {
    |entries| > 0 && entries[(front - end + k) % |entries|].base == k * bs
  }

  /** The lookup finds the entry of every block in the index, from whichever of them it starts. */
  lemma LookupFindsHeld(entries: seq<Entry>, front: int, used: nat, end: nat, bs: nat, from: nat, index: nat)
    requires bs > 0 && HoldsLast(entries, front, used, end, bs)
    requires end - used <= from < end && end - used <= index / bs < end
    ensures var published := (front - end + from) % |entries|;
            var slot := LookupSlot(published, entries[published].base, index, bs, |entries|);
            slot == (front - end + index / bs) % |entries| && entries[slot].base == Floor(index, bs)
  {
    var published, k := (front - end + from) % |entries|, index / bs;
    assert SlotHolds(entries, front, end, from, bs) && SlotHolds(entries, front, end, k, bs);
    DivBounds(index, bs);
    assert k * bs - from * bs == (k - from) * bs;
    MulDiv(k - from, bs);
    ModShift(front - end + from, k - from, |entries|);
  }

  /** Growth preserves lookup: the bigger index, into which at least the entries of the `used` blocks have been copied,
      finds, from whichever of these is exposed as its front, the very entry that the old one finds, however the old one
      was rotated. */
  lemma ExplicitGrowthKeepsLookup(prior: seq<Entry>, front: nat, used: nat, grown: seq<Entry>, copied: nat, expose: nat,
                                  end: nat, bs: nat, from: nat, index: nat)
    requires bs > 0 && HoldsLast(prior, front, used, end, bs) && |grown| == 2 * |prior| && used <= copied <= |prior|
    requires forall d :: 0 <= d < copied ==> grown[d] == prior[(front - copied + d) % |prior|]
    requires copied - used < expose <= copied && end - used <= from < end && end - used <= index / bs < end
    ensures var published := (front - end + from) % |prior|;
            prior[LookupSlot(published, prior[published].base, index, bs, |prior|)]
            == grown[LookupSlot(expose - 1, grown[expose - 1].base, index, bs, |grown|)]
  {
    var k := index / bs;
    GrownHoldsLast(prior, front, used, grown, copied, end, bs);
    LookupFindsHeld(prior, front, used, end, bs, from, index);
    LookupFindsHeld(grown, copied, used, end, bs, end - copied + expose - 1, index);
    hide LookupSlot, HoldsLast;
    GrownSlot(|prior|, front, copied, end, k);
    GrownSlot(|prior|, front, copied, end, end - copied + expose - 1);
  }

  /** Where the entry of block k is in the bigger index, and where it was. */
  lemma GrownSlot(size: nat, front: nat, copied: nat, end: nat, k: int)
    requires copied <= size && end - copied <= k < end
    ensures (copied - end + k) % (2 * size) == copied - end + k
    ensures (front - copied + (copied - end + k)) % size == (front - end + k) % size
  {
    ModUnique(copied - end + k, 2 * size, 0, copied - end + k);
    assert front - copied + (copied - end + k) == front - end + k;
  }

  lemma GrownHoldsLast(prior: seq<Entry>, front: nat, used: nat, grown: seq<Entry>, copied: nat, end: nat, bs: nat)
    requires HoldsLast(prior, front, used, end, bs) && |grown| == 2 * |prior| && used <= copied <= |prior|
    requires forall d :: 0 <= d < copied ==> grown[d] == prior[(front - copied + d) % |prior|]
    ensures HoldsLast(grown, copied, used, end, bs)
  {
    forall n | end - used <= n < end ensures SlotHolds(grown, copied, end, n, bs) {
      assert SlotHolds(prior, front, end, n, bs);
      GrownSlot(|prior|, front, copied, end, n);
    }
  }

  // ---------------------------------------------------------------- implicit producers

  /** An entry is an object that the old and the new index share: what a consumer does through one of them is
      seen through the other. */
  class IndexEntry {
    var key: nat
    var value: Option<Block>

    constructor ()
      ensures key == INVALID_BLOCK_BASE && value == None
    {
      key, value := INVALID_BLOCK_BASE, None;
    }
  }

  class BlockIndexHeader {
    const index: array<IndexEntry>
    var tail: nat

    constructor (index: array<IndexEntry>, tail: nat)
      ensures this.index == index && this.tail == tail
    {
      this.index, this.tail := index, tail;
    }
  }

  /** ImplicitProducer::new_block_index: all entries of the old index, from the one after its tail around to the
      tail, and as many new ones behind them; without an old index only new ones. */
  method NewImplicitIndex(prev: BlockIndexHeader?, nextBlockIndexCapacity: nat) returns (header: BlockIndexHeader)
    requires prev == null ==> nextBlockIndexCapacity > 0
    requires prev != null ==> prev.tail < prev.index.Length && nextBlockIndexCapacity == 2 * prev.index.Length
    ensures fresh(header) && fresh(header.index) && header.index.Length == nextBlockIndexCapacity
    ensures var cap := if prev == null then 0 else prev.index.Length;
            && header.tail == (cap - 1) % header.index.Length
            && (forall d :: 0 <= d < cap ==> header.index[d] == prev.index[(prev.tail + 1 + d) % cap])
            && (forall d :: cap <= d < header.index.Length ==>
                  fresh(header.index[d]) && header.index[d].key == INVALID_BLOCK_BASE)
  {
    var prevCapacity := if prev == null then 0 else prev.index.Length;
    var entryCount := if prev == null then nextBlockIndexCapacity else prevCapacity;
    var filler := new IndexEntry();
    var index := new IndexEntry[nextBlockIndexCapacity](_ => filler);
    if prev != null {
      var prevPos, i, more := prev.tail, 0, true;
      while more
        invariant 0 <= i <= prevCapacity && (more ==> i < prevCapacity) && (!more ==> i == prevCapacity)
        invariant prevPos == (prev.tail + i) % prevCapacity
        invariant forall d :: 0 <= d < i ==> index[d] == prev.index[(prev.tail + 1 + d) % prevCapacity]
        decreases prevCapacity - i, more
      {
        ModShift(prev.tail + i, 1, prevCapacity);
        prevPos := (prevPos + 1) % prevCapacity;
        index[i] := prev.index[prevPos];
        i := i + 1;
        ModUnique(prev.tail, prevCapacity, 0, prev.tail);
        if i < prevCapacity {
          ModDistinct(prev.tail, prev.tail + i, prevCapacity);
        } else {
          ModUnique(prev.tail + i, prevCapacity, 1, prev.tail);
        }
        more := prevPos != prev.tail;
      }
    }
    var i := 0;
    while i != entryCount
      invariant 0 <= i <= entryCount
      invariant prev != null ==>
                  forall d :: 0 <= d < prevCapacity ==> index[d] == prev.index[(prev.tail + 1 + d) % prevCapacity]
      invariant forall d :: prevCapacity <= d < prevCapacity + i ==>
                  fresh(index[d]) && index[d].key == INVALID_BLOCK_BASE
    {
      var e := new IndexEntry();
      index[prevCapacity + i] := e;
      i := i + 1;
    }
    header := new BlockIndexHeader(index, (prevCapacity - 1) % nextBlockIndexCapacity);
  }

  /** The entry objects of the last `used` blocks, ending with block end - 1 at the tail; `keys` says what
      keys the objects hold. */
  ghost predicate KeysLast(index: seq<IndexEntry>, keys: IndexEntry -> nat, tail: int, used: nat, end: nat, bs: nat) {
    && 0 < |index| && used <= |index| && used <= end
    && forall k :: end - used <= k < end ==> KeyAt(index, keys, tail, end, k, bs)
  }

  ghost predicate KeyAt(index: seq<IndexEntry>, keys: IndexEntry -> nat, tail: int, end: nat, k: nat, bs: nat) {
    |index| > 0 && keys(index[(tail - (end - 1) + k) % |index|]) == k * bs
  }

  lemma ImplicitLookup(index: seq<IndexEntry>, keys: IndexEntry -> nat, tail: nat, used: nat, end: nat, bs: nat, i: nat)
    requires bs > 0 && used > 0 && tail < |index| && KeysLast(index, keys, tail, used, end, bs)
    requires end - used <= i / bs < end
    ensures LookupSlot(tail, keys(index[tail]), i, bs, |index|) == (tail - (end - 1) + i / bs) % |index|
  {
    assert KeyAt(index, keys, tail, end, end - 1, bs);
    ModUnique(tail, |index|, 0, tail);
    DivBounds(i, bs);
    var k := i / bs;
    assert k * bs - (end - 1) * bs == (k - (end - 1)) * bs;
    MulDiv(k - (end - 1), bs);
  }

  /** Growth preserves lookup: through the bigger index every block is found at the same entry object as through
      the old one, however that was rotated; and the entry after the new tail is free. */
  lemma ImplicitGrowthKeepsLookup(prior: seq<IndexEntry>, grown: seq<IndexEntry>, keys: IndexEntry -> nat, tail: nat,
                                  used: nat, end: nat, bs: nat, i: nat)
    requires bs > 0 && used > 0 && tail < |prior| && KeysLast(prior, keys, tail, used, end, bs)
    requires |grown| == 2 * |prior| && forall d :: 0 <= d < |prior| ==> grown[d] == prior[(tail + 1 + d) % |prior|]
    requires forall d :: |prior| <= d < |grown| ==> keys(grown[d]) == INVALID_BLOCK_BASE
    requires end - used <= i / bs < end
    ensures var newTail := (|prior| - 1) % |grown|;
            && prior[LookupSlot(tail, keys(prior[tail]), i, bs, |prior|)]
               == grown[LookupSlot(newTail, keys(grown[newTail]), i, bs, |grown|)]
            && keys(grown[(newTail + 1) % |grown|]) == INVALID_BLOCK_BASE
  {
    var cap := |prior|;
    ModUnique(cap - 1, |grown|, 0, cap - 1);
    ModUnique(cap, |grown|, 0, cap);
    var last := cap - 1;
    forall k | end - used <= k < end ensures KeyAt(grown, keys, last, end, k, bs) {
      MovedEntry(cap, tail, end, k);
      assert KeyAt(prior, keys, tail, end, k, bs);
    }
    ImplicitLookup(prior, keys, tail, used, end, bs, i);
    ImplicitLookup(grown, keys, cap - 1, used, end, bs, i);
    MovedEntry(cap, tail, end, i / bs);
  }

  lemma MovedEntry(cap: nat, tail: nat, end: nat, k: nat)
    requires cap > 0 && tail < cap && end - cap <= k < end
    ensures var d := cap - 1 - (end - 1) + k;
            0 <= d < cap && d % (2 * cap) == d && (tail + 1 + d) % cap == (tail - (end - 1) + k) % cap
  {
    var d := cap - 1 - (end - 1) + k;
    ModUnique(d, 2 * cap, 0, d);
    var x := tail - (end - 1) + k;
    ModUnique(x + cap, cap, x / cap + 1, x % cap);
  }
}
