/** An implicit producer enqueuing, and undoing failed enqueues, while any number of consumers hold claimed indices:
    one atomic operation per step, any interleaving. Its index is not only written by the producer: consumers null the
    entries of the blocks they use up, in any order, and a failed enqueue rewinds the tail that consumers start their
    lookup from. Shown is that every lookup still finds its block, and that neither the block nor its entry is touched
    between the fetch_add on the head that claims an index and the set_empty of that index. Which block the pool hands
    out is up to it, as long as this producer does not have it (module BlockConservation); consumers claim only indices
    of enqueued elements (module DequeueProtocol). Testing the next entry and storing its key are one step, as consumers
    only null entries, so that a test that has succeeded stays so; a block's requisition and its reset are one, as
    nobody else has the block. */
module ImplicitReuse {
  import opened Collections
  import opened Options
  import opened ModArith
  import opened BlockMath
  import opened BlockPool
  import R = BlockReuse

  type Tid = nat

  /** The producer's next operation in an enqueue of a batch. A single enqueue does the same for a batch of one. */
  datatype ProducerPc<T> =
    | Ready
    | Claiming(batch: seq<T>)                  // insert_block_index_entry: test the next entry and store the key
    | PutTail(batch: seq<T>)                   // ... store the tail
    | Requisition(batch: seq<T>)               // requisition_block, and reset_empty of the block it gives
    | PutValue(batch: seq<T>, block: Block)    // enter the block
    | Rewind(batch: seq<T>)                    // no block: rewind the tail
    | ClearEntry(batch: seq<T>)                // ... and null the entry
    | UndoValue(batch: seq<T>, j: nat)         // look up block j's entry and null it
    | UndoTail(batch: seq<T>, j: nat)          // ... and rewind the tail
    | Construct(batch: seq<T>, n: nat)

  /** A consumer that has claimed the indices first, ... stop - 1 and not yet marked any of them empty. */
  datatype Pc =
    | Idle
    | LoadTail(first: nat, stop: nat)
    | ReadKey(first: nat, stop: nat, slot: nat, newest: int)       // newest: the block the tail was at (auxiliary)
    | ReadValue(first: nat, stop: nat, slot: nat)
    | Read(first: nat, stop: nat, slot: nat, block: Block, next: nat)
    | NullValue(first: nat, stop: nat, slot: nat, k: nat)          // k: the block it has completed (auxiliary)

  datatype State<T> = State(
    bs: nat,
    keys: seq<nat>,                // the entries' keys
    values: seq<Option<Block>>,    // the entries' values
    indexTail: nat,
    producer: ProducerPc<T>,
    done: seq<nat>,                // elementsCompletelyDequeued of each block
    tail: nat,
    head: nat,
    cells: map<(Block, nat), T>,
    pc: map<Tid, Pc>,
    end: nat,                      // auxiliary: the enqueue under way has claimed the blocks up to this one
    at: int,                       // auxiliary: the block whose entry the index tail is at
    top: nat,                      // auxiliary: blocks below this one have had their key stored
    live: map<nat, Block>,         // auxiliary: the blocks entered and not nulled, by number
    cleared: set<nat>,             // auxiliary: indices marked empty
    items: seq<T>,                 // auxiliary: the elements constructed, by index
    taken: map<nat, T>             // auxiliary: what was read, by index
  )

  datatype Choice = Go | New(block: Block) | Fail

  datatype Action<T> = Begin(batch: seq<T>) | Produce(choice: Choice) | Claim(t: Tid, count: nat) | Consume(t: Tid)

  /** Blocks started before the enqueue under way. */
  function Hi<T>(s: State<T>): nat
    requires s.bs > 0
  {
    Started(s.tail, s.bs)
  }

  function Needed<T>(s: State<T>, batch: seq<T>): nat
    requires s.bs > 0
  {
    Started(s.tail + |batch|, s.bs)
  }

  // ---------------------------------------------------------------- steps of the producer

  function NextSlot<T>(s: State<T>): nat
    requires s.keys != []
  {
    (s.indexTail + 1) % |s.keys|
  }

  /** The next entry is free. */
  predicate CanInsert<T>(s: State<T>) {
    && 0 < |s.keys| == |s.values|
    && (s.keys[NextSlot(s)] == INVALID_BLOCK_BASE || s.values[NextSlot(s)] == None)
  }

  /** Go back to where the enqueue started. */
  function StartUndo<T>(s: State<T>, batch: seq<T>): State<T>
    requires s.bs > 0
  {
    s.(producer := if Hi(s) < s.end then UndoValue(batch, Hi(s)) else Ready)
  }

  function Rewound<T>(s: State<T>): State<T>
    requires s.keys != []
  {
    s.(indexTail := (s.indexTail - 1) % |s.keys|, at := s.at - 1)
  }

  predicate CanProduce<T>(s: State<T>, c: Choice) {
    && s.bs > 0 && 0 < |s.keys| == |s.values| && s.indexTail < |s.keys|
    && match s.producer {
         case Ready => false
         case Claiming(batch) => if s.end == Needed(s, batch) then c.Go? else c.Fail? || (c.Go? && CanInsert(s))
         case Requisition(_) => c.Fail? || (c.New? && c.block < |s.done| && c.block !in s.live.Values)
         case Construct(batch, n) => n < |batch| ==> (s.tail + n) / s.bs in s.live
         case _ => true
       }
  }

  function ProduceStep<T>(s: State<T>, c: Choice): State<T>
    requires CanProduce(s, c)
  {
    match s.producer
    case Ready => s
    case Claiming(batch) =>
      if s.end == Needed(s, batch) then s.(producer := Construct(batch, 0))
      else if c.Fail? then StartUndo(s, batch)      // no room, or the queue would get too long
      else
        s.(keys := s.keys[NextSlot(s) := s.end * s.bs], top := if s.top <= s.end then s.end + 1 else s.top,
           producer := PutTail(batch))
    case PutTail(batch) => s.(indexTail := NextSlot(s), at := s.at + 1, producer := Requisition(batch))
    case Requisition(batch) =>
      if c.Fail? then s.(producer := Rewind(batch))
      else s.(done := s.done[c.block := 0], producer := PutValue(batch, c.block))
    case PutValue(batch, b) =>
      s.(values := s.values[s.indexTail := Some(b)], live := s.live[s.end := b], end := s.end + 1,
         producer := Claiming(batch))
    case Rewind(batch) => Rewound(s).(producer := ClearEntry(batch))
    case ClearEntry(batch) => StartUndo(s.(values := s.values[NextSlot(s) := None]), batch)
    case UndoValue(batch, j) =>
      var slot := LookupSlot(s.indexTail, s.keys[s.indexTail], j * s.bs, s.bs, |s.keys|);
      s.(values := s.values[slot := None], live := s.live - {j}, producer := UndoTail(batch, j))
    case UndoTail(batch, j) =>
      if j + 1 < s.end then Rewound(s).(producer := UndoValue(batch, j + 1))
      else Rewound(s).(end := Hi(s), producer := Ready)
    case Construct(batch, n) =>
      if n < |batch| then
        var i := s.tail + n;
        s.(cells := s.cells[(s.live[i / s.bs], i % s.bs) := batch[n]], items := s.items + [batch[n]],
           producer := Construct(batch, n + 1))
      else
        s.(tail := |s.items|, producer := Ready)
  }

  function BeginStep<T>(s: State<T>, batch: seq<T>): State<T>
    requires s.bs > 0
  {
    s.(producer := if Needed(s, batch) == Hi(s) then Construct(batch, 0) else Claiming(batch))
  }

  // ---------------------------------------------------------------- steps of the consumers

  /** The indices of block k not marked empty. */
  ghost function Left<T>(s: State<T>, k: nat): set<nat> { Range(Base(k, s.bs), Base(k, s.bs) + s.bs) - s.cleared }

  ghost predicate CanConsume<T>(s: State<T>, t: Tid) {
    && s.bs > 0 && 0 < |s.keys| == |s.values| && t in s.pc
    && match s.pc[t] {
         case Idle => false
         case LoadTail(_, _) => true
         case ReadKey(_, _, slot, _) => slot < |s.keys|
         case ReadValue(_, _, slot) => slot < |s.keys| && s.values[slot].Some?
         case Read(first, stop, _, b, next) =>
           if next < R.Stop(s.bs, first, stop) then (b, next % s.bs) in s.cells else b < |s.done| && first <= next
         case NullValue(_, _, slot, _) => slot < |s.keys|
       }
  }

  /** On to the rest of a claim, which begins with the next block. */
  function Rest<T>(s: State<T>, first: nat, stop: nat, slot: nat): Pc
    requires s.keys != []
  {
    if first < stop then ReadValue(first, stop, (slot + 1) % |s.keys|) else Idle
  }

  /** set_many_empty of the indices read: whoever completes the block's count has to null its entry. */
  ghost function EmptyStep<T>(s: State<T>, t: Tid): State<T>
    requires s.bs > 0 && s.keys != [] && t in s.pc && s.pc[t].Read?
    requires s.pc[t].block < |s.done| && s.pc[t].first <= s.pc[t].next
  {
    var Read(i, j, slot, b, next) := s.pc[t];
    var count := s.done[b] + (next - i);
    s.(done := s.done[b := count], cleared := s.cleared + Range(i, next),
       pc := s.pc[t := if count == s.bs then NullValue(next, j, slot, i / s.bs) else Rest(s, next, j, slot)])
  }

  ghost function ConsumeStep<T>(s: State<T>, t: Tid): State<T>
    requires CanConsume(s, t)
  {
    match s.pc[t]
    case Idle => s
    case LoadTail(i, j) => s.(pc := s.pc[t := ReadKey(i, j, s.indexTail, s.at)])
    case ReadKey(i, j, slot, _) =>
      s.(pc := s.pc[t := ReadValue(i, j, LookupSlot(slot, s.keys[slot], i, s.bs, |s.keys|))])
    case ReadValue(i, j, slot) => s.(pc := s.pc[t := Read(i, j, slot, s.values[slot].value, i)])
    case Read(i, j, slot, b, next) =>
      if next < R.Stop(s.bs, i, j) then
        s.(taken := s.taken[next := s.cells[(b, next % s.bs)]], pc := s.pc[t := Read(i, j, slot, b, next + 1)])
      else
        EmptyStep(s, t)
    case NullValue(i, j, slot, k) =>
      s.(values := s.values[slot := None], live := s.live - {k}, pc := s.pc[t := Rest(s, i, j, slot)])
  }

  /** headIndex.fetch_add(count) */
  predicate CanClaimIndices<T>(s: State<T>, t: Tid, count: nat) {
    t in s.pc && s.pc[t].Idle? && 0 < count && s.head + count <= s.tail
  }

  function ClaimIndices<T>(s: State<T>, t: Tid, count: nat): State<T> {
    s.(head := s.head + count, pc := s.pc[t := LoadTail(s.head, s.head + count)])
  }

  ghost predicate Enabled<T>(s: State<T>, a: Action<T>) {
    match a
    case Begin(_) => s.bs > 0 && s.producer.Ready?
    case Produce(c) => CanProduce(s, c)
    case Claim(t, n) => CanClaimIndices(s, t, n)
    case Consume(t) => CanConsume(s, t)
  }

  ghost function Step<T>(s: State<T>, a: Action<T>): State<T>
    requires Enabled(s, a)
  {
    match a
    case Begin(batch) => BeginStep(s, batch)
    case Produce(c) => ProduceStep(s, c)
    case Claim(t, n) => ClaimIndices(s, t, n)
    case Consume(t) => ConsumeStep(s, t)
  }

  // ---------------------------------------------------------------- invariant

  /** Where the producer is. */
  predicate ProducerOk<T>(s: State<T>)
    requires s.bs > 0
  {
    match s.producer
    case Ready => s.end == Hi(s) && s.at == s.end - 1
    case Claiming(batch) => Hi(s) < Needed(s, batch) && s.end <= Needed(s, batch) && s.at == s.end - 1
    case PutTail(batch) => s.end < Needed(s, batch) && s.at == s.end - 1 && s.end < s.top
    case Requisition(batch) => s.end < Needed(s, batch) && s.at == s.end && s.end < s.top
    case PutValue(batch, b) =>
      && s.end < Needed(s, batch) && s.at == s.end && s.end < s.top
      && b < |s.done| && s.done[b] == 0 && b !in s.live.Values
    case Rewind(_) => s.at == s.end && s.end < s.top
    case ClearEntry(_) => s.at == s.end - 1 && s.end < s.top
    case UndoValue(_, j) => Hi(s) <= j < s.end && s.at == s.end - 1 - (j - Hi(s))
    case UndoTail(_, j) => Hi(s) <= j < s.end && s.at == s.end - 1 - (j - Hi(s))
    case Construct(batch, n) => s.end == Needed(s, batch) && s.at == s.end - 1 && n <= |batch|
  }

  /** Block k has been claimed by the enqueue under way, and not given up again. */
  predicate Claimed<T>(s: State<T>, k: nat)
    requires s.bs > 0
  {
    && Hi(s) <= k < s.end
    && match s.producer {
         case UndoValue(_, j) => j <= k
         case UndoTail(_, j) => j < k
         case _ => true
       }
  }

  predicate KeyOk<T>(s: State<T>, k: int) { 0 < |s.keys| && s.keys[k % |s.keys|] == k * s.bs }

  /** The keys of the last blocks, as many as there are entries. */
  ghost predicate KeysOk<T>(s: State<T>) { forall k :: s.top - |s.keys| <= k < s.top && 0 <= k ==> KeyOk(s, k) }

  predicate TailOk<T>(s: State<T>) { 0 < |s.keys| && s.indexTail == s.at % |s.keys| }

  ghost predicate Shape<T>(s: State<T>) {
    && s.bs > 1 && 0 < |s.keys| == |s.values| && TailOk(s) && KeysOk(s)
    && s.head <= s.tail && |s.items| == s.tail + (if s.producer.Construct? then s.producer.n else 0)
    && Hi(s) <= s.end <= s.top <= Hi(s) + |s.keys|
    && ProducerOk(s)
  }

  /** The entry of a live block, and its count. */
  ghost predicate LiveOk<T>(s: State<T>, k: nat)
    requires k in s.live
  {
    && 0 < |s.keys| == |s.values| && s.bs > 0
    && s.top - |s.keys| <= k < s.end && (k < Hi(s) || Claimed(s, k))
    && s.values[k % |s.keys|] == Some(s.live[k])
    && s.live[k] < |s.done| && s.done[s.live[k]] + |Left(s, k)| == s.bs
  }

  ghost predicate MustLive<T>(s: State<T>, k: nat)
    requires s.bs > 0
  {
    (k < Hi(s) && Left(s, k) != {}) || Claimed(s, k)
  }

  ghost predicate BlocksOk<T>(s: State<T>) {
    && s.bs > 0
    && (forall k :: k in s.live ==> LiveOk(s, k))
    && (forall j, k :: j in s.live && k in s.live && j != k ==> s.live[j] != s.live[k])
    && (forall k :: MustLive(s, k) ==> k in s.live)
  }

  ghost predicate CellOk<T>(s: State<T>, i: nat)
    requires i < |s.items|
  {
    && s.bs > 0 && i / s.bs in s.live
    && (s.live[i / s.bs], i % s.bs) in s.cells && s.cells[(s.live[i / s.bs], i % s.bs)] == s.items[i]
  }

  ghost predicate CellsOk<T>(s: State<T>) {
    && (forall i :: i in s.cleared ==> i < s.head)
    && (forall i :: 0 <= i < |s.items| && i !in s.cleared ==> CellOk(s, i))
  }

  /** What a consumer has read is what it will need. */
  ghost predicate PcOk<T>(s: State<T>, p: Pc)
    requires s.bs > 0 && s.keys != []
  {
    match p
    case Idle => true
    case LoadTail(i, j) => i < j <= s.head
    case ReadKey(i, j, slot, newest) => i < j <= s.head && i / s.bs <= newest < s.top && slot == newest % |s.keys|
    case ReadValue(i, j, slot) => i < j <= s.head && slot == i / s.bs % |s.keys|
    case Read(i, j, slot, b, next) =>
      && i < j <= s.head && slot == i / s.bs % |s.keys|
      && i / s.bs in s.live && b == s.live[i / s.bs] && i <= next <= R.Stop(s.bs, i, j)
    case NullValue(i, j, slot, k) =>
      && i <= j <= s.head && slot == k % |s.keys| && (i < j ==> i == (k + 1) * s.bs)
      && k in s.live && Left(s, k) == {}
  }

  predicate Holds(p: Pc, i: nat) { !p.Idle? && p.first <= i < p.stop }

  ghost predicate HeldOk<T>(s: State<T>, p: Pc) { forall i :: Holds(p, i) ==> i !in s.cleared }

  /** Claimed indices belong to one consumer, and one consumer nulls an entry. */
  predicate Apart(p: Pc, q: Pc) {
    && (p.Idle? || q.Idle? || p.stop <= q.first || q.stop <= p.first)
    && (p.NullValue? && q.NullValue? ==> p.k != q.k)
  }

  ghost predicate ThreadsOk<T>(s: State<T>) {
    && s.bs > 0 && s.keys != []
    && (forall t :: t in s.pc ==> PcOk(s, s.pc[t]) && HeldOk(s, s.pc[t]))
    && (forall t, u :: t in s.pc && u in s.pc && t != u ==> Apart(s.pc[t], s.pc[u]))
    && (forall i :: i in s.taken ==> i < |s.items| && s.taken[i] == s.items[i])
  }

  ghost predicate Inv<T>(s: State<T>) { Shape(s) && BlocksOk(s) && CellsOk(s) && ThreadsOk(s) }

  // ---------------------------------------------------------------- preservation by the producer

  /** The block of an enqueued element has been started. */
  lemma BelowHi(tail: nat, i: nat, bs: nat)
    requires bs > 1 && i < tail
    ensures i / bs < Started(tail, bs)
  {
    StartedBounds(tail, bs);
    BlockAbove(Started(tail, bs), i, bs);
  }

  /** No index of a block that has not been started is marked empty. */
  lemma NothingMarked<T>(s: State<T>, k: nat)
    requires Shape(s) && CellsOk(s) && Hi(s) <= k
    ensures |Left(s, k)| == s.bs
  {
    hide Started, KeysOk, TailOk, ProducerOk, Range, CellOk;
    StartedBounds(s.tail, s.bs);
    MulMonotone(Hi(s), k, s.bs);
    Unmarked(Base(k, s.bs), s.bs, s.cleared);
  }

  lemma Unmarked(lo: nat, n: nat, cleared: set<nat>)
    requires forall i :: i in cleared ==> i < lo
    ensures |Range(lo, lo + n) - cleared| == n
  {
    RangeSize(lo, n);
    assert Range(lo, lo + n) - cleared == Range(lo, lo + n);
  }

  /** The producer leaves the blocks alone that were started before. */
  ghost predicate Leaves<T>(s: State<T>, s': State<T>) {
    && s'.bs == s.bs > 0 && |s'.keys| == |s.keys|
    && s'.pc == s.pc && s'.cleared == s.cleared && s'.head == s.head && s'.taken == s.taken
    && s.top <= s'.top && s.items <= s'.items
    && (forall k :: k < Hi(s) && k in s.live ==> k in s'.live && s'.live[k] == s.live[k])
  }

  lemma ThreadKept<T>(s: State<T>, s': State<T>, t: Tid)
    requires Inv(s) && Leaves(s, s') && t in s.pc
    ensures s'.keys != [] && PcOk(s', s.pc[t]) && HeldOk(s', s.pc[t])
  {
    hide Started, KeysOk, TailOk, CellsOk, BlocksOk, Apart;
    assert PcOk(s, s.pc[t]) && HeldOk(s, s.pc[t]);
    match s.pc[t]
    case Read(i, _, _, _, _) => BelowHi(s.tail, i, s.bs);
    case NullValue(_, _, _, k) =>
      if Hi(s) <= k {
        NothingMarked(s, k);
      }
    case _ =>
  }

  lemma ProducerKeepsInv<T>(s: State<T>, s': State<T>)
    requires Inv(s) && Leaves(s, s') && Shape(s') && BlocksOk(s') && CellsOk(s')
    ensures Inv(s')
  {
    assert ThreadsOk(s') by {
      forall t | t in s'.pc ensures PcOk(s', s'.pc[t]) && HeldOk(s', s'.pc[t]) {
        ThreadKept(s, s', t);
      }
    }
  }

  /** The elements stay where they are when no block of theirs changes. */
  lemma CellsKept<T>(s: State<T>, s': State<T>)
    requires Shape(s) && CellsOk(s) && Leaves(s, s') && s'.items == s.items && s'.cells == s.cells
             && |s.items| == s.tail
    ensures CellsOk(s')
  {
    forall i | 0 <= i < |s'.items| && i !in s'.cleared ensures CellOk(s', i) {
      assert CellOk(s, i);
      BelowHi(s.tail, i, s.bs);
    }
  }

  /** The live blocks stay in order when neither they nor their entries and counts change. */
  lemma BlocksKept<T>(s: State<T>, s': State<T>)
    requires BlocksOk(s) && s'.bs == s.bs && s'.tail == s.tail && |s'.keys| == |s.keys|
    requires s'.values == s.values && s'.live == s.live && s'.cleared == s.cleared && |s'.done| == |s.done|
    requires forall k :: k in s.live ==> s.live[k] < |s.done| && s'.done[s.live[k]] == s.done[s.live[k]]
    requires forall k :: k in s.live ==> s'.top - |s.keys| <= k < s'.end && (k < Hi(s) || Claimed(s', k))
    requires forall k :: Claimed(s', k) ==> Claimed(s, k)
    ensures BlocksOk(s')
  {
    hide Started, Claimed, MustLive;
    forall k | k in s'.live ensures LiveOk(s', k) {
      assert LiveOk(s, k) && Left(s', k) == Left(s, k);
    }
    forall k | MustLive(s', k) ensures k in s'.live {
      MustBefore(s, s', k);
    }
  }

  lemma MustBefore<T>(s: State<T>, s': State<T>, k: nat)
    requires s.bs > 0 && s'.bs == s.bs && s'.tail == s.tail && s'.cleared == s.cleared
    requires MustLive(s', k) && (Claimed(s', k) ==> Claimed(s, k))
    ensures MustLive(s, k)
  {
    hide Started, Claimed;
    assert Left(s', k) == Left(s, k);
  }

  /** Nothing changes that matters to the blocks. */
  lemma BlocksUntouched<T>(s: State<T>, s': State<T>)
    requires BlocksOk(s) && s'.bs == s.bs && s'.tail == s.tail && |s'.keys| == |s.keys| && s'.top == s.top
             && s'.end == s.end
    requires s'.values == s.values && s'.live == s.live && s'.cleared == s.cleared && s'.done == s.done
    requires !s.producer.UndoValue? && !s.producer.UndoTail? && !s'.producer.UndoValue? && !s'.producer.UndoTail?
    ensures BlocksOk(s')
  {
    hide Started, LiveOk, MustLive;
    forall k | k in s.live
      ensures s.live[k] < |s.done| && s'.top - |s.keys| <= k < s'.end && (k < Hi(s) || Claimed(s', k))
    {
      LiveBounds(s, k);
    }
    BlocksKept(s, s');
  }

  /** A live block stays in order when another entry changes. */
  lemma OtherLiveKept<T>(s: State<T>, s': State<T>, x: nat, v: Option<Block>, k: nat)
    requires k in s.live && LiveOk(s, k) && k in s'.live && s'.live[k] == s.live[k] && s'.bs == s.bs
             && s'.tail == s.tail
    requires |s'.keys| == |s.keys| && s'.values == s.values[x % |s.keys| := v] && x != k && x < k + |s.keys|
             && k < x + |s.keys|
    requires |s'.done| == |s.done| && s'.done[s.live[k]] == s.done[s.live[k]] && s'.cleared == s.cleared
    requires s'.top - |s.keys| <= k < s'.end && (k < Hi(s') || Claimed(s', k))
    ensures LiveOk(s', k)
  {
    hide Started, Claimed;
    assert Left(s', k) == Left(s, k);
    if k < x {
      ModDistinct(k, x, |s.keys|);
    } else {
      ModDistinct(x, k, |s.keys|);
    }
  }

  /** What must be live is, when nothing else must be than before. */
  lemma MustKept<T>(s: State<T>, s': State<T>, x: nat)
    requires BlocksOk(s) && s'.bs == s.bs && s'.tail == s.tail && s'.cleared == s.cleared
    requires forall k :: Claimed(s', k) && k != x ==> Claimed(s, k)
    requires forall k :: k in s.live && MustLive(s', k) ==> k in s'.live
    requires MustLive(s', x) ==> x in s'.live
    ensures forall k :: MustLive(s', k) ==> k in s'.live
  {
    hide Started, Claimed, LiveOk;
    forall k | MustLive(s', k) ensures k in s'.live {
      assert Left(s', k) == Left(s, k);
      assert k != x ==> MustLive(s, k);
    }
  }

  lemma KeysKept<T>(s: State<T>, s': State<T>)
    requires KeysOk(s) && s'.keys == s.keys && s'.bs == s.bs && s'.top == s.top
    ensures KeysOk(s')
  {
    forall k | s'.top - |s'.keys| <= k < s'.top && 0 <= k ensures KeyOk(s', k) {
      assert KeyOk(s, k);
    }
  }

  /** A step that changes nothing but where the producer and the index tail are. */
  lemma MoveKeepsInv<T>(s: State<T>, s': State<T>)
    requires Inv(s) && !s.producer.Construct?
             && s' == s.(producer := s'.producer, indexTail := s'.indexTail, at := s'.at)
    requires TailOk(s') && ProducerOk(s') && (s'.producer.Construct? ==> s'.producer.n == 0)
    requires forall k :: Claimed(s', k) <==> Claimed(s, k)
    ensures Inv(s')
  {
    hide PcOk, HeldOk, Started, KeysOk, TailOk, CellsOk, ThreadsOk;
    KeysKept(s, s');
    forall k | k in s.live
      ensures s.live[k] < |s.done| && s.top - |s.keys| <= k < s.end && (k < Hi(s) || Claimed(s', k))
    {
      assert LiveOk(s, k);
    }
    BlocksKept(s, s');
    CellsKept(s, s');
    ProducerKeepsInv(s, s');
  }

  lemma TailForth<T>(s: State<T>)
    requires TailOk(s)
    ensures NextSlot(s) == (s.at + 1) % |s.keys|
  {
    ModShift(s.at, 1, |s.keys|);
  }

  lemma TailBack<T>(s: State<T>)
    requires TailOk(s)
    ensures TailOk(Rewound(s))
  {
    ModShift(s.at, -1, |s.keys|);
  }

  lemma SameTail<T>(s: State<T>, s': State<T>)
    requires TailOk(s) && s'.indexTail == s.indexTail && s'.at == s.at && |s'.keys| == |s.keys|
    ensures TailOk(s')
  {
  }

  lemma BeginKeepsInv<T>(s: State<T>, batch: seq<T>)
    requires Inv(s) && s.producer.Ready?
    ensures Inv(BeginStep(s, batch))
  {
    hide BlocksOk, CellsOk, ThreadsOk, KeysOk, TailOk, Started;
    StartedGrows(s.tail, |batch|, s.bs);
    SameTail(s, BeginStep(s, batch));
    MoveKeepsInv(s, BeginStep(s, batch));
  }

  /** Nothing has been constructed yet. */
  lemma BeginConstructKeepsInv<T>(s: State<T>, batch: seq<T>)
    requires Inv(s) && s.producer.Claiming? && s.end == Needed(s, batch)
    ensures Inv(s.(producer := Construct(batch, 0)))
  {
    hide BlocksOk, CellsOk, ThreadsOk, KeysOk, TailOk, Started;
    var s' := s.(producer := Construct(batch, 0));
    SameTail(s, s');
    MoveKeepsInv(s, s');
  }

  /** The entry that the next block's key goes to has no live block. */
  lemma NextIsFree<T>(s: State<T>)
    requires Inv(s) && s.producer.Claiming? && CanInsert(s)
    ensures s.top == s.end ==> s.top - |s.keys| < Hi(s) && (forall k :: k in s.live ==> s.top - |s.keys| < k)
  {
    hide Started, CellsOk, ThreadsOk, KeyOk, TailOk;
    if s.top == s.end && s.top >= |s.keys| {
      var k: nat := s.top - |s.keys|;
      NotLive(s, k);
      assert !MustLive(s, k);
    }
    forall k | k in s.live ensures s.top - |s.keys| <= k {
      assert LiveOk(s, k);
    }
  }

  lemma NotLive<T>(s: State<T>, k: nat)
    requires Inv(s) && s.producer.Claiming? && CanInsert(s) && k + |s.keys| == s.top == s.end
    ensures k !in s.live
  {
    hide Started, CellsOk, ThreadsOk;
    TailForth(s);
    SlotBefore(s.end, |s.keys|);
    if k in s.live {
      assert LiveOk(s, k) && KeyOk(s, k);
      KeyValid(k, s.bs);
    }
  }

  lemma SlotBefore(end: nat, size: nat)
    requires 0 < size <= end
    ensures (end - size) % size == end % size
  {
    ModUnique(end - size, size, end / size - 1, end % size);
  }

  /** A block base is never the invalid one. */
  lemma KeyValid(k: nat, bs: nat)
    requires bs > 1
    ensures k * bs != INVALID_BLOCK_BASE
  {
    assert k >= 1 ==> k * bs >= bs;
  }

  lemma InsertKeepsInv<T>(s: State<T>, c: Choice)
    requires Inv(s) && CanProduce(s, c) && s.producer.Claiming? && s.end != Needed(s, s.producer.batch) && c.Go?
    ensures Inv(ProduceStep(s, c))
  {
    hide PcOk, HeldOk, Started, KeysOk, TailOk, CellsOk, ThreadsOk;
    var s' := ProduceStep(s, c);
    NextIsFree(s);
    InsertedKeys(s, s');
    SameTail(s, s');
    forall k | k in s.live
      ensures s.live[k] < |s.done| && s'.top - |s.keys| <= k < s.end && (k < Hi(s) || Claimed(s', k))
    {
      assert LiveOk(s, k);
    }
    BlocksKept(s, s');
    CellsKept(s, s');
    ProducerKeepsInv(s, s');
  }

  /** The key of block `end` overwrites none of the others. */
  lemma InsertedKeys<T>(s: State<T>, s': State<T>)
    requires TailOk(s) && KeysOk(s) && s.at == s.end - 1 && s.end <= s.top
             && s'.top == (if s.top <= s.end then s.end + 1 else s.top)
    requires s.top - |s.keys| <= s.end && s'.keys == s.keys[NextSlot(s) := s.end * s.bs] && s'.bs == s.bs
    ensures KeysOk(s')
  {
    TailForth(s);
    forall k: nat | s'.top - |s.keys| <= k < s'.top ensures KeyOk(s', k) {
      if k != s.end {
        assert KeyOk(s, k);
        if k < s.end {
          ModDistinct(k, s.end, |s.keys|);
        } else {
          ModDistinct(s.end, k, |s.keys|);
        }
      }
    }
  }

  lemma PutTailKeepsInv<T>(s: State<T>, c: Choice)
    requires Inv(s) && CanProduce(s, c) && s.producer.PutTail?
    ensures Inv(ProduceStep(s, c))
  {
    hide BlocksOk, CellsOk, ThreadsOk, KeysOk, Started;
    TailForth(s);
    MoveKeepsInv(s, ProduceStep(s, c));
  }

  lemma RequisitionKeepsInv<T>(s: State<T>, c: Choice)
    requires Inv(s) && CanProduce(s, c) && s.producer.Requisition?
    ensures Inv(ProduceStep(s, c))
  {
    hide PcOk, HeldOk, Started, KeysOk, TailOk, CellsOk, ThreadsOk;
    var s' := ProduceStep(s, c);
    SameTail(s, s');
    KeysKept(s, s');
    if c.Fail? {
      MoveKeepsInv(s, s');
    } else {
      forall k | k in s.live
        ensures s.live[k] < |s.done| && s'.done[s.live[k]] == s.done[s.live[k]]
        ensures s.top - |s.keys| <= k < s.end && (k < Hi(s) || Claimed(s', k))
      {
        assert LiveOk(s, k) && s.live[k] in s.live.Values;
      }
      BlocksKept(s, s');
      CellsKept(s, s');
      ProducerKeepsInv(s, s');
    }
  }

  /** Entering the block keeps the others: they are at other entries, and other blocks. */
  lemma PutValueKeepsInv<T>(s: State<T>, c: Choice)
    requires Inv(s) && CanProduce(s, c) && s.producer.PutValue?
    ensures Inv(ProduceStep(s, c))
  {
    hide PcOk, HeldOk, Started, KeysOk, TailOk, CellsOk, ThreadsOk, BlocksOk;
    var s' := ProduceStep(s, c);
    SameTail(s, s');
    KeysKept(s, s');
    PutBlocks(s, c);
    CellsKept(s, s');
    ProducerKeepsInv(s, s');
  }

  lemma PutBlocks<T>(s: State<T>, c: Choice)
    requires Inv(s) && CanProduce(s, c) && s.producer.PutValue?
    ensures BlocksOk(ProduceStep(s, c))
    ensures forall k :: k < Hi(s) && k in s.live ==> k != s.end
  {
    hide Started, KeysOk, CellsOk, ThreadsOk, MustLive, LiveOk;
    var s' := ProduceStep(s, c);
    var b := s.producer.block;
    EndNotLive(s);
    forall k | k in s.live ensures LiveOk(s', k) && s.live[k] != b {
      assert s.live[k] in s.live.Values;
      LiveBounds(s, k);
      OtherLiveKept(s, s', s.end, Some(b), k);
    }
    NewLive(s, c);
    MustKept(s, s', s.end);
  }

  lemma LiveBounds<T>(s: State<T>, k: nat)
    requires k in s.live && LiveOk(s, k)
    ensures s.bs > 0 && s.top - |s.keys| <= k < s.end && (k < Hi(s) || Claimed(s, k)) && s.live[k] < |s.done|
  {
    hide Started, Claimed;
  }

  lemma EndNotLive<T>(s: State<T>)
    requires BlocksOk(s)
    ensures s.end !in s.live
  {
    assert s.end in s.live ==> LiveOk(s, s.end);
  }

  lemma NewLive<T>(s: State<T>, c: Choice)
    requires Inv(s) && CanProduce(s, c) && s.producer.PutValue?
    ensures s.end in ProduceStep(s, c).live && LiveOk(ProduceStep(s, c), s.end)
  {
    hide Started, KeysOk, CellsOk, ThreadsOk, MustLive, BlocksOk;
    NothingMarked(s, s.end);
    assert Left(ProduceStep(s, c), s.end) == Left(s, s.end);
  }

  lemma RewindKeepsInv<T>(s: State<T>, c: Choice)
    requires Inv(s) && CanProduce(s, c) && s.producer.Rewind?
    ensures Inv(ProduceStep(s, c))
  {
    hide BlocksOk, CellsOk, ThreadsOk, KeysOk, TailOk, Started;
    TailBack(s);
    SameTail(Rewound(s), ProduceStep(s, c));
    MoveKeepsInv(s, ProduceStep(s, c));
  }

  lemma StartUndoKeepsInv<T>(s: State<T>, batch: seq<T>)
    requires Inv(s) && (s.producer.Claiming? || s.producer.ClearEntry?)
    ensures Inv(StartUndo(s, batch))
  {
    hide BlocksOk, CellsOk, ThreadsOk, KeysOk, TailOk, Started;
    SameTail(s, StartUndo(s, batch));
    MoveKeepsInv(s, StartUndo(s, batch));
  }

  /** The entry taken for a block that could not be had holds no live block. */
  lemma ClearEntryKeepsInv<T>(s: State<T>, c: Choice)
    requires Inv(s) && CanProduce(s, c) && s.producer.ClearEntry?
    ensures Inv(ProduceStep(s, c))
  {
    hide PcOk, HeldOk, Started, KeysOk, TailOk, CellsOk, ThreadsOk, BlocksOk;
    var s1 := s.(values := s.values[NextSlot(s) := None]);
    TailForth(s);
    ClearedBlocks(s, s1);
    SameTail(s, s1);
    KeysKept(s, s1);
    CellsKept(s, s1);
    ProducerKeepsInv(s, s1);
    StartUndoKeepsInv(s1, s.producer.batch);
  }

  lemma ClearedBlocks<T>(s: State<T>, s1: State<T>)
    requires Inv(s) && s.producer.ClearEntry?
    requires s1 == s.(values := s.values[s.end % |s.keys| := None])
    ensures BlocksOk(s1)
  {
    hide Started, KeysOk, TailOk, CellsOk, ThreadsOk, MustLive, LiveOk;
    EndNotLive(s);
    forall k | k in s1.live ensures LiveOk(s1, k) {
      LiveBounds(s, k);
      OtherLiveKept(s, s1, s.end, None, k);
    }
    NotClaimedYet(s1);
    MustKept(s, s1, s.end);
  }

  lemma NotClaimedYet<T>(s: State<T>)
    requires s.bs > 0 && Hi(s) <= s.end
    ensures !MustLive(s, s.end)
  {
    hide Started;
  }

  /** The producer's own lookup finds block j's entry although the tail has already been rewound past later blocks. */
  lemma UndoSlot<T>(s: State<T>)
    requires Inv(s) && s.producer.UndoValue?
    ensures var j := s.producer.j;
            s.indexTail < |s.keys|
              && LookupSlot(s.indexTail, s.keys[s.indexTail], j * s.bs, s.bs, |s.keys|) == j % |s.keys|
  {
    hide BlocksOk, CellsOk, ThreadsOk, Started;
    var j := s.producer.j;
    assert KeyOk(s, s.at);
    LookupFinds(s.indexTail, s.at, j * s.bs, s.bs, |s.keys|);
    MulDiv(j, s.bs);
  }

  lemma UndoValueKeepsInv<T>(s: State<T>, c: Choice)
    requires Inv(s) && CanProduce(s, c) && s.producer.UndoValue?
    ensures Inv(ProduceStep(s, c))
  {
    hide PcOk, HeldOk, Started, KeysOk, TailOk, CellsOk, ThreadsOk, BlocksOk, LookupSlot;
    var s', j := ProduceStep(s, c), s.producer.j;
    UndoSlot(s);
    UndoneBlocks(s, s');
    SameTail(s, s');
    KeysKept(s, s');
    CellsKept(s, s');
    ProducerKeepsInv(s, s');
  }

  lemma UndoneBlocks<T>(s: State<T>, s': State<T>)
    requires Inv(s) && s.producer.UndoValue?
    requires var j := s.producer.j;
             s' == s.(values := s.values[j % |s.keys| := None], live := s.live - {j},
                      producer := UndoTail(s.producer.batch, j))
    ensures BlocksOk(s')
  {
    hide Started, KeysOk, TailOk, CellsOk, ThreadsOk, MustLive, LiveOk;
    var j := s.producer.j;
    forall k | k in s'.live ensures LiveOk(s', k) {
      LiveBounds(s, k);
      OtherLiveKept(s, s', j, None, k);
    }
    NotClaimedAnyMore(s, s');
    MustKept(s, s', j);
  }

  lemma NotClaimedAnyMore<T>(s: State<T>, s': State<T>)
    requires s.bs > 0 && s.producer.UndoValue? && Hi(s) <= s.producer.j
    requires s' == s.(values := s'.values, live := s'.live, producer := UndoTail(s.producer.batch, s.producer.j))
    ensures !MustLive(s', s.producer.j)
  {
    hide Started;
  }

  lemma UndoTailKeepsInv<T>(s: State<T>, c: Choice)
    requires Inv(s) && CanProduce(s, c) && s.producer.UndoTail?
    ensures Inv(ProduceStep(s, c))
  {
    hide PcOk, HeldOk, Started, KeysOk, TailOk, CellsOk, ThreadsOk, BlocksOk;
    var s' := ProduceStep(s, c);
    TailBack(s);
    SameTail(Rewound(s), s');
    KeysKept(s, s');
    RewoundBlocks(s, c);
    CellsKept(s, s');
    ProducerKeepsInv(s, s');
  }

  lemma RewoundBlocks<T>(s: State<T>, c: Choice)
    requires Inv(s) && CanProduce(s, c) && s.producer.UndoTail?
    ensures BlocksOk(ProduceStep(s, c))
  {
    hide Started, KeysOk, TailOk, CellsOk, ThreadsOk, LiveOk, MustLive;
    var s' := ProduceStep(s, c);
    forall k | k in s.live
      ensures s.live[k] < |s.done| && s'.top - |s.keys| <= k < s'.end && (k < Hi(s) || Claimed(s', k))
    {
      LiveBounds(s, k);
    }
    BlocksKept(s, s');
  }

  /** Two indices of live blocks never share a cell. */
  lemma CellsDiffer<T>(s: State<T>, i: nat, j: nat)
    requires BlocksOk(s) && i / s.bs in s.live && j / s.bs in s.live && i != j
    ensures (s.live[i / s.bs], i % s.bs) != (s.live[j / s.bs], j % s.bs)
  {
    DivBounds(i, s.bs);
    DivBounds(j, s.bs);
  }

  lemma ConstructKeepsInv<T>(s: State<T>, c: Choice)
    requires Inv(s) && CanProduce(s, c) && s.producer.Construct? && s.producer.n < |s.producer.batch|
    ensures Inv(ProduceStep(s, c))
  {
    hide PcOk, HeldOk, Started, KeysOk, TailOk, ThreadsOk, CellsOk, BlocksOk;
    var s' := ProduceStep(s, c);
    SameTail(s, s');
    KeysKept(s, s');
    BlocksUntouched(s, s');
    ConstructCells(s, c);
    ProducerKeepsInv(s, s');
  }

  lemma ConstructCells<T>(s: State<T>, c: Choice)
    requires Inv(s) && CanProduce(s, c) && s.producer.Construct? && s.producer.n < |s.producer.batch|
    ensures CellsOk(ProduceStep(s, c))
  {
    hide Started, KeysOk, TailOk, ThreadsOk, BlocksOk;
    var s', x := ProduceStep(s, c), s.tail + s.producer.n;
    forall i | 0 <= i < |s'.items| && i !in s'.cleared ensures CellOk(s', i) {
      if i < |s.items| {
        assert CellOk(s, i);
        CellsDiffer(s, i, x);
      }
    }
  }

  lemma StoreTailKeepsInv<T>(s: State<T>, c: Choice)
    requires Inv(s) && CanProduce(s, c) && s.producer.Construct? && s.producer.n == |s.producer.batch|
    ensures Inv(ProduceStep(s, c))
  {
    hide PcOk, HeldOk, Started, KeysOk, TailOk, ThreadsOk, BlocksOk;
    var s' := ProduceStep(s, c);
    SameTail(s, s');
    KeysKept(s, s');
    StartedGrows(s.tail, |s.producer.batch|, s.bs);
    assert Hi(s') == s.end;
    StoredTailBlocks(s, c);
    forall i | 0 <= i < |s'.items| && i !in s'.cleared ensures CellOk(s', i) {
      assert CellOk(s, i);
    }
    ProducerKeepsInv(s, s');
  }

  lemma StoredLiveOk<T>(s: State<T>, s': State<T>, k: nat)
    requires k in s.live && LiveOk(s, k) && s' == s.(tail := s'.tail, producer := s'.producer) && Hi(s') == s.end
    ensures LiveOk(s', k)
  {
    assert Left(s', k) == Left(s, k);
  }

  /** The claimed blocks are started now. */
  lemma StoredTailBlocks<T>(s: State<T>, c: Choice)
    requires Inv(s) && CanProduce(s, c) && s.producer.Construct? && s.producer.n == |s.producer.batch|
    ensures BlocksOk(ProduceStep(s, c))
  {
    hide Started, KeysOk, TailOk, ThreadsOk, CellsOk, LiveOk;
    var s' := ProduceStep(s, c);
    assert Hi(s') == s.end;
    forall k | k in s'.live ensures LiveOk(s', k) {
      assert LiveOk(s, k);
      StoredLiveOk(s, s', k);
    }
    forall k | MustLive(s', k) ensures k in s'.live {
      assert Left(s', k) == Left(s, k) && MustLive(s, k);
    }
  }

  lemma ProduceKeepsInv<T>(s: State<T>, c: Choice)
    requires Inv(s) && CanProduce(s, c)
    ensures Inv(ProduceStep(s, c))
  {
    hide BlocksOk, CellsOk, ThreadsOk, KeysOk, TailOk, Started;
    match s.producer
    case Claiming(batch) =>
      if s.end == Needed(s, batch) {
        BeginConstructKeepsInv(s, batch);
      } else if c.Fail? {
        StartUndoKeepsInv(s, batch);
      } else {
        InsertKeepsInv(s, c);
      }
    case PutTail(_) => PutTailKeepsInv(s, c);
    case Requisition(_) => RequisitionKeepsInv(s, c);
    case PutValue(_, _) => PutValueKeepsInv(s, c);
    case Rewind(_) => RewindKeepsInv(s, c);
    case ClearEntry(_) => ClearEntryKeepsInv(s, c);
    case UndoValue(_, _) => UndoValueKeepsInv(s, c);
    case UndoTail(_, _) => UndoTailKeepsInv(s, c);
    case Construct(batch, n) => if n < |batch| { ConstructKeepsInv(s, c); } else { StoreTailKeepsInv(s, c); }
  }

  // ---------------------------------------------------------------- preservation by the consumers

  /** A step of consumers that changes no block, count or entry. */
  lemma ConsumerKeepsInv<T>(s: State<T>, s': State<T>)
    requires Inv(s) && ThreadsOk(s')
    requires s' == s.(pc := s'.pc, taken := s'.taken, head := s'.head) && s.head <= s'.head <= s.tail
    ensures Inv(s')
  {
    hide Started, KeysOk, TailOk, ThreadsOk, LiveOk, MustLive;
    KeysKept(s, s');
    SameTail(s, s');
    SameProducer(s, s');
    forall k | k in s.live
      ensures s.live[k] < |s.done| && s'.top - |s.keys| <= k < s'.end && (k < Hi(s) || Claimed(s', k))
    {
      LiveBounds(s, k);
    }
    BlocksKept(s, s');
    forall i | 0 <= i < |s'.items| && i !in s'.cleared ensures CellOk(s', i) {
      assert CellOk(s, i);
    }
  }

  lemma SameProducer<T>(s: State<T>, s': State<T>)
    requires s.bs > 0 && ProducerOk(s) && s'.bs == s.bs && s'.producer == s.producer && s'.tail == s.tail
             && s'.end == s.end
    requires s'.at == s.at && s'.top == s.top && |s'.done| == |s.done| && s'.live.Values <= s.live.Values
    requires s.producer.PutValue? ==>
               s.producer.block < |s.done| && s'.done[s.producer.block] == s.done[s.producer.block]
    ensures ProducerOk(s')
    ensures forall k :: Claimed(s', k) <==> Claimed(s, k)
  {
    hide Started;
  }

  /** A step of t that keeps its claim. */
  lemma ThreadMoves<T>(s: State<T>, s': State<T>, t: Tid, p: Pc)
    requires Inv(s) && t in s.pc && s' == s.(pc := s.pc[t := p], taken := s'.taken)
    requires !s.pc[t].Idle? && !p.Idle? && !p.NullValue? && p.first == s.pc[t].first && p.stop == s.pc[t].stop
             && PcOk(s', p)
    requires forall i :: i in s'.taken ==> i < |s'.items| && s'.taken[i] == s'.items[i]
    ensures Inv(s')
  {
    hide Started, KeysOk, TailOk, BlocksOk, CellsOk;
    forall u | u in s'.pc ensures PcOk(s', s'.pc[u]) && HeldOk(s', s'.pc[u]) {
      assert PcOk(s, s.pc[u]) && HeldOk(s, s.pc[u]);
      if u == t {
        forall i | Holds(p, i) ensures i !in s'.cleared {
          assert Holds(s.pc[t], i);
        }
      } else {
        SamePcOk(s, s', s.pc[u]);
      }
    }
    forall u, v | u in s'.pc && v in s'.pc && u != v ensures Apart(s'.pc[u], s'.pc[v]) {
      assert Apart(s.pc[u], s.pc[v]);
    }
    ConsumerKeepsInv(s, s');
  }

  lemma SamePcOk<T>(s: State<T>, s': State<T>, p: Pc)
    requires s.bs > 0 && s.keys != [] && PcOk(s, p)
    requires s'.bs == s.bs && |s'.keys| == |s.keys| && s'.live == s.live && s'.cleared == s.cleared && s'.top == s.top
    requires s.head <= s'.head
    ensures PcOk(s', p)
  {
    assert p.NullValue? ==> Left(s', p.k) == Left(s, p.k);
  }

  /** The block of a claimed index is live. */
  lemma IndexLive<T>(s: State<T>, i: nat)
    requires Inv(s) && i < s.head && i !in s.cleared
    ensures s.bs > 0 && var k := i / s.bs; k < Hi(s) && k in s.live && LiveOk(s, k) && i in Left(s, k)
  {
    hide Started, KeysOk, TailOk, ThreadsOk, CellsOk, LiveOk, Claimed;
    var k := i / s.bs;
    BelowHi(s.tail, i, s.bs);
    DivBounds(i, s.bs);
    InOwnBlock(i, k, s.bs);
    assert i in Left(s, k) && MustLive(s, k);
  }

  lemma InOwnBlock(i: nat, k: nat, bs: nat)
    requires bs > 0 && k * bs <= i < (k + 1) * bs
    ensures i in Range(Base(k, bs), Base(k, bs) + bs)
  {
    assert (k + 1) * bs == k * bs + bs;
    assert Between(Base(k, bs), i, Base(k, bs) + bs);
  }

  lemma HeldLive<T>(s: State<T>, t: Tid)
    requires Inv(s) && t in s.pc && !s.pc[t].Idle? && s.pc[t].first < s.pc[t].stop
    ensures var k := s.pc[t].first / s.bs;
            k < Hi(s) && k in s.live && LiveOk(s, k) && s.pc[t].first in Left(s, k) && PcOk(s, s.pc[t]) && s.keys != []
  {
    hide Started, KeysOk, TailOk, BlocksOk, CellsOk, LiveOk;
    assert PcOk(s, s.pc[t]) && HeldOk(s, s.pc[t]) && Holds(s.pc[t], s.pc[t].first);
    IndexLive(s, s.pc[t].first);
  }

  /** The index tail is never behind the last block started, nor at a block whose key has not been stored. */
  lemma TailBounds<T>(s: State<T>)
    requires Shape(s)
    ensures Hi(s) - 1 <= s.at < s.top
  {
    hide Started, KeysOk, TailOk;
  }

  lemma LoadTailKeepsInv<T>(s: State<T>, t: Tid)
    requires Inv(s) && CanConsume(s, t) && s.pc[t].LoadTail?
    ensures Inv(ConsumeStep(s, t))
  {
    hide Started, KeysOk, BlocksOk, CellsOk, LiveOk;
    var s' := ConsumeStep(s, t);
    assert PcOk(s, s.pc[t]);
    HeldLive(s, t);
    TailBounds(s);
    ThreadMoves(s, s', t, s'.pc[t]);
  }

  lemma ReadKeyKeepsInv<T>(s: State<T>, t: Tid)
    requires Inv(s) && CanConsume(s, t) && s.pc[t].ReadKey?
    ensures Inv(ConsumeStep(s, t))
  {
    hide Started, TailOk, BlocksOk, CellsOk, LiveOk, LookupSlot;
    var s' := ConsumeStep(s, t);
    var ReadKey(i, j, slot, newest) := s.pc[t];
    assert PcOk(s, s.pc[t]);
    HeldLive(s, t);
    LiveBounds(s, i / s.bs);
    assert KeyOk(s, newest);
    LookupFinds(slot, newest, i, s.bs, |s.keys|);
    ThreadMoves(s, s', t, s'.pc[t]);
  }

  lemma ReadValueKeepsInv<T>(s: State<T>, t: Tid)
    requires Inv(s) && CanConsume(s, t) && s.pc[t].ReadValue?
    ensures Inv(ConsumeStep(s, t))
  {
    hide Started, KeysOk, TailOk, BlocksOk, CellsOk, Left;
    var s' := ConsumeStep(s, t);
    assert PcOk(s, s.pc[t]);
    HeldLive(s, t);
    DivBounds(s.pc[t].first, s.bs);
    ThreadMoves(s, s', t, s'.pc[t]);
  }

  /** What a consumer reads is the element with its index. */
  lemma ReadsElement<T>(s: State<T>, t: Tid)
    requires Inv(s) && t in s.pc && s.pc[t].Read? && s.pc[t].next < R.Stop(s.bs, s.pc[t].first, s.pc[t].stop)
    ensures var Read(i, j, slot, b, next) := s.pc[t];
            next < |s.items| && (b, next % s.bs) in s.cells && s.cells[(b, next % s.bs)] == s.items[next]
  {
    hide Started, KeysOk, TailOk, BlocksOk, Apart;
    var Read(i, j, slot, b, next) := s.pc[t];
    assert PcOk(s, s.pc[t]) && HeldOk(s, s.pc[t]);
    R.SameBlock(s.bs, i, j, next);
    assert Holds(s.pc[t], next);
    assert CellOk(s, next);
  }

  lemma ReadKeepsInv<T>(s: State<T>, t: Tid)
    requires Inv(s) && CanConsume(s, t) && s.pc[t].Read? && s.pc[t].next < R.Stop(s.bs, s.pc[t].first, s.pc[t].stop)
    ensures Inv(ConsumeStep(s, t))
  {
    hide Started, KeysOk, TailOk, BlocksOk, CellsOk;
    var s' := ConsumeStep(s, t);
    ReadsElement(s, t);
    assert PcOk(s, s.pc[t]);
    ThreadMoves(s, s', t, s'.pc[t]);
  }

  ghost predicate Emptying<T>(s: State<T>, t: Tid) {
    && CanConsume(s, t) && s.pc[t].Read? && s.pc[t].next >= R.Stop(s.bs, s.pc[t].first, s.pc[t].stop)
  }

  /** A consumer that marks indices empty has read all of its claim in that block, or up to its end. */
  lemma EmptyingRange<T>(s: State<T>, t: Tid)
    requires Inv(s) && Emptying(s, t)
    ensures var Read(i, j, slot, b, next) := s.pc[t];
            var k := i / s.bs;
            && Base(k, s.bs) <= i < next <= Base(k, s.bs) + s.bs && next <= j
            && (next < j ==> next == Base(k, s.bs) + s.bs)
            && (forall n :: i <= n < next ==> n !in s.cleared)
            && k < Hi(s) && k in s.live && LiveOk(s, k) && b == s.live[k] && slot == k % |s.keys| && j <= s.head
            && i in Left(s, k)
  {
    hide Started, KeysOk, TailOk, BlocksOk, CellsOk, LiveOk, Apart;
    HeldLive(s, t);
    var Read(i, j, slot, b, next) := s.pc[t];
    var k := i / s.bs;
    DivBounds(i, s.bs);
    NextMultiple(k, k + 1, s.bs);
    assert HeldOk(s, s.pc[t]);
    forall n | i <= n < next ensures n !in s.cleared {
      assert Holds(s.pc[t], n);
    }
  }

  /** The count of live block k goes up by as much as its indices not marked empty go down. */
  lemma EmptyLive<T>(s: State<T>, t: Tid, k: nat)
    requires Inv(s) && Emptying(s, t) && k in s.live
    ensures LiveOk(EmptyStep(s, t), k)
  {
    hide Started, KeysOk, TailOk, CellsOk, ThreadsOk, Claimed, MustLive, R.Stop, Range, LiveOk;
    var Read(i, j, slot, b, next) := s.pc[t];
    var k0 := i / s.bs;
    EmptyingRange(s, t);
    assert LiveOk(s, k);
    R.OtherBlock(k, k0, s.bs);
    R.LeftAfter(Base(k, s.bs), Base(k, s.bs) + s.bs, s.cleared, i, next);
    CountedOn(s, EmptyStep(s, t), i, next, k0, k);
  }

  /** The blocks' counts after the indices i, ... next - 1 of block k0 have been marked empty. */
  lemma CountedOn<T>(s: State<T>, s': State<T>, i: nat, next: nat, k0: nat, k: nat)
    requires s.bs > 0 && k in s.live && LiveOk(s, k) && k0 in s.live && s.live[k0] < |s.done| && i <= next
    requires k != k0 ==> s.live[k] != s.live[k0]
    requires s' == s.(done := s.done[s.live[k0] := s.done[s.live[k0]] + (next - i)],
                      cleared := s.cleared + Range(i, next), pc := s'.pc)
    requires if k == k0 then |Left(s', k)| == |Left(s, k)| - (next - i) else Left(s', k) == Left(s, k)
    ensures LiveOk(s', k)
  {
    hide Started, Claimed, Range, Left;
    ClaimedAlike(s, s', k);
  }

  lemma ClaimedAlike<T>(s: State<T>, s': State<T>, k: nat)
    requires s.bs > 0 && s'.bs == s.bs && s'.tail == s.tail && s'.end == s.end && s'.producer == s.producer
    ensures Claimed(s', k) <==> Claimed(s, k)
  {
  }

  lemma EmptyBlocks<T>(s: State<T>, t: Tid)
    requires Inv(s) && Emptying(s, t)
    ensures BlocksOk(EmptyStep(s, t))
  {
    hide Started, KeysOk, TailOk, CellsOk, ThreadsOk, Claimed, LiveOk, R.Stop, Range;
    var s' := EmptyStep(s, t);
    forall k | k in s'.live ensures LiveOk(s', k) {
      EmptyLive(s, t, k);
    }
    forall k | MustLive(s', k) ensures k in s'.live {
      ClaimedAlike(s, s', k);
      assert Left(s', k) <= Left(s, k);
      assert MustLive(s, k);
    }
  }

  /** If the step completes the count, nothing is left of the block. */
  lemma Completed<T>(s: State<T>, t: Tid)
    requires Inv(s) && Emptying(s, t)
    ensures var s', k := EmptyStep(s, t), s.pc[t].first / s.bs;
            k in s'.live && (s.done[s.pc[t].block] + (s.pc[t].next - s.pc[t].first) == s.bs ==> Left(s', k) == {})
  {
    hide Inv, Range, R.Stop, Claimed, Started, Left;
    EmptyingRange(s, t);
    EmptyLive(s, t, s.pc[t].first / s.bs);
  }

  lemma EmptyOwnOk<T>(s: State<T>, t: Tid)
    requires Inv(s) && Emptying(s, t)
    ensures var s' := EmptyStep(s, t); PcOk(s', s'.pc[t]) && HeldOk(s', s'.pc[t])
  {
    hide Started, KeysOk, TailOk, BlocksOk, CellsOk, LiveOk, R.Stop, Left, Apart;
    var s' := EmptyStep(s, t);
    var Read(i, j, slot, b, next) := s.pc[t];
    EmptyingRange(s, t);
    Completed(s, t);
    if next < j {
      R.NextSlot(i / s.bs, next, s.bs, |s.keys|);
      assert (i / s.bs + 1) * s.bs == i / s.bs * s.bs + s.bs;
    }
    assert HeldOk(s, s.pc[t]);
    forall n | Holds(s'.pc[t], n) ensures n !in s'.cleared {
      assert Holds(s.pc[t], n);
    }
  }

  lemma EmptyOtherOk<T>(s: State<T>, t: Tid, u: Tid)
    requires Inv(s) && Emptying(s, t) && u in s.pc && u != t
    ensures var s' := EmptyStep(s, t); PcOk(s', s.pc[u]) && HeldOk(s', s.pc[u]) && Apart(s'.pc[t], s.pc[u])
  {
    hide Started, KeysOk, TailOk, BlocksOk, CellsOk, LiveOk, R.Stop;
    var s' := EmptyStep(s, t);
    var Read(i, j, slot, b, next) := s.pc[t];
    EmptyingRange(s, t);
    assert PcOk(s, s.pc[u]) && HeldOk(s, s.pc[u]) && Apart(s.pc[t], s.pc[u]);
    forall n | Holds(s.pc[u], n) ensures n !in s'.cleared {
    }
    assert s.pc[u].NullValue? ==> Left(s', s.pc[u].k) <= Left(s, s.pc[u].k);
  }

  lemma EmptyThreads<T>(s: State<T>, t: Tid)
    requires Inv(s) && Emptying(s, t)
    ensures ThreadsOk(EmptyStep(s, t))
  {
    hide Started, KeysOk, TailOk, BlocksOk, CellsOk, PcOk, HeldOk, R.Stop, Range;
    var s' := EmptyStep(s, t);
    EmptyOwnOk(s, t);
    forall u | u in s'.pc && u != t ensures PcOk(s', s'.pc[u]) && HeldOk(s', s'.pc[u]) && Apart(s'.pc[t], s'.pc[u]) {
      EmptyOtherOk(s, t, u);
    }
    forall u, v | u in s'.pc && v in s'.pc && u != v ensures Apart(s'.pc[u], s'.pc[v]) {
      assert u != t && v != t ==> Apart(s.pc[u], s.pc[v]);
    }
  }

  lemma EmptyShape<T>(s: State<T>, t: Tid)
    requires Inv(s) && Emptying(s, t)
    ensures Shape(EmptyStep(s, t)) && CellsOk(EmptyStep(s, t))
  {
    hide Started, KeysOk, TailOk, BlocksOk, ThreadsOk, LiveOk, R.Stop;
    var s' := EmptyStep(s, t);
    EmptyingRange(s, t);
    KeysKept(s, s');
    SameTail(s, s');
    assert s.live[s.pc[t].first / s.bs] in s.live.Values;
    SameProducer(s, s');
    forall i | 0 <= i < |s'.items| && i !in s'.cleared ensures CellOk(s', i) {
      assert CellOk(s, i);
    }
  }

  /** set_many_empty: the indices first, ... next - 1. */
  lemma EmptyKeepsInv<T>(s: State<T>, t: Tid)
    requires Inv(s) && Emptying(s, t)
    ensures Inv(EmptyStep(s, t))
  {
    hide Shape, BlocksOk, CellsOk, ThreadsOk;
    EmptyShape(s, t);
    EmptyBlocks(s, t);
    EmptyThreads(s, t);
  }

  /** A consumer that nulls an entry does so for a block of which nothing is left. */
  lemma NullingFacts<T>(s: State<T>, t: Tid)
    requires Inv(s) && t in s.pc && s.pc[t].NullValue?
    ensures var NullValue(i, j, slot, k) := s.pc[t];
            && k in s.live && LiveOk(s, k) && k < Hi(s) && Left(s, k) == {} && slot == k % |s.keys| && i <= j <= s.head
            && (i < j ==> i == (k + 1) * s.bs)
  {
    hide Started, KeysOk, TailOk, CellsOk, Apart;
    var k := s.pc[t].k;
    assert PcOk(s, s.pc[t]);
    if Hi(s) <= k {
      NothingLeft(s, k);
    }
  }

  lemma NothingLeft<T>(s: State<T>, k: nat)
    requires Inv(s) && Hi(s) <= k
    ensures Left(s, k) != {}
  {
    hide Started, KeysOk, TailOk, BlocksOk, ThreadsOk;
    NothingMarked(s, k);
  }

  lemma NullBlocks<T>(s: State<T>, t: Tid)
    requires Inv(s) && CanConsume(s, t) && s.pc[t].NullValue?
    ensures BlocksOk(ConsumeStep(s, t))
  {
    hide Started, KeysOk, TailOk, CellsOk, ThreadsOk, LiveOk, Claimed, MustLive;
    var s', k0 := ConsumeStep(s, t), s.pc[t].k;
    NullingFacts(s, t);
    LiveBounds(s, k0);
    forall k | k in s'.live ensures LiveOk(s', k) {
      LiveBounds(s, k);
      ClaimedAlike(s, s', k);
      OtherLiveKept(s, s', k0, None, k);
    }
    forall k | Claimed(s', k) ensures Claimed(s, k) {
      ClaimedAlike(s, s', k);
    }
    NotMust(s, s', k0);
    MustKept(s, s', k0);
  }

  lemma NotMust<T>(s: State<T>, s': State<T>, k: nat)
    requires s.bs > 0 && k < Hi(s) && Left(s, k) == {} && s'.bs == s.bs && s'.tail == s.tail && s'.cleared == s.cleared
    ensures !MustLive(s', k)
  {
    hide Started;
    assert Left(s', k) == Left(s, k);
  }

  lemma NullThreads<T>(s: State<T>, t: Tid)
    requires Inv(s) && CanConsume(s, t) && s.pc[t].NullValue?
    ensures ThreadsOk(ConsumeStep(s, t))
  {
    hide Started, KeysOk, TailOk, CellsOk, BlocksOk, LiveOk;
    var s' := ConsumeStep(s, t);
    NullingFacts(s, t);
    forall u | u in s'.pc ensures PcOk(s', s'.pc[u]) && HeldOk(s', s'.pc[u]) {
      if u == t {
        NullOwnOk(s, t);
      } else {
        NullOtherOk(s, t, u);
      }
    }
    forall u, v | u in s'.pc && v in s'.pc && u != v ensures Apart(s'.pc[u], s'.pc[v]) {
      assert Apart(s.pc[u], s.pc[v]);
    }
  }

  lemma NullOwnOk<T>(s: State<T>, t: Tid)
    requires Inv(s) && CanConsume(s, t) && s.pc[t].NullValue?
    ensures var s' := ConsumeStep(s, t); PcOk(s', s'.pc[t]) && HeldOk(s', s'.pc[t])
  {
    hide Started, KeysOk, TailOk, CellsOk, BlocksOk, LiveOk, Apart;
    var s' := ConsumeStep(s, t);
    var NullValue(i, j, slot, k) := s.pc[t];
    NullingFacts(s, t);
    if i < j {
      assert (k + 1) * s.bs == k * s.bs + s.bs;
      R.NextSlot(k, i, s.bs, |s.keys|);
    }
    assert HeldOk(s, s.pc[t]);
    forall n | Holds(s'.pc[t], n) ensures n !in s'.cleared {
      assert Holds(s.pc[t], n);
    }
  }

  lemma NullOtherOk<T>(s: State<T>, t: Tid, u: Tid)
    requires Inv(s) && CanConsume(s, t) && s.pc[t].NullValue? && u in s.pc && u != t
    ensures PcOk(ConsumeStep(s, t), s.pc[u]) && HeldOk(ConsumeStep(s, t), s.pc[u])
  {
    hide Started, KeysOk, TailOk, CellsOk, BlocksOk, LiveOk;
    var s' := ConsumeStep(s, t);
    NullingFacts(s, t);
    assert PcOk(s, s.pc[u]) && HeldOk(s, s.pc[u]) && Apart(s.pc[t], s.pc[u]);
    if s.pc[u].Read? {
      HeldLive(s, u);
    }
    assert s.pc[u].NullValue? ==> Left(s', s.pc[u].k) == Left(s, s.pc[u].k);
  }

  lemma NullShape<T>(s: State<T>, t: Tid)
    requires Inv(s) && CanConsume(s, t) && s.pc[t].NullValue?
    ensures Shape(ConsumeStep(s, t)) && CellsOk(ConsumeStep(s, t))
  {
    hide Started, KeysOk, TailOk, BlocksOk, ThreadsOk, LiveOk;
    var s', k := ConsumeStep(s, t), s.pc[t].k;
    NullingFacts(s, t);
    KeysKept(s, s');
    SameTail(s, s');
    SameProducer(s, s');
    forall i | 0 <= i < |s'.items| && i !in s'.cleared ensures CellOk(s', i) {
      assert CellOk(s, i);
      DivBounds(i, s.bs);
      InOwnBlock(i, i / s.bs, s.bs);
      assert i in Left(s, i / s.bs);
    }
  }

  lemma NullKeepsInv<T>(s: State<T>, t: Tid)
    requires Inv(s) && CanConsume(s, t) && s.pc[t].NullValue?
    ensures Inv(ConsumeStep(s, t))
  {
    hide Shape, BlocksOk, CellsOk, ThreadsOk;
    NullShape(s, t);
    NullBlocks(s, t);
    NullThreads(s, t);
  }

  lemma ConsumeKeepsInv<T>(s: State<T>, t: Tid)
    requires Inv(s) && CanConsume(s, t)
    ensures Inv(ConsumeStep(s, t))
  {
    hide Inv;
    match s.pc[t]
    case LoadTail(_, _) => LoadTailKeepsInv(s, t);
    case ReadKey(_, _, _, _) => ReadKeyKeepsInv(s, t);
    case ReadValue(_, _, _) => ReadValueKeepsInv(s, t);
    case Read(i, j, _, _, next) =>
      if next < R.Stop(s.bs, i, j) { ReadKeepsInv(s, t); } else { EmptyKeepsInv(s, t); }
    case NullValue(_, _, _, _) => NullKeepsInv(s, t);
  }

  lemma ClaimIndicesKeepsInv<T>(s: State<T>, t: Tid, count: nat)
    requires Inv(s) && CanClaimIndices(s, t, count)
    ensures Inv(ClaimIndices(s, t, count))
  {
    hide Started, KeysOk, TailOk, BlocksOk;
    var s' := ClaimIndices(s, t, count);
    forall u | u in s'.pc ensures PcOk(s', s'.pc[u]) && HeldOk(s', s'.pc[u]) {
      assert PcOk(s, s.pc[u]) && HeldOk(s, s.pc[u]);
      SamePcOk(s, s', s.pc[u]);
    }
    forall u, v | u in s'.pc && v in s'.pc && u != v ensures Apart(s'.pc[u], s'.pc[v]) {
      assert Apart(s.pc[u], s.pc[v]) && PcOk(s, s.pc[u]) && PcOk(s, s.pc[v]);
    }
    ConsumerKeepsInv(s, s');
  }

  lemma StepKeepsInv<T>(s: State<T>, a: Action<T>)
    requires Inv(s) && Enabled(s, a)
    ensures Inv(Step(s, a))
  {
    hide Inv;
    match a
    case Begin(batch) => BeginKeepsInv(s, batch);
    case Produce(c) => ProduceKeepsInv(s, c);
    case Claim(t, n) => ClaimIndicesKeepsInv(s, t, n);
    case Consume(t) => ConsumeKeepsInv(s, t);
  }

  // ---------------------------------------------------------------- whole runs

  /** A new producer; the values of its entries are not initialized. */
  ghost function Init<T>(bs: nat, poolSize: nat, values: seq<Option<Block>>, tids: set<Tid>): State<T>
    requires values != []
  {
    State(bs, seq(|values|, _ => INVALID_BLOCK_BASE), values, |values| - 1, Ready, seq(poolSize, _ => 0),
          0, 0, map[], map t | t in tids :: Idle, 0, -1, 0, map[], {}, [], map[])
  }

  lemma InitInv<T>(bs: nat, poolSize: nat, values: seq<Option<Block>>, tids: set<Tid>)
    requires bs > 1 && values != []
    ensures Inv(Init<T>(bs, poolSize, values, tids))
  {
    ModUnique(bs - 1, bs, 0, bs - 1);
    ModUnique(-1, |values|, -1, |values| - 1);
  }

  /** Any interleaving; an action that is not possible in its state is skipped. */
  ghost function Run<T>(s: State<T>, schedule: seq<Action<T>>): (s': State<T>)
    requires Inv(s)
    ensures Inv(s')
    decreases |schedule|
  {
    if schedule == [] then s
    else if Enabled(s, schedule[0]) then
      StepKeepsInv(s, schedule[0]);
      Run(Step(s, schedule[0]), schedule[1..])
    else
      Run(s, schedule[1..])
  }

  /** Whatever the interleaving, consumers read exactly the elements with the indices they claimed. */
  lemma ConsumersReadTheirElements<T>(bs: nat, poolSize: nat, values: seq<Option<Block>>, tids: set<Tid>,
                                      schedule: seq<Action<T>>)
    requires bs > 1 && values != []
    ensures Inv(Init<T>(bs, poolSize, values, tids))
    ensures var s := Run(Init<T>(bs, poolSize, values, tids), schedule);
            forall i :: i in s.taken ==> i < |s.items| && s.taken[i] == s.items[i]
  {
    InitInv<T>(bs, poolSize, values, tids);
  }

  // ---------------------------------------------------------------- what the invariant gives

  /** From the fetch_add that claims index i until it is marked empty, the lookup from wherever the index tail is,
      forward or rewound, leads to its block's entry, whose key and value are as the source asserts, and the element is
      there. */
  lemma LookupReaches<T>(s: State<T>, i: nat)
    requires Inv(s) && i < s.head && i !in s.cleared
    ensures s.indexTail < |s.keys| == |s.values|
    ensures var slot := LookupSlot(s.indexTail, s.keys[s.indexTail], i, s.bs, |s.keys|);
            && s.keys[slot] == Floor(i, s.bs) && s.values[slot].Some?
            && (s.values[slot].value, i % s.bs) in s.cells && s.cells[(s.values[slot].value, i % s.bs)] == s.items[i]
  {
    hide Started, BlocksOk, ThreadsOk, LookupSlot, Left;
    IndexLive(s, i);
    TailBounds(s);
    var k := i / s.bs;
    assert KeyOk(s, s.at) && KeyOk(s, k) && CellOk(s, i);
    LookupFinds(s.indexTail, s.at, i, s.bs, |s.keys|);
    DivBounds(i, s.bs);
  }

  /** No step, neither of the producer, even one that undoes an enqueue, nor of a consumer that nulls an entry, takes
      away the block of a claimed index that is not marked empty, or changes its entry. */
  lemma HeldStays<T>(s: State<T>, a: Action<T>, i: nat)
    requires Inv(s) && Enabled(s, a) && i < s.head && i !in s.cleared && i !in Step(s, a).cleared
    ensures var s', k := Step(s, a), i / s.bs;
            && k in s.live && k in s'.live && s'.live[k] == s.live[k]
            && |s'.keys| == |s.keys| > 0 && |s'.values| == |s.values| == |s.keys|
            && s'.keys[k % |s.keys|] == s.keys[k % |s.keys|]
            && s'.values[k % |s.keys|] == s.values[k % |s.keys|] == Some(s.live[k])
  {
    hide Inv, Step, Enabled;
    BlockStays(s, a, i);
    var s', k := Step(s, a), i / s.bs;
    StepKeepsInv(s, a);
    EntryOf(s, i);
    EntryOf(s', i);
  }

  lemma EntryOf<T>(s: State<T>, i: nat)
    requires Inv(s) && i < s.head && i !in s.cleared
    ensures var k := i / s.bs;
            k in s.live && 0 < |s.keys| == |s.values| && s.keys[k % |s.keys|] == k * s.bs
              && s.values[k % |s.keys|] == Some(s.live[k])
  {
    hide Started, BlocksOk, ThreadsOk, CellsOk, Left;
    IndexLive(s, i);
    TailBounds(s);
    assert KeyOk(s, i / s.bs);
  }

  lemma BlockStays<T>(s: State<T>, a: Action<T>, i: nat)
    requires Inv(s) && Enabled(s, a) && i < s.head && i !in s.cleared && i !in Step(s, a).cleared
    ensures s.bs > 0
    ensures var s', k := Step(s, a), i / s.bs;
            s'.bs == s.bs > 0 && |s'.keys| == |s.keys| && s.head <= s'.head && k in s.live && k in s'.live
              && s'.live[k] == s.live[k]
  {
    hide Inv, Started, LiveOk, LookupSlot, R.Stop, Range, ProduceStep, ConsumeStep, CanProduce, CanConsume;
    IndexLive(s, i);
    match a
    case Produce(c) => ProducedBlockStays(s, c, i / s.bs);
    case Consume(t) => ConsumedBlockStays(s, t, i);
    case _ =>
  }

  lemma ProducedBlockStays<T>(s: State<T>, c: Choice, k: nat)
    requires Inv(s) && CanProduce(s, c) && k < Hi(s) && k in s.live
    ensures var s' := ProduceStep(s, c);
            s'.bs == s.bs && |s'.keys| == |s.keys| && s.head == s'.head && k in s'.live && s'.live[k] == s.live[k]
  {
    hide Started, KeysOk, TailOk, BlocksOk, ThreadsOk, CellsOk, LookupSlot;
    EndNotLiveInv(s);
  }

  lemma ConsumedBlockStays<T>(s: State<T>, t: Tid, i: nat)
    requires Inv(s) && CanConsume(s, t) && i < s.head && i !in s.cleared
    ensures var s', k := ConsumeStep(s, t), i / s.bs;
            s'.bs == s.bs && |s'.keys| == |s.keys| && s.head == s'.head && k in s.live && k in s'.live
              && s'.live[k] == s.live[k]
  {
    hide Inv, LookupSlot, R.Stop, Range;
    IndexLive(s, i);
    if s.pc[t].NullValue? {
      NullingFacts(s, t);
    }
  }

  lemma EndNotLiveInv<T>(s: State<T>)
    requires Inv(s)
    ensures s.end !in s.live
  {
    EndNotLive(s);
  }

  /** After an enqueue, failed or not, the index tail is at the last block started, and no later block is entered. */
  lemma SettledWhenReady<T>(s: State<T>, k: nat)
    requires Inv(s) && s.producer.Ready?
    ensures s.at == Hi(s) - 1 && (k in s.live ==> k < Hi(s))
    ensures k < Hi(s) && Left(s, k) != {} ==> k in s.live
  {
    hide Started, KeysOk, TailOk, ThreadsOk, CellsOk, Left;
    assert k in s.live ==> LiveOk(s, k);
    assert k < Hi(s) && Left(s, k) != {} ==> MustLive(s, k);
  }

  /** The guards of the steps never hide a lookup that goes astray: a consumer with a claim, or with an entry to null,
      can always go on, and so can the producer. */
  lemma NobodyIsStuck<T>(s: State<T>)
    requires Inv(s)
    ensures forall t :: t in s.pc && !s.pc[t].Idle? ==> CanConsume(s, t)
    ensures !s.producer.Ready? ==> CanProduce(s, Go) || CanProduce(s, Fail)
  {
    hide Inv;
    forall t | t in s.pc && !s.pc[t].Idle? ensures CanConsume(s, t) {
      ConsumerGoesOn(s, t);
    }
    if !s.producer.Ready? {
      ProducerGoesOn(s);
    }
  }

  lemma ConsumerGoesOn<T>(s: State<T>, t: Tid)
    requires Inv(s) && t in s.pc && !s.pc[t].Idle?
    ensures CanConsume(s, t)
  {
    hide Started, KeysOk, TailOk, BlocksOk, CellsOk, Left;
    assert PcOk(s, s.pc[t]);
    if s.pc[t].NullValue? {
    } else {
      HeldLive(s, t);
      if s.pc[t].Read? && s.pc[t].next < R.Stop(s.bs, s.pc[t].first, s.pc[t].stop) {
        ReadsElement(s, t);
      }
    }
  }

  lemma ProducerGoesOn<T>(s: State<T>)
    requires Inv(s) && !s.producer.Ready?
    ensures CanProduce(s, Go) || CanProduce(s, Fail)
  {
    hide Started, KeysOk, BlocksOk, CellsOk, ThreadsOk;
    if s.producer.Construct? && s.producer.n < |s.producer.batch| {
      NextCellLive(s);
    }
  }

  /** The element to be constructed next belongs to a live block. */
  lemma NextCellLive<T>(s: State<T>)
    requires Inv(s) && s.producer.Construct? && s.producer.n < |s.producer.batch|
    ensures (s.tail + s.producer.n) / s.bs in s.live
  {
    hide Started, KeysOk, TailOk, ThreadsOk, LiveOk;
    var i := s.tail + s.producer.n;
    var k := i / s.bs;
    BelowHi(s.tail + |s.producer.batch|, i, s.bs);
    DivBounds(i, s.bs);
    InOwnBlock(i, k, s.bs);
    assert i in Left(s, k);
    assert MustLive(s, k);
  }

  // ---------------------------------------------------------------- nothing is forgotten

  /** Somebody has claimed the index and not marked it yet. */
  ghost predicate HeldBySome<T>(s: State<T>, i: nat) { exists t :: t in s.pc && Holds(s.pc[t], i) }

  predicate Nulls(p: Pc, k: nat) { p.NullValue? && p.k == k }

  /** No claimed index is forgotten, and none is marked before its element has been read. */
  ghost predicate Accounted<T>(s: State<T>) {
    && (forall i :: 0 <= i < s.head && i !in s.cleared ==> HeldBySome(s, i))
    && (forall i :: i in s.cleared ==> i in s.taken)
    && (forall t, i :: t in s.pc && s.pc[t].Read? && s.pc[t].first <= i < s.pc[t].next ==> i in s.taken)
  }

  /** A block of which nothing is left is about to be released by the consumer that completed it. */
  ghost predicate Released<T>(s: State<T>) {
    forall k :: k in s.live && Left(s, k) == {} ==> exists t :: t in s.pc && Nulls(s.pc[t], k)
  }

  /** The entry the producer is at work on, while it has a key but no block yet. */
  predicate Inserting<T>(s: State<T>, slot: nat) {
    0 < |s.keys| && slot == s.end % |s.keys|
    && match s.producer {
         case PutTail(_) => true
         case Requisition(_) => true
         case PutValue(_, _) => true
         case Rewind(_) => true
         case ClearEntry(_) => true
         case _ => false
       }
  }

  /** An entry that is not free has a live block. */
  ghost predicate FreeOk<T>(s: State<T>) {
    0 < |s.keys| == |s.values| && forall slot :: 0 <= slot < |s.keys| ==> FreeAt(s, slot)
  }

  ghost predicate FreeAt<T>(s: State<T>, slot: nat)
    requires slot < |s.keys| && slot < |s.values|
  {
    s.keys[slot] == INVALID_BLOCK_BASE || s.values[slot] == None || Inserting(s, slot) || HasLive(s, slot)
  }

  ghost predicate HasLive<T>(s: State<T>, slot: nat) { 0 < |s.keys| && exists k :: k in s.live && k % |s.keys| == slot }

  ghost predicate Tidy<T>(s: State<T>) { Accounted(s) && Released(s) && FreeOk(s) }

  lemma ProduceParts<T>(s: State<T>, c: Choice)
    requires CanProduce(s, c)
    ensures var s' := ProduceStep(s, c);
            && s'.pc == s.pc && s'.head == s.head && s'.cleared == s.cleared && s'.taken == s.taken && s'.bs == s.bs
    ensures forall k :: k in ProduceStep(s, c).live && k !in s.live ==> s.producer.PutValue? && k == s.end
  {
    hide CanProduce, ProduceStep;
    match s.producer
    case UndoValue(_, _) => UndoParts(s, c);
    case UndoTail(_, _) => UndoParts(s, c);
    case Rewind(_) => UndoParts(s, c);
    case ClearEntry(_) => UndoParts(s, c);
    case Claiming(_) => ClaimParts(s, c);
    case PutTail(_) => ClaimParts(s, c);
    case Requisition(_) => ClaimParts(s, c);
    case _ => EnqueueParts(s, c);
  }

  lemma ClaimParts<T>(s: State<T>, c: Choice)
    requires CanProduce(s, c) && (s.producer.Claiming? || s.producer.PutTail? || s.producer.Requisition?)
    ensures var s' := ProduceStep(s, c);
            && s'.pc == s.pc && s'.head == s.head && s'.cleared == s.cleared && s'.taken == s.taken && s'.bs == s.bs
            && s'.live == s.live
  {
    hide Started, LookupSlot, NextSlot, CanInsert, Hi, Needed;
  }

  lemma UndoParts<T>(s: State<T>, c: Choice)
    requires CanProduce(s, c)
    requires s.producer.UndoValue? || s.producer.UndoTail? || s.producer.Rewind? || s.producer.ClearEntry?
    ensures var s' := ProduceStep(s, c);
            && s'.pc == s.pc && s'.head == s.head && s'.cleared == s.cleared && s'.taken == s.taken && s'.bs == s.bs
            && s'.live.Keys <= s.live.Keys
  {
    hide Started, LookupSlot, NextSlot, CanInsert, Hi, Needed;
  }

  lemma EnqueueParts<T>(s: State<T>, c: Choice)
    requires CanProduce(s, c) && (s.producer.PutValue? || s.producer.Construct? || s.producer.Ready?)
    ensures var s' := ProduceStep(s, c);
            && s'.pc == s.pc && s'.head == s.head && s'.cleared == s.cleared && s'.taken == s.taken && s'.bs == s.bs
    ensures forall k :: k in ProduceStep(s, c).live && k !in s.live ==> s.producer.PutValue? && k == s.end
  {
    hide Started, LookupSlot, NextSlot, CanInsert, Hi, Needed;
  }

  lemma NextInRange<T>(s: State<T>)
    requires s.keys != []
    ensures NextSlot(s) < |s.keys|
  {
  }

  lemma LookupInRange(from: nat, base: nat, index: nat, bs: nat, size: nat)
    requires bs > 0 && size > 0
    ensures LookupSlot(from, base, index, bs, size) < size
  {
  }

  lemma SameAccounts<T>(s: State<T>, s': State<T>)
    requires Accounted(s) && s'.pc == s.pc && s'.head == s.head && s'.cleared == s.cleared && s'.taken == s.taken
    ensures Accounted(s')
  {
    forall i | 0 <= i < s'.head && i !in s'.cleared ensures HeldBySome(s', i) {
      assert HeldBySome(s, i);
    }
  }

  lemma ProduceReleased<T>(s: State<T>, c: Choice)
    requires Inv(s) && Released(s) && CanProduce(s, c)
    ensures Released(ProduceStep(s, c))
  {
    hide Inv, ProduceStep, CanProduce, Left;
    ProduceParts(s, c);
    var s' := ProduceStep(s, c);
    forall k | k in s'.live && Left(s', k) == {} ensures exists t :: t in s'.pc && Nulls(s'.pc[t], k) {
      SameLeft(s, s', k);
      if k !in s.live {
        EndIsNew(s);
        NothingLeft(s, k);
      }
    }
  }

  lemma SameLeft<T>(s: State<T>, s': State<T>, k: nat)
    requires s'.bs == s.bs && s'.cleared == s.cleared
    ensures Left(s', k) == Left(s, k)
  {
  }

  lemma EndIsNew<T>(s: State<T>)
    requires Inv(s)
    ensures s.bs > 0 && Hi(s) <= s.end
  {
    hide Started;
  }

  /** A step that changes one entry, or none, and leaves the live blocks of all others. */
  lemma FreeKept<T>(s: State<T>, s': State<T>, x: nat)
    requires FreeOk(s) && |s'.keys| == |s.keys| == |s'.values| && x < |s.keys|
    requires forall slot :: 0 <= slot < |s.keys| && slot != x ==>
               s'.keys[slot] == s.keys[slot] && s'.values[slot] == s.values[slot] && !Inserting(s, slot)
    requires forall k :: k in s.live && k % |s.keys| != x ==> k in s'.live
    requires FreeAt(s', x)
    ensures FreeOk(s')
  {
    forall slot | 0 <= slot < |s'.keys| && slot != x ensures FreeAt(s', slot) {
      assert FreeAt(s, slot);
      if HasLive(s, slot) {
        var k :| k in s.live && k % |s.keys| == slot;
        assert k in s'.live;
      }
    }
  }

  /** A step that changes no entry and no live block. */
  lemma SameEntries<T>(s: State<T>, s': State<T>)
    requires FreeOk(s) && s'.keys == s.keys && s'.values == s.values && s'.live == s.live
    requires forall slot :: 0 <= slot < |s.keys| && Inserting(s, slot) ==> Inserting(s', slot)
    ensures FreeOk(s')
  {
    forall slot | 0 <= slot < |s'.keys| ensures FreeAt(s', slot) {
      assert FreeAt(s, slot);
      if HasLive(s, slot) {
        var k :| k in s.live && k % |s.keys| == slot;
        assert k in s'.live;
      }
    }
  }

  lemma ProduceFree<T>(s: State<T>, c: Choice)
    requires Shape(s) && FreeOk(s) && CanProduce(s, c)
    requires s.producer.UndoValue? ==>
               LookupSlot(s.indexTail, s.keys[s.indexTail], s.producer.j * s.bs, s.bs, |s.keys|)
                 == s.producer.j % |s.keys|
    ensures FreeOk(ProduceStep(s, c))
  {
    hide Shape, FreeOk, ProduceStep, CanProduce, LookupSlot;
    match s.producer
    case Claiming(batch) => ClaimFree(s, c);
    case PutValue(_, _) => PutFree(s, c);
    case ClearEntry(_) => ClearFree(s, c);
    case UndoValue(_, j) => UndoFree(s, c);
    case UndoTail(_, _) => TailFree(s, c);
    case Rewind(_) => TailFree(s, c);
    case _ => OtherFree(s, c);
  }

  lemma ClaimFree<T>(s: State<T>, c: Choice)
    requires Shape(s) && FreeOk(s) && CanProduce(s, c) && s.producer.Claiming?
    ensures FreeOk(ProduceStep(s, c))
  {
    hide KeysOk, Started, LookupSlot, FreeOk, Needed, Hi, NextSlot;
    TailForth(s);
    NextInRange(s);
    var s' := ProduceStep(s, c);
    if s.end == Needed(s, s.producer.batch) || c.Fail? {
      SameEntries(s, s');
    } else {
      SizesOk(s);
      FreeKept(s, s', s.end % |s.keys|);
    }
  }

  lemma SizesOk<T>(s: State<T>)
    requires FreeOk(s)
    ensures 0 < |s.keys| == |s.values|
  {
  }

  lemma PutFree<T>(s: State<T>, c: Choice)
    requires Shape(s) && FreeOk(s) && CanProduce(s, c) && s.producer.PutValue?
    ensures FreeOk(ProduceStep(s, c))
  {
    hide KeysOk, Started, LookupSlot, FreeOk, Needed, Hi, NextSlot;
    var s' := ProduceStep(s, c);
    assert s.end in s'.live;
    SizesOk(s);
    FreeKept(s, s', s.end % |s.keys|);
  }

  lemma ClearFree<T>(s: State<T>, c: Choice)
    requires Shape(s) && FreeOk(s) && CanProduce(s, c) && s.producer.ClearEntry?
    ensures FreeOk(ProduceStep(s, c))
  {
    hide KeysOk, Started, LookupSlot, FreeOk, Needed, Hi, NextSlot;
    TailForth(s);
    NextInRange(s);
    SizesOk(s);
    FreeKept(s, ProduceStep(s, c), s.end % |s.keys|);
  }

  lemma UndoFree<T>(s: State<T>, c: Choice)
    requires Shape(s) && FreeOk(s) && CanProduce(s, c) && s.producer.UndoValue?
    requires LookupSlot(s.indexTail, s.keys[s.indexTail], s.producer.j * s.bs, s.bs, |s.keys|)
             == s.producer.j % |s.keys|
    ensures FreeOk(ProduceStep(s, c))
  {
    hide KeysOk, Started, LookupSlot, FreeOk, Needed, Hi, NextSlot;
    SizesOk(s);
    FreeKept(s, ProduceStep(s, c), s.producer.j % |s.keys|);
  }

  lemma TailFree<T>(s: State<T>, c: Choice)
    requires Shape(s) && FreeOk(s) && CanProduce(s, c) && (s.producer.UndoTail? || s.producer.Rewind?)
    ensures FreeOk(ProduceStep(s, c))
  {
    hide KeysOk, Started, LookupSlot, FreeOk, Needed, Hi, NextSlot;
    SameEntries(s, ProduceStep(s, c));
  }

  lemma OtherFree<T>(s: State<T>, c: Choice)
    requires Shape(s) && FreeOk(s) && CanProduce(s, c)
    requires s.producer.Ready? || s.producer.PutTail? || s.producer.Requisition? || s.producer.Construct?
    ensures FreeOk(ProduceStep(s, c))
  {
    hide KeysOk, Started, LookupSlot, FreeOk, Needed, Hi, NextSlot;
    SameEntries(s, ProduceStep(s, c));
  }

  lemma ClaimTidy<T>(s: State<T>, t: Tid, n: nat)
    requires Tidy(s) && CanClaimIndices(s, t, n)
    ensures Tidy(ClaimIndices(s, t, n))
  {
    var s' := ClaimIndices(s, t, n);
    forall i | 0 <= i < s'.head && i !in s'.cleared ensures HeldBySome(s', i) {
      if i < s.head {
        var u :| u in s.pc && Holds(s.pc[u], i);
        assert Holds(s'.pc[u], i);
      } else {
        assert Holds(s'.pc[t], i);
      }
    }
    forall k | k in s'.live && Left(s', k) == {} ensures exists u :: u in s'.pc && Nulls(s'.pc[u], k) {
      SameLeft(s, s', k);
      var u :| u in s.pc && Nulls(s.pc[u], k);
      assert Nulls(s'.pc[u], k);
    }
    SameEntries(s, s');
  }

  /** A step of a consumer on which its claim and what it has read stay its own, and no entry changes. */
  lemma MoveTidy<T>(s: State<T>, s': State<T>, t: Tid)
    requires Tidy(s) && t in s.pc && t in s'.pc && s'.pc == s.pc[t := s'.pc[t]] && !s.pc[t].NullValue?
    requires s'.head == s.head && s'.cleared == s.cleared && s.taken.Keys <= s'.taken.Keys && s'.bs == s.bs
    requires s'.keys == s.keys && s'.values == s.values && s'.live == s.live && s'.producer == s.producer
             && s'.end == s.end
    requires forall i :: Holds(s.pc[t], i) ==> Holds(s'.pc[t], i)
    requires s'.pc[t].Read? ==> forall i :: s'.pc[t].first <= i < s'.pc[t].next ==> i in s'.taken
    ensures Tidy(s')
  {
    hide Left;
    forall i | 0 <= i < s'.head && i !in s'.cleared ensures HeldBySome(s', i) {
      var u :| u in s.pc && Holds(s.pc[u], i);
      assert Holds(s'.pc[u], i);
    }
    forall k | k in s'.live && Left(s', k) == {} ensures exists u :: u in s'.pc && Nulls(s'.pc[u], k) {
      SameLeft(s, s', k);
      var u :| u in s.pc && Nulls(s.pc[u], k);
      assert Nulls(s'.pc[u], k);
    }
    SameEntries(s, s');
  }

  /** A consumer that is about to mark what it has read. */
  predicate Marking<T>(s: State<T>, t: Tid) {
    && s.bs > 1 && s.keys != [] && t in s.pc && s.pc[t].Read?
    && s.pc[t].block < |s.done| && s.pc[t].first < s.pc[t].next <= s.pc[t].stop
  }

  lemma IsMarking<T>(s: State<T>, t: Tid)
    requires Inv(s) && Emptying(s, t)
    ensures Marking(s, t)
  {
    EmptyingRange(s, t);
    hide BlocksOk, CellsOk, ThreadsOk, Left, Base, Started, KeysOk, TailOk;
  }

  /** What marking does to the threads' claims. */
  lemma EmptyParts<T>(s: State<T>, t: Tid)
    requires Marking(s, t)
    ensures var Read(first, stop, _, _, next), s' := s.pc[t], EmptyStep(s, t);
            && s'.cleared == s.cleared + Range(first, next) && t in s'.pc
            && s'.taken == s.taken && s'.head == s.head && s'.bs == s.bs && s'.pc == s.pc[t := s'.pc[t]]
            && (forall i: nat :: Holds(s'.pc[t], i) <==> next <= i < stop) && !s'.pc[t].Read?
  {
    hide Range;
  }

  lemma EmptyAccounted<T>(s: State<T>, t: Tid)
    requires Marking(s, t) && Accounted(s)
    ensures Accounted(EmptyStep(s, t))
  {
    hide EmptyStep;
    EmptyParts(s, t);
    var Read(first, stop, _, _, next) := s.pc[t];
    var s' := EmptyStep(s, t);
    forall i | i in s'.cleared ensures i in s'.taken {
      assert i in Range(first, next) ==> Between(first, i, next);
    }
    forall i | 0 <= i < s'.head && i !in s'.cleared ensures HeldBySome(s', i) {
      assert i !in Range(first, next);
      assert !Between(first, i, next) || i >= next;
      var u :| u in s.pc && Holds(s.pc[u], i);
      assert Holds(s'.pc[u], i);
    }
  }

  /** The consumer that completes a block's count goes on to null its entry. */
  lemma EmptyReleased<T>(s: State<T>, t: Tid)
    requires Inv(s) && Released(s) && Emptying(s, t)
    ensures Released(EmptyStep(s, t))
  {
    hide Inv, Left, Range;
    var s' := EmptyStep(s, t);
    var k0 := s.pc[t].first / s.bs;
    IsMarking(s, t);
    EmptyKeepsInv(s, t);
    forall k | k in s'.live && Left(s', k) == {} ensures exists u :: u in s'.pc && Nulls(s'.pc[u], k) {
      EmptyOtherLeft(s, t, k);
      if k == k0 {
        EmptyCompletes(s, t);
        assert Nulls(s'.pc[t], k);
      } else {
        var u :| u in s.pc && Nulls(s.pc[u], k);
        assert Nulls(s'.pc[u], k);
      }
    }
  }

  lemma EmptyOtherLeft<T>(s: State<T>, t: Tid, k: nat)
    requires Inv(s) && Emptying(s, t) && Marking(s, t)
    ensures k != s.pc[t].first / s.bs ==> Left(EmptyStep(s, t), k) == Left(s, k)
  {
    hide Inv, Range, Emptying, EmptyStep, LiveOk, Started, Base;
    EmptyingRange(s, t);
    EmptyParts(s, t);
    var k0 := s.pc[t].first / s.bs;
    R.OtherBlock(k, k0, s.bs);
    R.LeftAfter(Base(k, s.bs), Base(k, s.bs) + s.bs, s.cleared, s.pc[t].first, s.pc[t].next);
  }

  lemma EmptyCompletes<T>(s: State<T>, t: Tid)
    requires Inv(s) && Emptying(s, t) && Inv(EmptyStep(s, t)) && Left(EmptyStep(s, t), s.pc[t].first / s.bs) == {}
    ensures Nulls(EmptyStep(s, t).pc[t], s.pc[t].first / s.bs)
  {
    hide Range, Left, Started;
    EmptyingRange(s, t);
    var k, s' := s.pc[t].first / s.bs, EmptyStep(s, t);
    assert k in s'.live && LiveOk(s', k);
    assert s'.done[s.pc[t].block] == s.bs;
  }

  lemma EmptyTidy<T>(s: State<T>, t: Tid)
    requires Inv(s) && Tidy(s) && Emptying(s, t)
    ensures Tidy(EmptyStep(s, t))
  {
    hide Inv, Accounted, Released;
    IsMarking(s, t);
    EmptyAccounted(s, t);
    EmptyReleased(s, t);
    SameEntries(s, EmptyStep(s, t));
  }

  lemma NullTidy<T>(s: State<T>, t: Tid)
    requires Inv(s) && Tidy(s) && CanConsume(s, t) && s.pc[t].NullValue?
    ensures Tidy(ConsumeStep(s, t))
  {
    hide Inv, Left, LiveOk, Accounted, Released, FreeOk, ConsumeStep;
    NullingFacts(s, t);
    NullParts(s, t);
    NullAccounted(s, ConsumeStep(s, t), t);
    NullReleased(s, ConsumeStep(s, t), t);
    NullFree(s, ConsumeStep(s, t), s.pc[t].k);
  }

  lemma NullParts<T>(s: State<T>, t: Tid)
    requires CanConsume(s, t) && s.pc[t].NullValue? && s.pc[t].slot == s.pc[t].k % |s.keys|
    ensures var s', k := ConsumeStep(s, t), s.pc[t].k;
            && s'.cleared == s.cleared && s'.taken == s.taken && s'.head == s.head && s'.bs == s.bs
            && t in s'.pc && s'.pc == s.pc[t := s'.pc[t]] && !s'.pc[t].Read? && !s'.pc[t].NullValue?
            && (forall i :: Holds(s'.pc[t], i) <==> Holds(s.pc[t], i))
            && s'.live == s.live - {k} && s'.keys == s.keys && s'.values == s.values[k % |s.keys| := None]
            && s'.end == s.end && s'.producer == s.producer
  {
  }

  lemma NullAccounted<T>(s: State<T>, s': State<T>, t: Tid)
    requires Accounted(s) && s'.cleared == s.cleared && s'.taken == s.taken && s'.head == s.head
    requires t in s.pc && t in s'.pc && s'.pc == s.pc[t := s'.pc[t]] && !s'.pc[t].Read?
    requires forall i :: Holds(s'.pc[t], i) <==> Holds(s.pc[t], i)
    ensures Accounted(s')
  {
    forall i | 0 <= i < s'.head && i !in s'.cleared ensures HeldBySome(s', i) {
      var u :| u in s.pc && Holds(s.pc[u], i);
      assert Holds(s'.pc[u], i);
    }
  }

  lemma NullReleased<T>(s: State<T>, s': State<T>, t: Tid)
    requires Released(s) && t in s.pc && t in s'.pc && s'.pc == s.pc[t := s'.pc[t]] && s.pc[t].NullValue?
    requires s'.live == s.live - {s.pc[t].k} && s'.bs == s.bs && s'.cleared == s.cleared
    ensures Released(s')
  {
    hide Left;
    forall k | k in s'.live && Left(s', k) == {} ensures exists u :: u in s'.pc && Nulls(s'.pc[u], k) {
      SameLeft(s, s', k);
      var u :| u in s.pc && Nulls(s.pc[u], k);
      assert Nulls(s'.pc[u], k);
    }
  }

  /** Nulling the entry of a block takes away no other live block and makes the entry free. */
  lemma NullFree<T>(s: State<T>, s': State<T>, k0: nat)
    requires FreeOk(s) && s'.keys == s.keys && s'.values == s.values[k0 % |s.keys| := None] && s'.live == s.live - {k0}
    requires s'.end == s.end && s'.producer == s.producer
    ensures FreeOk(s')
  {
    forall slot | 0 <= slot < |s'.keys| ensures FreeAt(s', slot) {
      assert FreeAt(s, slot);
      if slot != k0 % |s.keys| && HasLive(s, slot) {
        var k :| k in s.live && k % |s.keys| == slot;
        assert k in s'.live;
      }
    }
  }

  lemma ConsumeTidy<T>(s: State<T>, t: Tid)
    requires Inv(s) && Tidy(s) && CanConsume(s, t)
    ensures Tidy(ConsumeStep(s, t))
  {
    hide Inv, Tidy, LookupSlot;
    match s.pc[t]
    case Idle => assert false;
    case Read(i, j, _, _, next) =>
      if next < R.Stop(s.bs, i, j) {
        ReadTaken(s, t);
        MoveTidy(s, ConsumeStep(s, t), t);
      } else {
        EmptyTidy(s, t);
      }
    case NullValue(_, _, _, _) => NullTidy(s, t);
    case _ => MoveTidy(s, ConsumeStep(s, t), t);
  }

  lemma ReadTaken<T>(s: State<T>, t: Tid)
    requires Tidy(s) && t in s.pc && s.pc[t].Read?
    ensures forall i :: s.pc[t].first <= i < s.pc[t].next ==> i in s.taken
  {
    hide Released, FreeOk;
  }

  lemma StepTidy<T>(s: State<T>, a: Action<T>)
    requires Inv(s) && Tidy(s) && Enabled(s, a)
    ensures Tidy(Step(s, a))
  {
    hide Inv, Accounted, Released, FreeOk, ProduceStep, ConsumeStep, ClaimIndices, CanProduce, CanConsume, Started;
    match a
    case Begin(batch) =>
      SameAccounts(s, BeginStep(s, batch));
      BeginTidy(s, batch);
    case Produce(c) =>
      ProduceParts(s, c);
      SameAccounts(s, ProduceStep(s, c));
      ProduceReleased(s, c);
      UndoSlotOf(s);
      ProduceFree(s, c);
    case Claim(t, n) => ClaimTidy(s, t, n);
    case Consume(t) => ConsumeTidy(s, t);
  }

  lemma UndoSlotOf<T>(s: State<T>)
    requires Inv(s)
    ensures Shape(s)
    ensures s.producer.UndoValue? ==>
              s.indexTail < |s.keys| && s.bs > 0
              && LookupSlot(s.indexTail, s.keys[s.indexTail], s.producer.j * s.bs, s.bs, |s.keys|)
              == s.producer.j % |s.keys|
  {
    if s.producer.UndoValue? { UndoSlot(s); }
  }

  lemma BeginTidy<T>(s: State<T>, batch: seq<T>)
    requires Released(s) && FreeOk(s) && s.bs > 0 && s.producer.Ready?
    ensures Released(BeginStep(s, batch)) && FreeOk(BeginStep(s, batch))
  {
    hide Started, Left;
    var s' := BeginStep(s, batch);
    forall k | k in s'.live && Left(s', k) == {} ensures exists t :: t in s'.pc && Nulls(s'.pc[t], k) {
      SameLeft(s, s', k);
    }
    SameEntries(s, s');
  }

  lemma {:induction false} RunTidy<T>(s: State<T>, schedule: seq<Action<T>>)
    requires Inv(s) && Tidy(s)
    ensures Tidy(Run(s, schedule))
    decreases |schedule|
  {
    hide Inv, Tidy, Step, Enabled;
    if schedule != [] {
      if Enabled(s, schedule[0]) {
        StepKeepsInv(s, schedule[0]);
        StepTidy(s, schedule[0]);
        RunTidy(Step(s, schedule[0]), schedule[1..]);
      } else {
        RunTidy(s, schedule[1..]);
      }
    }
  }

  lemma InitTidy<T>(bs: nat, poolSize: nat, values: seq<Option<Block>>, tids: set<Tid>)
    requires bs > 1 && values != []
    ensures Tidy(Init<T>(bs, poolSize, values, tids))
  {
  }

  /** Over any run, every claimed index is either still held by a consumer or has been marked empty, and then its
      element has been read. A block all of whose indices are marked is released: some consumer is about to null its
      entry, or has done so. So when no consumer is at work, every element below the head has been delivered and no
      used-up block is left in the index. */
  lemma NothingForgotten<T>(bs: nat, poolSize: nat, values: seq<Option<Block>>, tids: set<Tid>,
                            schedule: seq<Action<T>>, i: nat)
    requires bs > 1 && values != []
    ensures Inv(Init<T>(bs, poolSize, values, tids))
    ensures var s := Run(Init<T>(bs, poolSize, values, tids), schedule);
            && (i < s.head ==> HeldBySome(s, i) || (i in s.cleared && i in s.taken))
            && (forall k :: k in s.live && Left(s, k) == {} ==> exists t :: t in s.pc && Nulls(s.pc[t], k))
            && ((forall t :: t in s.pc ==> s.pc[t].Idle?) ==>
                  && (i < s.head ==> i < |s.items| && i in s.taken && s.taken[i] == s.items[i])
                  && forall k :: k in s.live ==> Left(s, k) != {})
  {
    InitInv<T>(bs, poolSize, values, tids);
    InitTidy<T>(bs, poolSize, values, tids);
    RunTidy(Init<T>(bs, poolSize, values, tids), schedule);
    TakenRight(Run(Init<T>(bs, poolSize, values, tids), schedule));
    hide Run, Inv, Left, FreeOk;
  }

  lemma TakenRight<T>(s: State<T>)
    requires Inv(s)
    ensures forall i :: i in s.taken ==> i < |s.items| && s.taken[i] == s.items[i]
  {
    hide Shape, BlocksOk, CellsOk;
  }

  /** The test of the next entry succeeds just when no live block has it. */
  lemma InsertExactly<T>(s: State<T>)
    requires Inv(s) && Tidy(s) && s.producer.Claiming?
    ensures 0 < |s.keys|
    ensures CanInsert(s) <==> !HasLive(s, NextSlot(s))
  {
    hide Accounted, Released, CellsOk, ThreadsOk, Started;
    assert NextSlot(s) < |s.keys|;
    assert FreeAt(s, NextSlot(s));
    if HasLive(s, NextSlot(s)) {
      var k :| k in s.live && k % |s.keys| == NextSlot(s);
      assert LiveOk(s, k) && KeyOk(s, k);
      KeyValid(k, s.bs);
    }
  }
}
