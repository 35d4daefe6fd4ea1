/** An explicit producer enqueuing while any number of consumers hold claimed indices: one atomic operation per
    step, any interleaving. Blocks and index entries are reused in a circle; shown is that neither is touched
    between the fetch_add on the head that claims an index and the set_empty of that index. Consumers claim only
    indices of enqueued elements (module DequeueProtocol). The next pointers of the blocks are read and written
    by the producer alone; here the circular list is a sequence (module ExplicitQueue links it). */
module BlockReuse {
  import opened Collections
  import opened ModArith
  import opened BlockMath
  import opened BlockPool
  import BlockStatus

  type Tid = nat

  /** The enqueue under way. A single enqueue resets its block before entering it in the index; a bulk
      enqueue first claims all its blocks and resets them before it publishes them. */
  datatype Op<T> = Op(batch: seq<T>, single: bool)

  /** The producer's next operation. */
  datatype ProducerPc<T> =
    | Ready
    | Claiming(op: Op<T>)                 // test the block ahead, or insert one from the pool, or fail
    | ResetTaken(op: Op<T>)               // single: reset_empty
    | WriteBase(op: Op<T>)
    | WriteBlock(op: Op<T>)
    | Resetting(op: Op<T>, k: nat)        // bulk: reset_empty of block k
    | Publish(op: Op<T>)
    | Construct(op: Op<T>, n: nat)

  /** A consumer that has claimed the indices first, ... stop - 1 and not yet marked any of them empty. */
  datatype Pc =
    | Idle
    | LoadFront(first: nat, stop: nat)
    // newest: the block that was at the front (auxiliary)
    | ReadBase(first: nat, stop: nat, front: nat, newest: nat)
    | ReadBlock(first: nat, stop: nat, slot: nat)
    | Read(first: nat, stop: nat, slot: nat, block: Block, next: nat)

  datatype State<T> = State(
    bs: nat,
    ring: seq<Block>,          // the producer's circular list, ending with its tailBlock
    end: nat,                  // its tailBlock is block end - 1
    producer: ProducerPc<T>,
    done: seq<nat>,            // elementsCompletelyDequeued of each block
    entries: seq<Entry>,
    front: nat,
    tail: nat,
    head: nat,
    cells: map<(Block, nat), T>,
    pc: map<Tid, Pc>,
    published: nat,            // auxiliary: blocks below this one have been published
    low: nat,                  // auxiliary: blocks below this one are empty
    cleared: set<nat>,         // auxiliary: indices marked empty
    items: seq<T>,             // auxiliary: the elements constructed, by index
    taken: map<nat, T>         // auxiliary: what was read, by index
  )

  /** How the producer goes on where that depends on the other threads. */
  datatype Choice = Go | Ahead | New(block: Block) | Fail(newEnd: nat)

  datatype Action<T> = Begin(op: Op<T>) | Produce(choice: Choice) | Claim(t: Tid, count: nat) | Consume(t: Tid)

  function At<T>(s: State<T>, k: int): Block
    requires s.end - |s.ring| <= k < s.end
  {
    BlockAt(s.ring, s.end, k)
  }

  function Needed<T>(s: State<T>, op: Op<T>): nat
    requires s.bs > 0
  {
    Started(s.tail + |op.batch|, s.bs)
  }

  // ---------------------------------------------------------------- steps

  predicate CanBegin<T>(s: State<T>, op: Op<T>) {
    s.producer.Ready? && (op.single ==> |op.batch| == 1)
  }

  function BeginStep<T>(s: State<T>, op: Op<T>): State<T>
    requires s.bs > 0
  {
    s.(producer := if Needed(s, op) == s.published then Construct(op, 0) else Claiming(op))
  }

  predicate CanClaim<T>(s: State<T>, op: Op<T>, c: Choice)
    requires s.bs > 0 && s.published <= s.end
  {
    match c
    case Go => s.end == Needed(s, op) && !op.single
    case Ahead =>
      && s.end < Needed(s, op)
      && s.ring != [] && s.end - s.published < |s.ring|                    // not the first block claimed
      && s.ring[0] < |s.done| && s.done[s.ring[0]] == s.bs                 // is_empty
    case New(b) =>
      && s.end < Needed(s, op)
      && b !in s.ring && b < |s.done| && |s.ring| < |s.entries|            // the pool is no larger than the index
    case Fail(p) =>
      // the ring ends again with the block it ended with before the claims
      p <= |s.ring| && (s.low < s.published ==> p == |s.ring| - (s.end - s.published))
  }

  function ClaimStep<T>(s: State<T>, op: Op<T>, c: Choice): State<T>
    requires s.bs > 0 && s.published <= s.end && CanClaim(s, op, c)
  {
    match c
    case Go => s.(producer := Resetting(op, s.published))
    case Ahead =>
      s.(ring := Rotate(s.ring, 1), end := s.end + 1,
         low := if s.low + |s.ring| < s.end + 1 then s.end + 1 - |s.ring| else s.low,
         producer := if op.single then ResetTaken(op) else WriteBase(op))
    case New(b) =>
      s.(ring := s.ring + [b], end := s.end + 1, done := s.done[b := if op.single then 0 else s.bs],
         producer := WriteBase(op))
    case Fail(p) => s.(ring := Rotate(s.ring, p), end := s.published, producer := Ready)
  }

  predicate HasTail<T>(s: State<T>) {
    s.ring != [] && s.entries != [] && s.end > 0 && s.ring[|s.ring| - 1] < |s.done|
  }

  predicate CanProduce<T>(s: State<T>, c: Choice) {
    && s.bs > 0 && s.published <= s.end
    && match s.producer {
         case Ready => false
         case Claiming(op) => CanClaim(s, op, c)
         case Resetting(_, k) => s.end - |s.ring| <= k < s.end && At(s, k) < |s.done|
         case Construct(op, n) => n < |op.batch| ==> s.end - |s.ring| <= (s.tail + n) / s.bs < s.end
         case _ => HasTail(s)
       }
  }

  function ProduceStep<T>(s: State<T>, c: Choice): State<T>
    requires CanProduce(s, c)
  {
    match s.producer
    case Ready => s
    case Claiming(op) => ClaimStep(s, op, c)
    case ResetTaken(op) => s.(done := s.done[s.ring[|s.ring| - 1] := 0], producer := WriteBase(op))
    case WriteBase(op) =>
      var slot := (s.end - 1) % |s.entries|;
      s.(entries := s.entries[slot := s.entries[slot].(base := (s.end - 1) * s.bs)], producer := WriteBlock(op))
    case WriteBlock(op) =>
      var slot := (s.end - 1) % |s.entries|;
      s.(entries := s.entries[slot := s.entries[slot].(block := s.ring[|s.ring| - 1])],
         producer := if op.single then Publish(op) else Claiming(op))
    case Resetting(op, k) =>
      s.(done := s.done[At(s, k) := 0], producer := if k + 1 < s.end then Resetting(op, k + 1) else Publish(op))
    case Publish(op) => s.(front := (s.end - 1) % |s.entries|, published := s.end, producer := Construct(op, 0))
    case Construct(op, n) =>
      if n < |op.batch| then
        var i := s.tail + n;
        s.(cells := s.cells[(At(s, i / s.bs), i % s.bs) := op.batch[n]], items := s.items + [op.batch[n]],
           producer := Construct(op, n + 1))
      else
        s.(tail := |s.items|, producer := Ready)
  }

  /** The indices from first to where its block or the claim ends. */
  function Stop(bs: nat, first: nat, stop: nat): int
    requires bs > 0
  {
    if stop < Floor(first, bs) + bs then stop else Floor(first, bs) + bs
  }

  ghost predicate CanConsume<T>(s: State<T>, t: Tid) {
    && s.bs > 0 && s.entries != [] && t in s.pc
    && match s.pc[t] {
         case Idle => false
         case LoadFront(_, _) => true
         case ReadBase(_, _, front, _) => front < |s.entries|
         case ReadBlock(_, _, slot) => slot < |s.entries|
         case Read(first, stop, _, b, next) =>
           if next < Stop(s.bs, first, stop) then (b, next % s.bs) in s.cells else b < |s.done| && first <= next
       }
  }

  /** set_many_empty of the indices read, and on to the rest of the claim. */
  ghost function EmptyStep<T>(s: State<T>, t: Tid): State<T>
    requires s.entries != [] && t in s.pc && s.pc[t].Read? && s.pc[t].block < |s.done| && s.pc[t].first <= s.pc[t].next
  {
    var Read(i, j, slot, b, next) := s.pc[t];
    s.(done := s.done[b := s.done[b] + (next - i)], cleared := s.cleared + Range(i, next),
       pc := s.pc[t := if next < j then ReadBlock(next, j, (slot + 1) % |s.entries|) else Idle])
  }

  ghost function ConsumeStep<T>(s: State<T>, t: Tid): State<T>
    requires CanConsume(s, t)
  {
    match s.pc[t]
    case Idle => s
    case LoadFront(i, j) => s.(pc := s.pc[t := ReadBase(i, j, s.front, if s.published > 0 then s.published - 1 else 0)])
    case ReadBase(i, j, front, _) =>
      s.(pc := s.pc[t := ReadBlock(i, j, LookupSlot(front, s.entries[front].base, i, s.bs, |s.entries|))])
    case ReadBlock(i, j, slot) => s.(pc := s.pc[t := Read(i, j, slot, s.entries[slot].block, i)])
    case Read(i, j, slot, b, next) =>
      if next < Stop(s.bs, i, j) then
        s.(taken := s.taken[next := s.cells[(b, next % s.bs)]], pc := s.pc[t := Read(i, j, slot, b, next + 1)])
      else
        EmptyStep(s, t)
  }

  /** headIndex.fetch_add(count) */
  predicate CanClaimIndices<T>(s: State<T>, t: Tid, count: nat) {
    t in s.pc && s.pc[t].Idle? && 0 < count && s.head + count <= s.tail
  }

  function ClaimIndices<T>(s: State<T>, t: Tid, count: nat): State<T> {
    s.(head := s.head + count, pc := s.pc[t := LoadFront(s.head, s.head + count)])
  }

  ghost predicate Enabled<T>(s: State<T>, a: Action<T>) {
    match a
    case Begin(op) => s.bs > 0 && CanBegin(s, op)
    case Produce(c) => CanProduce(s, c)
    case Claim(t, n) => CanClaimIndices(s, t, n)
    case Consume(t) => CanConsume(s, t)
  }

  ghost function Step<T>(s: State<T>, a: Action<T>): State<T>
    requires Enabled(s, a)
  {
    match a
    case Begin(op) => BeginStep(s, op)
    case Produce(c) => ProduceStep(s, c)
    case Claim(t, n) => ClaimIndices(s, t, n)
    case Consume(t) => ConsumeStep(s, t)
  }

  // ---------------------------------------------------------------- invariant

  /** The indices of block k not marked empty. */
  ghost function Left<T>(s: State<T>, k: nat): set<nat> { Range(Base(k, s.bs), Base(k, s.bs) + s.bs) - s.cleared }

  /** Block k has been reset since it was claimed. */
  predicate IsReset<T>(s: State<T>, k: nat) {
    || k < s.published
    || match s.producer {
         case Resetting(_, j) => k < j
         case Publish(_) => true
         case WriteBase(op) => op.single
         case WriteBlock(op) => op.single
         case _ => false
       }
  }

  /** Block k's index entry has been written. */
  predicate IsEntered<T>(s: State<T>, k: nat) {
    k + 1 < s.end || !(s.producer.ResetTaken? || s.producer.WriteBase? || s.producer.WriteBlock?)
  }

  ghost predicate BlockOk<T>(s: State<T>, k: nat) {
    && s.end - |s.ring| <= k < s.end && At(s, k) < |s.done| && s.entries != []
    && (IsEntered(s, k) ==> s.entries[k % |s.entries|] == Entry(Base(k, s.bs), At(s, k)))
    && (IsReset(s, k) ==> s.done[At(s, k)] + |Left(s, k)| == s.bs)
  }

  ghost predicate CellOk<T>(s: State<T>, i: nat)
    requires i < |s.items|
  {
    && s.bs > 0 && s.low <= i / s.bs && s.end - |s.ring| <= i / s.bs < s.end
    && (At(s, i / s.bs), i % s.bs) in s.cells && s.cells[(At(s, i / s.bs), i % s.bs)] == s.items[i]
  }

  predicate InBlock<T>(s: State<T>, k: int) { s.end - |s.ring| <= k < s.end }

  /** What a consumer has read is what it will need. */
  predicate PcOk<T>(s: State<T>, p: Pc)
    requires s.bs > 0 && s.entries != []
  {
    match p
    case Idle => true
    case LoadFront(i, j) => i < j <= s.head
    case ReadBase(i, j, front, newest) =>
      i < j <= s.head && i / s.bs <= newest < s.published && front == newest % |s.entries|
    case ReadBlock(i, j, slot) => i < j <= s.head && slot == i / s.bs % |s.entries|
    case Read(i, j, slot, b, next) =>
      && i < j <= s.head && slot == i / s.bs % |s.entries|
      && InBlock(s, i / s.bs) && b == At(s, i / s.bs) && i <= next <= Stop(s.bs, i, j)
  }

  predicate Holds(p: Pc, i: nat) { !p.Idle? && p.first <= i < p.stop }

  /** Claimed indices are not marked empty by anyone else, and belong to one consumer. */
  ghost predicate HeldOk<T>(s: State<T>, t: Tid)
    requires t in s.pc
  {
    forall i :: Holds(s.pc[t], i) ==> i !in s.cleared
  }

  ghost predicate Apart<T>(s: State<T>, t: Tid, u: Tid)
    requires t in s.pc && u in s.pc
  {
    t != u && !s.pc[t].Idle? && !s.pc[u].Idle? ==>
      s.pc[t].stop <= s.pc[u].first || s.pc[u].stop <= s.pc[t].first
  }

  /** Between published and end are the blocks claimed by the enqueue under way. */
  predicate ProducerOk<T>(s: State<T>)
    requires s.bs > 0
  {
    match s.producer
    case Ready => s.end == s.published
    case Claiming(op) => s.published < Needed(s, op) && s.end <= Needed(s, op)
      && (op.single ==> s.end == s.published && OneBlock(s, op))
    case ResetTaken(op) => s.end == s.published + 1 && op.single && OneBlock(s, op)
    case WriteBase(op) => s.published < s.end <= Needed(s, op) && (op.single ==> OneBlock(s, op))
    case WriteBlock(op) =>
      && s.published < s.end <= Needed(s, op) && (op.single ==> OneBlock(s, op))
      && s.entries != [] && s.entries[(s.end - 1) % |s.entries|].base == (s.end - 1) * s.bs
    case Resetting(op, k) => s.published <= k < s.end == Needed(s, op)
    case Publish(op) => s.published < s.end == Needed(s, op)
    case Construct(op, n) => s.end == s.published == Needed(s, op) && n <= |op.batch|
  }

  predicate OneBlock<T>(s: State<T>, op: Op<T>)
    requires s.bs > 0
  {
    Needed(s, op) == s.published + 1
  }

  /** The producer's side of the invariant. */
  ghost predicate Shape<T>(s: State<T>) {
    && s.bs > 1 && 0 < |s.entries| && |s.ring| <= |s.entries|
    && Distinct(s.ring) && (forall i :: 0 <= i < |s.ring| ==> s.ring[i] < |s.done|)
    && s.low <= s.published <= s.end && s.end - s.low <= |s.ring|
    && s.head <= s.tail && |s.items| == s.tail + (if s.producer.Construct? then s.producer.n else 0)
    && (!s.producer.Construct? ==> s.published == Started(s.tail, s.bs))
    && (s.published > 0 ==> s.front == (s.published - 1) % |s.entries|)
    && ProducerOk(s)
  }

  ghost predicate ClearedOk<T>(s: State<T>) {
    && (forall i :: i in s.cleared ==> i < s.head)
    && (forall i :: 0 <= i < s.low * s.bs ==> i in s.cleared)
  }

  ghost predicate Inv<T>(s: State<T>) {
    && Shape(s) && ClearedOk(s)
    && (forall k :: s.low <= k < s.end ==> BlockOk(s, k))
    && (forall i :: 0 <= i < |s.items| && i !in s.cleared ==> CellOk(s, i))
    && (forall t :: t in s.pc ==> PcOk(s, s.pc[t]) && HeldOk(s, t))
    && (forall t, u :: t in s.pc && u in s.pc ==> Apart(s, t, u))
    && (forall i :: i in s.taken ==> i < |s.items| && s.taken[i] == s.items[i])
  }

  // ---------------------------------------------------------------- preservation by the producer

  lemma ItemsPublished<T>(s: State<T>)
    requires Shape(s)
    ensures s.head <= s.tail <= |s.items| <= s.published * s.bs
  {
    match s.producer
    case Construct(op, _) => StartedBounds(s.tail + |op.batch|, s.bs);
    case _ => StartedBounds(s.tail, s.bs);
  }

  /** The block of an index not marked empty is one of those that matter. */
  lemma BlockInUse<T>(s: State<T>, i: nat)
    requires Shape(s) && ClearedOk(s) && i < |s.items| && i !in s.cleared
    ensures s.low <= i / s.bs < s.published
  {
    ItemsPublished(s);
    BlockBelow(s.low, i, s.bs);
    BlockAbove(s.published, i, s.bs);
  }

  /** The producer leaves what consumers depend on alone: the blocks of published indices keep their
      numbers, and their elements stay. */
  ghost predicate Leaves<T>(s: State<T>, s': State<T>) {
    && s'.bs == s.bs && |s'.entries| == |s.entries|
    && s'.pc == s.pc && s'.cleared == s.cleared && s'.head == s.head && s'.taken == s.taken
    && s.low <= s'.low && s.published <= s'.published && s.items <= s'.items
    && (forall k :: s'.low <= k < s.published && InBlock(s, k) ==> InBlock(s', k) && At(s', k) == At(s, k))
  }

  lemma LeavesThreadOk<T>(s: State<T>, s': State<T>, t: Tid)
    requires Leaves(s, s') && Shape(s) && Shape(s') && ClearedOk(s')
    requires t in s.pc && PcOk(s, s.pc[t]) && HeldOk(s, t)
    ensures PcOk(s', s'.pc[t])
  {
    if !s.pc[t].Idle? {
      var i := s.pc[t].first;
      assert Holds(s.pc[t], i);
      ItemsPublished(s);
      BlockAbove(s.published, i, s.bs);
      BlockBelow(s'.low, i, s.bs);
    }
  }

  lemma ProducerKeepsInv<T>(s: State<T>, s': State<T>)
    requires Inv(s) && Leaves(s, s') && Shape(s') && ClearedOk(s')
    requires forall k :: s'.low <= k < s'.end ==> BlockOk(s', k)
    requires forall i :: 0 <= i < |s'.items| && i !in s'.cleared ==> CellOk(s', i)
    ensures Inv(s')
  {
    forall t | t in s'.pc ensures PcOk(s', s'.pc[t]) && HeldOk(s', t) {
      assert PcOk(s, s.pc[t]) && HeldOk(s, t);
      LeavesThreadOk(s, s', t);
    }
    forall t, u | t in s'.pc && u in s'.pc ensures Apart(s', t, u) {
      assert Apart(s, t, u);
    }
  }

  lemma LeavesCellOk<T>(s: State<T>, s': State<T>)
    requires Inv(s) && Leaves(s, s') && Shape(s') && ClearedOk(s') && s'.items == s.items && s'.cells == s.cells
    ensures forall i :: 0 <= i < |s'.items| && i !in s'.cleared ==> CellOk(s', i)
  {
    forall i | 0 <= i < |s'.items| && i !in s'.cleared ensures CellOk(s', i) {
      assert CellOk(s, i);
      BlockInUse(s, i);
      BlockInUse(s', i);
    }
  }

  /** A step that only changes what the producer does next. */
  lemma MoveKeepsInv<T>(s: State<T>, s': State<T>)
    requires Inv(s) && s' == s.(producer := s'.producer) && Shape(s')
    requires forall k :: s.low <= k < s.end && IsReset(s', k) ==> IsReset(s, k)
    requires forall k :: s.low <= k < s.end && IsEntered(s', k) ==> IsEntered(s, k)
    ensures Inv(s')
  {
    hide CellOk, PcOk, HeldOk, Apart;
    LeavesCellOk(s, s');
    forall k | s'.low <= k < s'.end ensures BlockOk(s', k) {
      assert BlockOk(s, k) && Left(s', k) == Left(s, k) && At(s', k) == At(s, k);
    }
    ProducerKeepsInv(s, s');
  }

  lemma BeginKeepsInv<T>(s: State<T>, op: Op<T>)
    requires Inv(s) && CanBegin(s, op)
    ensures Inv(BeginStep(s, op))
  {
    hide CellOk, PcOk, HeldOk, Apart, BlockOk;
    StartedGrows(s.tail, |op.batch|, s.bs);
    StartedBounds(s.tail, s.bs);
    MoveKeepsInv(s, BeginStep(s, op));
  }

  lemma TurnDistinct(ring: seq<Block>, n: nat, size: nat)
    requires n <= |ring| && Distinct(ring) && forall i :: 0 <= i < |ring| ==> ring[i] < size
    ensures Distinct(Rotate(ring, n)) && forall i :: 0 <= i < |ring| ==> Rotate(ring, n)[i] < size
  {
    forall i, j | 0 <= i < j < |ring| ensures Rotate(ring, n)[i] != Rotate(ring, n)[j] {
      RotateAt(ring, n, i);
      RotateAt(ring, n, j);
    }
  }

  lemma TurnOnce(ring: seq<Block>, end: nat)
    requires ring != []
    ensures BlockAt(Rotate(ring, 1), end + 1, end) == ring[0]
    ensures forall k :: end + 1 - |ring| <= k < end ==> BlockAt(Rotate(ring, 1), end + 1, k) == BlockAt(ring, end, k)
  {
    RotateAt(ring, 1, |ring| - 1);
    forall k | end + 1 - |ring| <= k < end ensures BlockAt(Rotate(ring, 1), end + 1, k) == BlockAt(ring, end, k) {
      RotateAt(ring, 1, |ring| - end - 1 + k);
    }
  }

  lemma ClearedThrough<T>(s: State<T>, low: nat)
    requires ClearedOk(s) && (low == s.low || (low == s.low + 1 && Left(s, s.low) == {}))
    ensures forall i :: 0 <= i < low * s.bs ==> i in s.cleared
  {
    assert low > s.low ==> low * s.bs == s.low * s.bs + s.bs;
    forall i | 0 <= i < low * s.bs ensures i in s.cleared {
      if i >= s.low * s.bs {
        assert Between(s.low * s.bs, i, s.low * s.bs + s.bs);
        assert i !in Left(s, s.low);
      }
    }
  }

  lemma AheadLeaves<T>(s: State<T>)
    requires Inv(s) && s.producer.Claiming? && CanClaim(s, s.producer.op, Ahead)
    ensures var s' := ClaimStep(s, s.producer.op, Ahead); Leaves(s, s') && Shape(s') && ClearedOk(s')
  {
    hide CellOk, PcOk, HeldOk, Apart, Rotate, BlockOk, Started;
    var s' := ClaimStep(s, s.producer.op, Ahead);
    TurnOnce(s.ring, s.end);
    TurnDistinct(s.ring, 1, |s.done|);
    LowCleared(s);
    ClearedThrough(s, s'.low);
  }

  /** Taking the empty block ahead: if it is block low, all its indices are marked empty. */
  lemma AheadKeepsInv<T>(s: State<T>)
    requires Inv(s) && s.producer.Claiming? && CanClaim(s, s.producer.op, Ahead)
    ensures Inv(ClaimStep(s, s.producer.op, Ahead))
  {
    hide CellOk, PcOk, HeldOk, Apart, Rotate, Leaves;
    var s' := ClaimStep(s, s.producer.op, Ahead);
    AheadLeaves(s);
    TurnOnce(s.ring, s.end);
    LeavesCellOk(s, s');
    forall k | s'.low <= k < s'.end ensures BlockOk(s', k) {
      assert k < s.end ==> BlockOk(s, k) && Left(s', k) == Left(s, k);
    }
    ProducerKeepsInv(s, s');
  }

  lemma LowCleared<T>(s: State<T>)
    requires Inv(s) && s.producer.Claiming? && CanClaim(s, s.producer.op, Ahead)
    ensures s.low + |s.ring| < s.end + 1 ==> s.low + |s.ring| == s.end && Left(s, s.low) == {}
  {
    if s.low + |s.ring| < s.end + 1 {
      assert BlockOk(s, s.low);
      assert At(s, s.low) == s.ring[0];
    }
  }

  /** Inserting a block from the pool. */
  lemma NewKeepsInv<T>(s: State<T>, b: Block)
    requires Inv(s) && s.producer.Claiming? && CanClaim(s, s.producer.op, New(b))
    ensures Inv(ClaimStep(s, s.producer.op, New(b)))
  {
    hide CellOk, PcOk, HeldOk, Apart;
    var s' := ClaimStep(s, s.producer.op, New(b));
    NewLeaves(s, b);
    LeavesCellOk(s, s');
    forall k | s'.low <= k < s'.end ensures BlockOk(s', k) {
      if k < s.end {
        assert BlockOk(s, k) && Left(s', k) == Left(s, k) && At(s', k) == At(s, k) == s.ring[|s.ring| - s.end + k];
      } else {
        NothingMarked(s', k);
      }
    }
    ProducerKeepsInv(s, s');
  }

  lemma NewLeaves<T>(s: State<T>, b: Block)
    requires Inv(s) && s.producer.Claiming? && CanClaim(s, s.producer.op, New(b))
    ensures var s' := ClaimStep(s, s.producer.op, New(b)); Leaves(s, s') && Shape(s') && ClearedOk(s')
  {
    hide CellOk, PcOk, HeldOk, Apart, BlockOk, Started;
    var s' := ClaimStep(s, s.producer.op, New(b));
    forall k | s.low <= k < s.published && InBlock(s, k) ensures InBlock(s', k) && At(s', k) == At(s, k) {
    }
  }

  /** No index of a block that has not been published is marked empty. */
  lemma NothingMarked<T>(s: State<T>, k: nat)
    requires Shape(s) && ClearedOk(s) && s.published <= k
    ensures |Left(s, k)| == s.bs
  {
    ItemsPublished(s);
    MulMonotone(s.published, k, s.bs);
    assert Left(s, k) == Range(k * s.bs, k * s.bs + s.bs);
    RangeSize(k * s.bs, s.bs);
  }

  /** Undoing the claims: blocks low, ... published - 1 keep their numbers. */
  lemma FailKeepsInv<T>(s: State<T>, p: nat)
    requires Inv(s) && s.producer.Claiming? && CanClaim(s, s.producer.op, Fail(p))
    ensures Inv(ClaimStep(s, s.producer.op, Fail(p)))
  {
    hide CellOk, PcOk, HeldOk, Apart, Rotate;
    var s' := ClaimStep(s, s.producer.op, Fail(p));
    FailLeaves(s, p);
    LeavesCellOk(s, s');
    forall k | s'.low <= k < s'.end ensures BlockOk(s', k) {
      assert BlockOk(s, k) && Left(s', k) == Left(s, k);
    }
    ProducerKeepsInv(s, s');
  }

  lemma FailLeaves<T>(s: State<T>, p: nat)
    requires Inv(s) && s.producer.Claiming? && CanClaim(s, s.producer.op, Fail(p))
    ensures var s' := ClaimStep(s, s.producer.op, Fail(p)); Leaves(s, s') && Shape(s') && ClearedOk(s')
  {
    hide CellOk, PcOk, HeldOk, Apart, BlockOk, Started, Rotate;
    var s' := ClaimStep(s, s.producer.op, Fail(p));
    TurnDistinct(s.ring, p, |s.done|);
    forall k | s.low <= k < s.published && InBlock(s, k) ensures InBlock(s', k) && At(s', k) == At(s, k) {
      RotateAt(s.ring, p, |s.ring| - s.published + k);
    }
  }

  lemma ResetBlockOk<T>(s: State<T>, s': State<T>, next: ProducerPc<T>, k0: nat, k: nat)
    requires Shape(s) && ClearedOk(s) && s.published <= k0 < s.end && s.low <= k < s.end && BlockOk(s, k)
    requires InBlock(s, k0) && At(s, k0) < |s.done| && s' == s.(done := s.done[At(s, k0) := 0], producer := next)
    requires IsReset(s', k) ==> k == k0 || IsReset(s, k)
    requires IsEntered(s', k) ==> IsEntered(s, k)
    ensures BlockOk(s', k)
  {
    hide Shape, ClearedOk, IsReset, IsEntered, Range;
    assert Left(s', k) == Left(s, k) && At(s', k) == At(s, k);
    if k == k0 {
      NothingMarked(s, k);
    } else {
      assert At(s, k) != At(s, k0) by { DifferentAt(s, k, k0); }
    }
  }

  lemma DifferentAt<T>(s: State<T>, k: nat, k0: nat)
    requires Shape(s) && InBlock(s, k) && InBlock(s, k0) && k != k0
    ensures At(s, k) != At(s, k0)
  {
    assert s.ring[|s.ring| - s.end + k] != s.ring[|s.ring| - s.end + k0];
  }

  /** Resetting a block that has been claimed and not published. */
  lemma ResetKeepsInv<T>(s: State<T>, s': State<T>, k0: nat, next: ProducerPc<T>)
    requires Inv(s) && s.published <= k0 < s.end && s'.ring == s.ring && s'.end == s.end
    requires s' == s.(done := s.done[At(s, k0) := 0], producer := next) && Shape(s')
    requires next.WriteBase? || next.Resetting? || next.Publish?
    requires forall k :: s.published <= k < s.end && IsReset(s', k) ==> k == k0 || IsReset(s, k)
    requires forall k :: s.low <= k < s.end && IsEntered(s', k) ==> IsEntered(s, k)
    ensures Inv(s')
  {
    hide CellOk, PcOk, HeldOk, Apart, BlockOk, Started;
    LeavesCellOk(s, s');
    forall k | s'.low <= k < s'.end ensures BlockOk(s', k) {
      assert BlockOk(s, k);
      ResetBlockOk(s, s', next, k0, k);
    }
    ProducerKeepsInv(s, s');
  }

  /** Writing the last block's index entry overwrites none that is still needed. */
  lemma WriteKeepsInv<T>(s: State<T>, s': State<T>, e: Entry, next: ProducerPc<T>)
    requires HasTail(s) && s.published < s.end
    requires s' == s.(entries := s.entries[(s.end - 1) % |s.entries| := e], producer := next)
    requires IsEntered(s', s.end - 1) ==> e == Entry((s.end - 1) * s.bs, At(s, s.end - 1))
    requires forall k :: s.low <= k < s.end && IsReset(s', k) ==> IsReset(s, k)
    requires Inv(s) && Shape(s')
    ensures Inv(s')
  {
    hide CellOk, PcOk, HeldOk, Apart;
    LeavesCellOk(s, s');
    forall k | s'.low <= k < s'.end ensures BlockOk(s', k) {
      assert BlockOk(s, k) && Left(s', k) == Left(s, k) && At(s', k) == At(s, k);
      if k < s.end - 1 {
        ModDistinct(k, s.end - 1, |s.entries|);
      }
    }
    ProducerKeepsInv(s, s');
  }

  lemma PublishKeepsInv<T>(s: State<T>, c: Choice)
    requires Inv(s) && s.producer.Publish? && CanProduce(s, c)
    ensures Inv(ProduceStep(s, c))
  {
    hide CellOk, PcOk, HeldOk, Apart;
    var s' := ProduceStep(s, c);
    assert Shape(s');
    LeavesCellOk(s, s');
    forall k | s'.low <= k < s'.end ensures BlockOk(s', k) {
      assert BlockOk(s, k) && Left(s', k) == Left(s, k) && At(s', k) == At(s, k);
    }
    ProducerKeepsInv(s, s');
  }

  /** Two indices of live blocks never share a cell. */
  lemma CellsDiffer<T>(s: State<T>, i: nat, j: nat)
    requires s.bs > 0 && Distinct(s.ring) && InBlock(s, i / s.bs) && InBlock(s, j / s.bs) && i != j
    ensures (At(s, i / s.bs), i % s.bs) != (At(s, j / s.bs), j % s.bs)
  {
    DivBounds(i, s.bs);
    DivBounds(j, s.bs);
    var p, q := |s.ring| - s.end + i / s.bs, |s.ring| - s.end + j / s.bs;
    assert At(s, i / s.bs) == s.ring[p] && At(s, j / s.bs) == s.ring[q];
  }

  lemma ConstructKeepsInv<T>(s: State<T>, c: Choice)
    requires Inv(s) && s.producer.Construct? && s.producer.n < |s.producer.op.batch| && CanProduce(s, c)
    ensures Inv(ProduceStep(s, c))
  {
    hide PcOk, HeldOk, Apart;
    var s' := ProduceStep(s, c);
    assert Shape(s');
    forall k | s'.low <= k < s'.end ensures BlockOk(s', k) {
      assert BlockOk(s, k) && Left(s', k) == Left(s, k) && At(s', k) == At(s, k);
    }
    forall i | 0 <= i < |s'.items| && i !in s'.cleared ensures CellOk(s', i) {
      BlockInUse(s', i);
      if i < |s.items| {
        assert CellOk(s, i);
        CellsDiffer(s, i, s.tail + s.producer.n);
      }
    }
    ProducerKeepsInv(s, s');
  }

  lemma StoreTailKeepsInv<T>(s: State<T>, c: Choice)
    requires Inv(s) && s.producer.Construct? && s.producer.n == |s.producer.op.batch|
    ensures Inv(ProduceStep(s, c))
  {
    hide CellOk, PcOk, HeldOk, Apart;
    var s' := ProduceStep(s, c);
    assert Shape(s');
    LeavesCellOk(s, s');
    forall k | s'.low <= k < s'.end ensures BlockOk(s', k) {
      assert BlockOk(s, k) && Left(s', k) == Left(s, k) && At(s', k) == At(s, k);
    }
    ProducerKeepsInv(s, s');
  }

  lemma ClaimKeepsInv<T>(s: State<T>, c: Choice)
    requires Inv(s) && s.producer.Claiming? && CanClaim(s, s.producer.op, c)
    ensures Inv(ClaimStep(s, s.producer.op, c))
  {
    hide CellOk, PcOk, HeldOk, Apart, BlockOk, Started;
    match c {
      case Ahead => AheadKeepsInv(s);
      case New(b) => NewKeepsInv(s, b);
      case Fail(p) => FailKeepsInv(s, p);
      case Go => MoveKeepsInv(s, ClaimStep(s, s.producer.op, c));
    }
  }

  lemma ResetStepKeepsInv<T>(s: State<T>, c: Choice)
    requires Inv(s) && (s.producer.ResetTaken? || s.producer.Resetting?) && CanProduce(s, c)
    ensures Inv(ProduceStep(s, c))
  {
    hide CellOk, PcOk, HeldOk, Apart, BlockOk, Started;
    var s' := ProduceStep(s, c);
    ResetKeepsInv(s, s', if s.producer.ResetTaken? then s.end - 1 else s.producer.k, s'.producer);
  }

  lemma WriteStepKeepsInv<T>(s: State<T>, c: Choice)
    requires Inv(s) && (s.producer.WriteBase? || s.producer.WriteBlock?) && CanProduce(s, c)
    ensures Inv(ProduceStep(s, c))
  {
    hide CellOk, PcOk, HeldOk, Apart, BlockOk, Started;
    var s' := ProduceStep(s, c);
    WriteKeepsInv(s, s', s'.entries[(s.end - 1) % |s.entries|], s'.producer);
  }

  lemma ProduceKeepsInv<T>(s: State<T>, c: Choice)
    requires Inv(s) && CanProduce(s, c)
    ensures Inv(ProduceStep(s, c))
  {
    hide Inv;
    if s.producer.Claiming? {
      ClaimKeepsInv(s, c);
    } else if s.producer.ResetTaken? || s.producer.Resetting? {
      ResetStepKeepsInv(s, c);
    } else if s.producer.WriteBase? || s.producer.WriteBlock? {
      WriteStepKeepsInv(s, c);
    } else if s.producer.Publish? {
      PublishKeepsInv(s, c);
    } else if s.producer.n < |s.producer.op.batch| {
      ConstructKeepsInv(s, c);
    } else {
      AllConstructed(s);
      StoreTailKeepsInv(s, c);
    }
  }

  lemma AllConstructed<T>(s: State<T>)
    requires Inv(s)
    ensures s.bs > 0 && ProducerOk(s)
  {
  }

  // ---------------------------------------------------------------- preservation by the consumers

  ghost predicate ThreadsOk<T>(s: State<T>) {
    && s.bs > 0 && s.entries != []
    && (forall t :: t in s.pc ==> PcOk(s, s.pc[t]) && HeldOk(s, t))
    && (forall t, u :: t in s.pc && u in s.pc ==> Apart(s, t, u))
  }

  /** A step of consumer t that marks nothing empty keeps the producer's side. */
  lemma ConsumerKeepsInv<T>(s: State<T>, s': State<T>, t: Tid)
    requires Inv(s) && ThreadsOk(s')
    requires s' == s.(pc := s'.pc, taken := s'.taken, head := s'.head) && s.head <= s'.head <= s.tail
    requires forall i :: i in s'.taken ==> i < |s'.items| && s'.taken[i] == s'.items[i]
    ensures Inv(s')
  {
    hide PcOk, HeldOk, Apart;
    forall k | s'.low <= k < s'.end ensures BlockOk(s', k) {
      assert BlockOk(s, k) && Left(s', k) == Left(s, k) && At(s', k) == At(s, k);
    }
    forall i | 0 <= i < |s'.items| && i !in s'.cleared ensures CellOk(s', i) {
      assert CellOk(s, i);
    }
  }

  /** A step of t that keeps its claim. */
  lemma ThreadMoves<T>(s: State<T>, s': State<T>, t: Tid, p: Pc)
    requires Inv(s) && t in s.pc && s' == s.(pc := s.pc[t := p], taken := s'.taken)
    requires !s.pc[t].Idle? && !p.Idle? && p.first == s.pc[t].first && p.stop == s.pc[t].stop && PcOk(s', p)
    ensures ThreadsOk(s')
  {
    forall u | u in s'.pc ensures PcOk(s', s'.pc[u]) && HeldOk(s', u) {
      assert PcOk(s, s.pc[u]) && HeldOk(s, u);
      if u == t {
        forall i | Holds(p, i) ensures i !in s'.cleared {
          assert Holds(s.pc[t], i);
        }
      }
    }
    forall u, v | u in s'.pc && v in s'.pc ensures Apart(s', u, v) {
      assert Apart(s, u, v);
    }
  }

  /** The block of a claimed index is entered, and its entry is the one the lookup leads to. */
  lemma HeldBlock<T>(s: State<T>, t: Tid)
    requires Inv(s) && t in s.pc && !s.pc[t].Idle?
    ensures var k := s.pc[t].first / s.bs;
            && s.low <= k < s.published && BlockOk(s, k)
            && s.entries[k % |s.entries|] == Entry(k * s.bs, At(s, k))
            && s.done[At(s, k)] + |Left(s, k)| == s.bs
  {
    var i := s.pc[t].first;
    assert PcOk(s, s.pc[t]) && HeldOk(s, t) && Holds(s.pc[t], i);
    ItemsPublished(s);
    BlockInUse(s, i);
    assert BlockOk(s, i / s.bs);
  }

  lemma ReadFrontKeepsInv<T>(s: State<T>, t: Tid)
    requires Inv(s) && CanConsume(s, t) && s.pc[t].LoadFront?
    ensures Inv(ConsumeStep(s, t))
  {
    hide CellOk, BlockOk, HeldOk, Apart;
    var s' := ConsumeStep(s, t);
    assert PcOk(s, s.pc[t]);
    HeldBlock(s, t);
    ThreadMoves(s, s', t, s'.pc[t]);
    ConsumerKeepsInv(s, s', t);
  }

  lemma ReadBaseKeepsInv<T>(s: State<T>, t: Tid)
    requires Inv(s) && CanConsume(s, t) && s.pc[t].ReadBase?
    ensures Inv(ConsumeStep(s, t))
  {
    hide CellOk, HeldOk, Apart;
    var s' := ConsumeStep(s, t);
    var ReadBase(i, j, front, newest) := s.pc[t];
    assert PcOk(s, s.pc[t]);
    HeldBlock(s, t);
    assert BlockOk(s, newest);
    LookupFinds(front, newest, i, s.bs, |s.entries|);
    ThreadMoves(s, s', t, s'.pc[t]);
    ConsumerKeepsInv(s, s', t);
  }

  lemma ReadBlockKeepsInv<T>(s: State<T>, t: Tid)
    requires Inv(s) && CanConsume(s, t) && s.pc[t].ReadBlock?
    ensures Inv(ConsumeStep(s, t))
  {
    hide CellOk, HeldOk, Apart;
    var s' := ConsumeStep(s, t);
    assert PcOk(s, s.pc[t]);
    HeldBlock(s, t);
    DivBounds(s.pc[t].first, s.bs);
    ThreadMoves(s, s', t, s'.pc[t]);
    ConsumerKeepsInv(s, s', t);
  }

  /** The indices a consumer reads before it marks them empty are in one block. */
  lemma SameBlock(bs: nat, i: nat, j: nat, next: nat)
    requires bs > 0 && i <= next < Stop(bs, i, j)
    ensures next / bs == i / bs && next < j
  {
    DivBounds(i, bs);
    ModUnique(next, bs, i / bs, next - i / bs * bs);
  }

  /** What a consumer reads is the element with its index. */
  lemma ReadsElement<T>(s: State<T>, t: Tid)
    requires Inv(s) && t in s.pc && s.pc[t].Read? && s.pc[t].next < Stop(s.bs, s.pc[t].first, s.pc[t].stop)
    ensures var Read(i, j, slot, b, next) := s.pc[t];
            next < |s.items| && (b, next % s.bs) in s.cells && s.cells[(b, next % s.bs)] == s.items[next]
  {
    var Read(i, j, slot, b, next) := s.pc[t];
    assert PcOk(s, s.pc[t]) && HeldOk(s, t);
    SameBlock(s.bs, i, j, next);
    assert Holds(s.pc[t], next);
    ItemsPublished(s);
    assert CellOk(s, next);
  }

  lemma ReadKeepsInv<T>(s: State<T>, t: Tid)
    requires Inv(s) && CanConsume(s, t) && s.pc[t].Read? && s.pc[t].next < Stop(s.bs, s.pc[t].first, s.pc[t].stop)
    ensures Inv(ConsumeStep(s, t))
  {
    hide CellOk, BlockOk, HeldOk, Apart;
    var s' := ConsumeStep(s, t);
    ReadsElement(s, t);
    assert PcOk(s, s.pc[t]);
    ThreadMoves(s, s', t, s'.pc[t]);
    ConsumerKeepsInv(s, s', t);
  }

  /** Marking the indices i, ... next - 1 empty, seen from the block with the indices lo, ... hi - 1. */
  lemma LeftAfter(lo: nat, hi: nat, cleared: set<nat>, i: nat, next: nat)
    requires lo <= hi && i <= next && forall j :: i <= j < next ==> j !in cleared
    ensures lo <= i && next <= hi ==>
              |Range(lo, hi) - (cleared + Range(i, next))| == |Range(lo, hi) - cleared| - (next - i)
    ensures next <= lo || hi <= i ==> Range(lo, hi) - (cleared + Range(i, next)) == Range(lo, hi) - cleared
  {
    if lo <= i && next <= hi {
      RangeSize(i, next - i);
      forall j | j in Range(i, next) ensures j in Range(lo, hi) - cleared {
        assert Between(i, j, next);
        assert Between(lo, j, hi);
      }
      assert Range(lo, hi) - (cleared + Range(i, next)) == Range(lo, hi) - cleared - Range(i, next);
      SubsetSize(Range(i, next), Range(lo, hi) - cleared);
    } else if next <= lo || hi <= i {
      forall j | j in Range(lo, hi) ensures j !in Range(i, next) {
        assert Between(lo, j, hi);
      }
    }
  }

  predicate Emptying<T>(s: State<T>, t: Tid)
    requires s.bs > 0
  {
    && s.entries != [] && t in s.pc && s.pc[t].Read?
    && s.pc[t].block < |s.done| && s.pc[t].first <= s.pc[t].next
    && s.pc[t].next >= Stop(s.bs, s.pc[t].first, s.pc[t].stop)
  }

  /** A consumer that marks indices empty has read all of its claim in that block, or up to its end. */
  lemma EmptyingRange<T>(s: State<T>, t: Tid) returns (k: nat)
    requires Inv(s) && Emptying(s, t)
    ensures s.bs > 1 && s.entries != []
    ensures var Read(i, j, slot, b, next) := s.pc[t];
            && Base(k, s.bs) <= i < next <= Base(k, s.bs) + s.bs && next <= j
            && (next < j ==> next == Base(k, s.bs) + s.bs)
            && (forall n :: i <= n < next ==> n !in s.cleared)
            && InBlock(s, k) && b == At(s, k) && slot == k % |s.entries|
  {
    hide Inv;
    ThreadFacts(s, t);
    var Read(i, j, slot, b, next) := s.pc[t];
    k := i / s.bs;
    DivBounds(i, s.bs);
    NextMultiple(k, k + 1, s.bs);
    forall n | i <= n < next ensures n !in s.cleared {
      assert Holds(s.pc[t], n);
    }
  }

  lemma EmptyBlockOk<T>(s: State<T>, t: Tid, k: nat)
    requires Inv(s) && Emptying(s, t) && s.low <= k < s.end
    ensures BlockOk(EmptyStep(s, t), k)
  {
    hide Inv, Base, Stop, Floor;
    BlockFacts(s, k);
    var s' := EmptyStep(s, t);
    EmptyCounts(s, t, k);
    HeldBlock(s, t);
    assert At(s', k) == At(s, k);
    assert IsReset(s', k) == IsReset(s, k) && IsEntered(s', k) == IsEntered(s, k);
  }

  /** The count of block k goes up by as much as its indices not marked empty go down. */
  lemma EmptyCounts<T>(s: State<T>, t: Tid, k: nat)
    requires Inv(s) && Emptying(s, t) && s.low <= k < s.end
    ensures InBlock(s, k) && At(s, k) < |s.done|
    ensures var s' := EmptyStep(s, t);
            |s'.done| == |s.done| && s'.done[At(s, k)] + |Left(s', k)| == s.done[At(s, k)] + |Left(s, k)|
  {
    hide Inv, Base, Stop, Floor, Range;
    BlockFacts(s, k);
    var Read(i, j, slot, b, next) := s.pc[t];
    var k0 := EmptyingRange(s, t);
    hide Emptying, BlockOk, Distinct;
    CountsAfter(s.ring, s.end, s.done, s.cleared, s.bs, k, k0, i, next);
  }

  lemma CountsAfter(ring: seq<Block>, end: nat, done: seq<nat>, cleared: set<nat>, bs: nat, k: nat, k0: nat, i: nat,
                    next: nat)
    requires bs > 1 && Distinct(ring) && end - |ring| <= k < end && end - |ring| <= k0 < end
    requires BlockAt(ring, end, k) < |done| && BlockAt(ring, end, k0) < |done|
    requires Base(k0, bs) <= i <= next <= Base(k0, bs) + bs && forall j :: i <= j < next ==> j !in cleared
    ensures var b, all := BlockAt(ring, end, k), Range(Base(k, bs), Base(k, bs) + bs);
            var b0 := BlockAt(ring, end, k0);
            done[b0 := done[b0] + (next - i)][b] + |all - (cleared + Range(i, next))| == done[b] + |all - cleared|
  {
    hide Base;
    DistinctBlocks(ring, end, k, k0);
    OtherBlock(k, k0, bs);
    LeftAfter(Base(k, bs), Base(k, bs) + bs, cleared, i, next);
  }

  lemma DistinctBlocks(ring: seq<Block>, end: nat, k: nat, k0: nat)
    requires Distinct(ring) && end - |ring| <= k < end && end - |ring| <= k0 < end
    ensures k != k0 ==> BlockAt(ring, end, k) != BlockAt(ring, end, k0)
  {
    var i, j := |ring| - end + k, |ring| - end + k0;
    assert i < j ==> ring[i] != ring[j];
    assert j < i ==> ring[j] != ring[i];
  }

  lemma BlockFacts<T>(s: State<T>, k: nat)
    requires Inv(s) && s.low <= k < s.end
    ensures BlockOk(s, k) && Distinct(s.ring) && s.bs > 1 && s.published <= s.end
  {
  }

  lemma OtherBlock(k: nat, k0: nat, bs: nat)
    requires bs > 1
    ensures k < k0 ==> Base(k, bs) + bs <= Base(k0, bs)
    ensures k0 < k ==> Base(k0, bs) + bs <= Base(k, bs)
  {
    NextMultiple(k, k0, bs);
    NextMultiple(k0, k, bs);
  }

  lemma EmptyThreadsOk<T>(s: State<T>, t: Tid)
    requires Inv(s) && Emptying(s, t)
    ensures ThreadsOk(EmptyStep(s, t))
  {
    hide CellOk, BlockOk, Stop;
    var s' := EmptyStep(s, t);
    EmptyOwnOk(s, t);
    forall u | u in s'.pc ensures PcOk(s', s'.pc[u]) && HeldOk(s', u) {
      if u != t {
        EmptyOtherOk(s, t, u);
      }
    }
    EmptyApart(s, t);
  }

  /** What is left of t's claim begins with the next block, whose entry is the next one. */
  lemma EmptyOwnOk<T>(s: State<T>, t: Tid)
    requires Inv(s) && Emptying(s, t)
    ensures var s' := EmptyStep(s, t); s'.bs > 0 && s'.entries != [] && PcOk(s', s'.pc[t]) && HeldOk(s', t)
  {
    hide CellOk, BlockOk, Apart, Stop, Base, Shape, ClearedOk;
    ThreadFacts(s, t);
    var s' := EmptyStep(s, t);
    var Read(i, j, slot, b, next) := s.pc[t];
    var k := EmptyingRange(s, t);
    if next < j {
      NextSlot(k, next, s.bs, |s.entries|);
    }
    forall n | Holds(s'.pc[t], n) ensures n !in s'.cleared {
      assert Holds(s.pc[t], n);
    }
  }

  lemma NextSlot(k: nat, next: nat, bs: nat, size: nat)
    requires bs > 0 && size > 0 && next == Base(k, bs) + bs
    ensures next / bs == k + 1 && (k % size + 1) % size == (k + 1) % size
  {
    assert (k + 1) * bs == k * bs + bs;
    ModUnique(next, bs, k + 1, 0);
    ModShift(k, 1, size);
  }

  lemma ThreadFacts<T>(s: State<T>, t: Tid)
    requires Inv(s) && t in s.pc
    ensures s.bs > 1 && s.entries != [] && PcOk(s, s.pc[t]) && HeldOk(s, t)
  {
  }

  lemma EmptyOtherOk<T>(s: State<T>, t: Tid, u: Tid)
    requires Inv(s) && Emptying(s, t) && u in s.pc && u != t
    ensures var s' := EmptyStep(s, t); s'.bs > 0 && s'.entries != [] && PcOk(s', s'.pc[u]) && HeldOk(s', u)
  {
    hide CellOk, BlockOk, Stop;
    var s' := EmptyStep(s, t);
    var _ := EmptyingRange(s, t);
    assert PcOk(s, s.pc[u]) && HeldOk(s, u) && Apart(s, t, u);
    forall n | Holds(s'.pc[u], n) ensures n !in s'.cleared {
      assert Holds(s.pc[u], n);
    }
  }

  lemma EmptyApart<T>(s: State<T>, t: Tid)
    requires Inv(s) && Emptying(s, t)
    ensures var s' := EmptyStep(s, t); forall u, v :: u in s'.pc && v in s'.pc ==> Apart(s', u, v)
  {
    hide CellOk, BlockOk, HeldOk, PcOk, Stop;
    var s' := EmptyStep(s, t);
    var _ := EmptyingRange(s, t);
    forall u, v | u in s'.pc && v in s'.pc ensures Apart(s', u, v) {
      assert Apart(s, u, v);
    }
  }

  /** set_many_empty: the indices first, ... next - 1. */
  lemma EmptyKeepsInv<T>(s: State<T>, t: Tid)
    requires Inv(s) && Emptying(s, t)
    ensures Inv(EmptyStep(s, t))
  {
    hide PcOk, HeldOk, Apart, BlockOk;
    var s' := EmptyStep(s, t);
    forall k | s'.low <= k < s'.end ensures BlockOk(s', k) {
      EmptyBlockOk(s, t, k);
    }
    EmptyThreadsOk(s, t);
    MarkedBelowHead(s, t);
    forall i | 0 <= i < |s'.items| && i !in s'.cleared ensures CellOk(s', i) {
      assert CellOk(s, i);
    }
  }

  lemma MarkedBelowHead<T>(s: State<T>, t: Tid)
    requires Inv(s) && Emptying(s, t)
    ensures ClearedOk(EmptyStep(s, t))
  {
    hide CellOk, BlockOk, HeldOk, Apart;
    assert PcOk(s, s.pc[t]);
    var _ := EmptyingRange(s, t);
  }

  lemma ConsumeKeepsInv<T>(s: State<T>, t: Tid)
    requires Inv(s) && CanConsume(s, t)
    ensures Inv(ConsumeStep(s, t))
  {
    hide Inv;
    if s.pc[t].LoadFront? {
      ReadFrontKeepsInv(s, t);
    } else if s.pc[t].ReadBase? {
      ReadBaseKeepsInv(s, t);
    } else if s.pc[t].ReadBlock? {
      ReadBlockKeepsInv(s, t);
    } else if s.pc[t].next < Stop(s.bs, s.pc[t].first, s.pc[t].stop) {
      ReadKeepsInv(s, t);
    } else {
      EmptyKeepsInv(s, t);
    }
  }

  lemma ClaimIndicesKeepsInv<T>(s: State<T>, t: Tid, count: nat)
    requires Inv(s) && CanClaimIndices(s, t, count)
    ensures Inv(ClaimIndices(s, t, count))
  {
    hide CellOk, BlockOk;
    var s' := ClaimIndices(s, t, count);
    forall u | u in s'.pc ensures PcOk(s', s'.pc[u]) && HeldOk(s', u) {
      assert PcOk(s, s.pc[u]) && HeldOk(s, u);
    }
    forall u, v | u in s'.pc && v in s'.pc ensures Apart(s', u, v) {
      assert Apart(s, u, v) && PcOk(s, s.pc[u]) && PcOk(s, s.pc[v]);
    }
    ConsumerKeepsInv(s, s', t);
  }

  lemma StepKeepsInv<T>(s: State<T>, a: Action<T>)
    requires Inv(s) && Enabled(s, a)
    ensures Inv(Step(s, a))
  {
    hide Inv;
    match a
    case Begin(op) => BeginKeepsInv(s, op);
    case Produce(c) => ProduceKeepsInv(s, c);
    case Claim(t, n) => ClaimIndicesKeepsInv(s, t, n);
    case Consume(t) => ConsumeKeepsInv(s, t);
  }

  // ---------------------------------------------------------------- whole runs

  ghost function Init<T>(bs: nat, poolSize: nat, indexSize: nat, tids: set<Tid>): State<T> {
    State(bs, [], 0, Ready, seq(poolSize, _ => 0), seq(indexSize, _ => Entry(0, 0)), 0, 0, 0, map[],
          map t | t in tids :: Idle, 0, 0, {}, [], map[])
  }

  lemma InitInv<T>(bs: nat, poolSize: nat, indexSize: nat, tids: set<Tid>)
    requires bs > 1 && indexSize > 0
    ensures Inv(Init<T>(bs, poolSize, indexSize, tids))
  {
    ModUnique(bs - 1, bs, 0, bs - 1);
  }

  /** Any interleaving; an action that is not possible in its state is skipped. */
  ghost function Run<T>(s: State<T>, schedule: seq<Action<T>>): (s': State<T>)
    requires Inv(s)
    ensures Inv(s')
    decreases |schedule|
  {
    if schedule == [] then s
    else if Enabled(s, schedule[0]) then
      StepKeepsInv(s, schedule[0]);
      Run(Step(s, schedule[0]), schedule[1..])
    else
      Run(s, schedule[1..])
  }

  /** Whatever the interleaving, consumers read exactly the elements with the indices they claimed. */
  lemma ConsumersReadTheirElements<T>(bs: nat, poolSize: nat, indexSize: nat, tids: set<Tid>, schedule: seq<Action<T>>)
    requires bs > 1 && indexSize > 0
    ensures Inv(Init<T>(bs, poolSize, indexSize, tids))
    ensures var s := Run(Init<T>(bs, poolSize, indexSize, tids), schedule);
            forall i :: i in s.taken ==> i < |s.items| && s.taken[i] == s.items[i]
  {
    InitInv<T>(bs, poolSize, indexSize, tids);
  }

  // ---------------------------------------------------------------- what the invariant gives

  /** From the fetch_add that claims index i until it is marked empty, the lookup leads to the entry of its
      block, that entry names the block, and the block holds the element. */
  lemma LookupReaches<T>(s: State<T>, i: nat)
    requires Inv(s) && i < s.head && i !in s.cleared
    ensures s.front < |s.entries|
    ensures var slot := LookupSlot(s.front, s.entries[s.front].base, i, s.bs, |s.entries|);
            var b := s.entries[slot].block;
            && s.entries[slot].base == Floor(i, s.bs)
            && (b, i % s.bs) in s.cells && s.cells[(b, i % s.bs)] == s.items[i]
  {
    ItemsPublished(s);
    BlockInUse(s, i);
    var k := i / s.bs;
    assert BlockOk(s, k) && BlockOk(s, s.published - 1) && CellOk(s, i);
    LookupFinds(s.front, s.published - 1, i, s.bs, |s.entries|);
    DivBounds(i, s.bs);
  }

  lemma ProduceLeaves<T>(s: State<T>, c: Choice)
    requires Inv(s) && CanProduce(s, c)
    ensures Leaves(s, ProduceStep(s, c))
  {
    hide CellOk, PcOk, HeldOk, Apart, BlockOk, Started;
    if s.producer.Claiming? {
      match c {
        case Ahead => AheadLeaves(s);
        case New(b) => NewLeaves(s, b);
        case Fail(p) => FailLeaves(s, p);
        case Go =>
      }
    }
  }

  /** No step of the producer touches what a claimed index depends on: neither the block it is in, nor
      that block's count or index entry, nor its cell. */
  lemma ProducerLeavesHeldAlone<T>(s: State<T>, c: Choice, i: nat)
    requires Inv(s) && CanProduce(s, c) && i < s.head && i !in s.cleared
    ensures var s' := ProduceStep(s, c);
            var k := i / s.bs;
            && InBlock(s, k) && InBlock(s', k) && At(s', k) == At(s, k)
            && At(s, k) < |s.done| && At(s, k) < |s'.done| && s'.done[At(s, k)] == s.done[At(s, k)]
            && |s'.entries| == |s.entries| > 0 && s'.entries[k % |s.entries|] == s.entries[k % |s.entries|]
            && (At(s, k), i % s.bs) in s.cells && (At(s, k), i % s.bs) in s'.cells
            && s'.cells[(At(s, k), i % s.bs)] == s.cells[(At(s, k), i % s.bs)]
  {
    hide Inv, BlockOk, CellOk, ProduceStep, CanProduce, Shape;
    var s' := ProduceStep(s, c);
    ProduceKeepsInv(s, c);
    ProduceLeaves(s, c);
    SizesKept(s, c);
    HeldIndexOk(s, i);
    HeldIndexOk(s', i);
  }

  lemma SizesKept<T>(s: State<T>, c: Choice)
    requires Inv(s) && CanProduce(s, c)
    ensures s.bs > 0 && s.head <= |s.items|
  {
    ItemsPublished(s);
  }

  lemma HeldIndexOk<T>(s: State<T>, i: nat)
    requires Inv(s) && i < s.head && i !in s.cleared
    ensures var k := i / s.bs;
            && s.low <= k < s.published && InBlock(s, k) && At(s, k) < |s.done| && s.entries != []
            && s.entries[k % |s.entries|] == Entry(k * s.bs, At(s, k))
            && s.done[At(s, k)] + |Left(s, k)| == s.bs
            && i < |s.items| && (At(s, k), i % s.bs) in s.cells && s.cells[(At(s, k), i % s.bs)] == s.items[i]
  {
    hide PcOk, HeldOk, Apart;
    ItemsPublished(s);
    BlockInUse(s, i);
    assert BlockOk(s, i / s.bs) && CellOk(s, i);
  }

  /** The guards of the steps never hide a lookup that goes astray: a consumer with a claim can always go on,
      and so can the producer. */
  lemma NobodyIsStuck<T>(s: State<T>)
    requires Inv(s)
    ensures forall t :: t in s.pc && !s.pc[t].Idle? ==> CanConsume(s, t)
    ensures !s.producer.Ready? && !s.producer.Claiming? ==> CanProduce(s, Go)
    ensures s.producer.Claiming? ==> exists p :: CanProduce(s, Fail(p))
  {
    forall t | t in s.pc && !s.pc[t].Idle? ensures CanConsume(s, t) {
      ConsumerGoesOn(s, t);
    }
    if s.producer.Claiming? {
      var p := if s.low < s.published then |s.ring| - (s.end - s.published) else 0;
      assert CanProduce(s, Fail(p));
    } else if !s.producer.Ready? {
      ProducerGoesOn(s);
    }
  }

  lemma ConsumerGoesOn<T>(s: State<T>, t: Tid)
    requires Inv(s) && t in s.pc && !s.pc[t].Idle?
    ensures CanConsume(s, t)
  {
    hide CellOk, HeldOk, Apart;
    assert PcOk(s, s.pc[t]);
    HeldBlock(s, t);
    if s.pc[t].Read? && s.pc[t].next < Stop(s.bs, s.pc[t].first, s.pc[t].stop) {
      ReadsElement(s, t);
    }
  }

  lemma ProducerGoesOn<T>(s: State<T>)
    requires Inv(s) && !s.producer.Ready? && !s.producer.Claiming?
    ensures CanProduce(s, Go)
  {
    hide CellOk, PcOk, HeldOk, Apart;
    if s.producer.Construct? {
      var i, limit := s.tail + s.producer.n, s.tail + |s.producer.op.batch|;
      StartedBounds(limit, s.bs);
      NotMarked(s, i);
      BlockBelow(s.low, i, s.bs);
      if i < limit {
        BlockAbove(s.published, i, s.bs);
      }
    } else if s.producer.Resetting? {
      assert BlockOk(s, s.producer.k);
    } else {
      assert BlockOk(s, s.end - 1);
    }
  }

  lemma NotMarked<T>(s: State<T>, i: nat)
    requires ClearedOk(s) && s.head <= i
    ensures s.low * s.bs <= i
  {
    assert i < s.low * s.bs ==> i in s.cleared;
  }

  // ---------------------------------------------------------------- every claimed element is read

  /** Somebody has claimed the index and not marked it yet. */
  ghost predicate HeldBySome<T>(s: State<T>, i: nat) { exists t :: t in s.pc && Holds(s.pc[t], i) }

  /** No claimed index is forgotten; none is marked before its element has been read. */
  ghost predicate Accounted<T>(s: State<T>) {
    && (forall i :: 0 <= i < s.head && i !in s.cleared ==> HeldBySome(s, i))
    && (forall i :: i in s.cleared ==> i in s.taken)
    && (forall t, i :: t in s.pc && s.pc[t].Read? && s.pc[t].first <= i < s.pc[t].next ==> i in s.taken)
  }

  lemma ProduceAccounted<T>(s: State<T>, s': State<T>)
    requires Accounted(s) && s'.pc == s.pc && s'.head == s.head && s'.cleared == s.cleared && s'.taken == s.taken
    ensures Accounted(s')
  {
    forall i | 0 <= i < s'.head && i !in s'.cleared ensures HeldBySome(s', i) {
      assert HeldBySome(s, i);
    }
  }

  lemma ClaimAccounted<T>(s: State<T>, t: Tid, n: nat)
    requires Accounted(s) && CanClaimIndices(s, t, n)
    ensures Accounted(ClaimIndices(s, t, n))
  {
    var s' := ClaimIndices(s, t, n);
    forall i | 0 <= i < s'.head && i !in s'.cleared ensures HeldBySome(s', i) {
      if i < s.head {
        var u :| u in s.pc && Holds(s.pc[u], i);
        assert Holds(s'.pc[u], i);
      } else {
        assert Holds(s'.pc[t], i);
      }
    }
  }

  /** A step of a consumer on which its claim and what it has read stay its own. */
  lemma MoveAccounted<T>(s: State<T>, s': State<T>, t: Tid)
    requires Accounted(s) && t in s.pc && t in s'.pc && s'.pc == s.pc[t := s'.pc[t]]
    requires s'.head == s.head && s'.cleared == s.cleared && s.taken.Keys <= s'.taken.Keys
    requires forall i :: Holds(s.pc[t], i) ==> Holds(s'.pc[t], i)
    requires s'.pc[t].Read? ==> forall i :: s'.pc[t].first <= i < s'.pc[t].next ==> i in s'.taken
    ensures Accounted(s')
  {
    forall i | 0 <= i < s'.head && i !in s'.cleared ensures HeldBySome(s', i) {
      var u :| u in s.pc && Holds(s.pc[u], i);
      assert Holds(s'.pc[u], i);
    }
  }

  lemma EmptyAccounted<T>(s: State<T>, t: Tid)
    requires Inv(s) && Accounted(s) && Emptying(s, t)
    ensures Accounted(EmptyStep(s, t))
  {
    var Read(first, stop, _, _, next) := s.pc[t];
    var k := EmptyingRange(s, t);
    hide Inv;
    var s' := EmptyStep(s, t);
    forall i | i in s'.cleared ensures i in s'.taken {
      assert i in Range(first, next) ==> Between(first, i, next);
    }
    forall i | 0 <= i < s'.head && i !in s'.cleared ensures HeldBySome(s', i) {
      assert i !in Range(first, next);
      assert !Between(first, i, next) || i >= next;
      var u :| u in s.pc && Holds(s.pc[u], i);
      assert Holds(s'.pc[u], i);
    }
  }

  lemma ConsumeAccounted<T>(s: State<T>, t: Tid)
    requires Inv(s) && Accounted(s) && CanConsume(s, t)
    ensures Accounted(ConsumeStep(s, t))
  {
    match s.pc[t]
    case Idle => assert false;
    case Read(i, j, _, _, next) =>
      if next < Stop(s.bs, i, j) {
        hide Inv;
        MoveAccounted(s, ConsumeStep(s, t), t);
      } else {
        assert PcOk(s, s.pc[t]);
        EmptyAccounted(s, t);
      }
    case _ =>
      hide Inv;
      MoveAccounted(s, ConsumeStep(s, t), t);
  }

  lemma StepAccounted<T>(s: State<T>, a: Action<T>)
    requires Inv(s) && Accounted(s) && Enabled(s, a)
    ensures Accounted(Step(s, a))
  {
    hide Inv, Accounted, ProduceStep, ClaimStep, ConsumeStep, ClaimIndices, CanProduce, CanClaim, CanConsume;
    match a
    case Begin(op) => ProduceAccounted(s, BeginStep(s, op));
    case Produce(c) =>
      ProduceLeaves(s, c);
      ProduceAccounted(s, ProduceStep(s, c));
    case Claim(t, n) => ClaimAccounted(s, t, n);
    case Consume(t) => ConsumeAccounted(s, t);
  }

  lemma {:induction false} RunAccounted<T>(s: State<T>, schedule: seq<Action<T>>)
    requires Inv(s) && Accounted(s)
    ensures Accounted(Run(s, schedule))
    decreases |schedule|
  {
    hide Inv, Accounted, Step, Enabled;
    if schedule != [] {
      if Enabled(s, schedule[0]) {
        StepKeepsInv(s, schedule[0]);
        StepAccounted(s, schedule[0]);
        RunAccounted(Step(s, schedule[0]), schedule[1..]);
      } else {
        RunAccounted(s, schedule[1..]);
      }
    }
  }

  /** Over any run, every claimed index is either still held by a consumer or has been marked empty, and then its
      element has been read; so when no consumer is at work, every element below the head has been delivered. */
  lemma EveryClaimRead<T>(bs: nat, poolSize: nat, indexSize: nat, tids: set<Tid>, schedule: seq<Action<T>>, i: nat)
    requires bs > 1 && indexSize > 0
    ensures Inv(Init<T>(bs, poolSize, indexSize, tids))
    ensures var s := Run(Init<T>(bs, poolSize, indexSize, tids), schedule);
            && (i < s.head ==> HeldBySome(s, i) || (i in s.cleared && i in s.taken))
            && (i < s.head && (forall t :: t in s.pc ==> s.pc[t].Idle?) ==>
                  i < |s.items| && i in s.cleared && i in s.taken && s.taken[i] == s.items[i])
  {
    InitInv<T>(bs, poolSize, indexSize, tids);
    RunAccounted(Init<T>(bs, poolSize, indexSize, tids), schedule);
    hide Run, PcOk, HeldOk, BlockOk, CellOk, Apart, Shape, ClearedOk;
  }

  // ---------------------------------------------------------------- what the producer may take

  /** While it is looking for blocks, the block ahead may be taken again just when it is no block in use: all of its
      indices have been marked empty. */
  lemma AheadExactly<T>(s: State<T>, op: Op<T>)
    requires Inv(s) && s.producer == Claiming(op) && s.end < Needed(s, op)
    requires s.ring != [] && s.end - s.published < |s.ring| && s.low <= s.end - |s.ring|
    ensures CanClaim(s, op, Ahead) <==> Left(s, s.end - |s.ring|) == {}
  {
    hide CellOk, PcOk, HeldOk, Apart, Range;
    assert BlockOk(s, s.end - |s.ring|) && At(s, s.end - |s.ring|) == s.ring[0];
  }

  // ---------------------------------------------------------------- flags instead of counts

  /** The positions in block k of the indices marked empty. */
  ghost function Gone<T>(s: State<T>, k: nat): set<nat> { set p | p in Below(s.bs) && Base(k, s.bs) + p in s.cleared }

  /** A block that keeps flags for these positions tells the producer just what the count does: whether it is empty. */
  lemma FlagsInstead<T>(s: State<T>, k: nat, b: BlockStatus.Block)
    requires Inv(s) && s.low <= k < s.end && IsReset(s, k) && b.Valid() && b.bs == s.bs && b.gone == Gone(s, k)
    ensures InBlock(s, k) && At(s, k) < |s.done|
    ensures b.gone == Below(b.bs) <==> s.done[At(s, k)] == s.bs
  {
    hide Inv, Range;
    BlockFacts(s, k);
    LeftOrGone(s, k);
  }

  lemma LeftOrGone<T>(s: State<T>, k: nat)
    ensures Left(s, k) == {} <==> Gone(s, k) == Below(s.bs)
  {
    var base := Base(k, s.bs);
    forall i | i in Left(s, k) ensures i - base in Below(s.bs) && i - base !in Gone(s, k) {
      assert Between(base, i, base + s.bs);
    }
    forall p | p in Below(s.bs) && p !in Gone(s, k) ensures base + p in Left(s, k) {
      assert Between(base, base + p, base + s.bs);
    }
  }

  /** A block that has not been published, and so any block being reset, has none set. */
  lemma ResetClearsFlags<T>(s: State<T>, k: nat)
    requires Shape(s) && ClearedOk(s) && s.published <= k
    ensures Gone(s, k) == {}
  {
    ItemsPublished(s);
    MulMonotone(s.published, k, s.bs);
  }

  /** When a consumer marks indices, the positions are ones that set_many_empty may be given, and it makes the flags
      those of the new state; no other block's change. */
  lemma MarkingSetsFlags<T>(s: State<T>, t: Tid, k: nat)
    requires Inv(s) && Emptying(s, t) && s.low <= k < s.end
    ensures var Read(i, _, _, _, next) := s.pc[t];
            var s', first := EmptyStep(s, t), i % s.bs;
            && first + (next - i) <= s.bs && i < next
            && if k == i / s.bs then
                 && (forall p :: first <= p < first + (next - i) ==> p !in Gone(s, k))
                 && Gone(s', k) == Gone(s, k) + Range(first, first + (next - i))
               else Gone(s', k) == Gone(s, k)
  {
    hide Inv;
    var Read(i, _, _, _, next) := s.pc[t];
    var k0 := EmptyingRange(s, t);
    ModUnique(i, s.bs, k0, i - Base(k0, s.bs));
    if k != k0 { OtherBlock(k, k0, s.bs); }
    forall p | p in Below(s.bs)
      ensures Base(k, s.bs) + p in Range(i, next) <==> k == k0 && p in Range(i % s.bs, i % s.bs + (next - i))
    {
      assert Between(i, Base(k, s.bs) + p, next) <==> i <= Base(k, s.bs) + p < next;
      assert Between(i % s.bs, p, i % s.bs + (next - i)) <==> i % s.bs <= p < i % s.bs + (next - i);
    }
  }
}
