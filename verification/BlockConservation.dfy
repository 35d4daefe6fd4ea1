/** Who has which block of the initial pool, with any number of producers and consumers: one atomic operation
    per step, any interleaving. The free list appears as the multiset of its blocks, its operations as single steps
    (module FreeList shows that they hand out nothing twice and lose nothing). Explicit producers only ever
    requisition; what an implicit producer gives back is modelled down to the consumers' counting. */
module BlockConservation {
  import opened Collections
  import opened BlockPool

  type Tid = nat
  type Pid = nat

  /** Cells of one block that a consumer has claimed and not yet marked empty. */
  datatype Part = Part(block: Block, cells: set<nat>)

  datatype Pc =
    | Idle
    | LoadIndex(p: Pid)                         // try_get_block_from_initial_pool
    | BumpIndex(p: Pid)
    | TryFreeList(p: Pid)
    | Got(p: Pid, block: Block)                 // a block in hand for producer p
    | Consuming(p: Pid, parts: seq<Part>)       // indices claimed with one fetch_add, block by block
    | Freeing(block: Block, p: Pid, parts: seq<Part>)

  /** Where a block is (auxiliary). */
  datatype Place = Unissued | Listed | Hand(t: Tid) | With(p: Pid)

  /** A block that an implicit producer has put in use: its cells not marked empty, and those of them that
      no consumer has claimed (auxiliary; the block itself only holds the count). */
  datatype Use = Use(left: set<nat>, unclaimed: set<nat>)

  datatype State = State(
    bs: nat,
    size: nat,                          // initialBlockPoolSize
    index: nat,                         // initialBlockPoolIndex
    free: multiset<Block>,              // the free list
    owned: map<Pid, set<Block>>,        // the blocks of each producer
    done: map<Block, nat>,              // elementsCompletelyDequeued
    pc: map<Tid, Pc>,
    place: map<Block, Place>,           // auxiliary
    use: map<Block, Use>,               // auxiliary: the blocks in use
    holder: map<(Block, nat), Tid>,     // auxiliary: who has claimed a cell
    issues: multiset<Block>,            // auxiliary: blocks handed out
    frees: multiset<Block>              // auxiliary: blocks given back
  )

  datatype Action =
    | Requisition(t: Tid, p: Pid)
    // found: what the free list would hand out; spurious: it hands out nothing, as when no node is linked in it
    // although one added is still to be linked by the last thread that holds it (FreeList.NothingWhenEmpty)
    | Move(t: Tid, found: Block, spurious: bool)
    | PutInUse(t: Tid, p: Pid, block: Block)
    | GiveBack(t: Tid, p: Pid, block: Block)       // rollback of a failed enqueue
    | Claim(t: Tid, p: Pid, part: Part)            // one block's share of a fetch_add on the head

  predicate HasBlock(p: Pc, b: Block) { (p.Got? || p.Freeing?) && p.block == b }

  function Goto(s: State, t: Tid, p: Pc): State { s.(pc := s.pc[t := p]) }

  /** A consumer goes on with what is left of its claim. */
  function Rest(p: Pid, parts: seq<Part>): Pc { if parts == [] then Idle else Consuming(p, parts) }

  // ---------------------------------------------------------------- steps

  function Issue(s: State, t: Tid, p: Pid, b: Block): State {
    Goto(s, t, Got(p, b)).(place := s.place[b := Hand(t)], issues := s.issues + multiset{b})
  }

  predicate CanMove(s: State, t: Tid, found: Block, spurious: bool) {
    && t in s.pc
    && match s.pc[t] {
         case Idle => false
         case TryFreeList(_) => spurious || found in s.free
         case Got(p, _) => p in s.owned
         case Consuming(p, parts) =>
           && parts != [] && p in s.owned && parts[0].block in s.done && parts[0].block in s.use
         case _ => true
       }
  }

  function MoveStep(s: State, t: Tid, found: Block, spurious: bool): State
    requires CanMove(s, t, found, spurious)
  {
    match s.pc[t]
    case Idle => s
    case LoadIndex(p) => Goto(s, t, if s.index >= s.size then TryFreeList(p) else BumpIndex(p))
    case BumpIndex(p) =>
      if s.index < s.size then Issue(s, t, p, s.index).(index := s.index + 1)
      else Goto(s, t, TryFreeList(p)).(index := s.index + 1)
    case TryFreeList(p) =>
      if spurious then Goto(s, t, Idle)
      else Issue(s, t, p, found).(free := s.free - multiset{found})
    case Got(p, b) =>
      Goto(s, t, Idle).(owned := s.owned[p := s.owned[p] + {b}], done := s.done[b := 0], place := s.place[b := With(p)])
    case Consuming(p, parts) => EmptyStep(s, t)
    case Freeing(b, p, parts) =>
      Goto(s, t, Rest(p, parts)).(free := s.free + multiset{b}, place := s.place[b := Listed],
                                  frees := s.frees + multiset{b})
  }

  /** set_many_empty on the first block of the claim: whoever completes the count gives the block back. */
  function EmptyStep(s: State, t: Tid): State
    requires t in s.pc && s.pc[t].Consuming? && s.pc[t].parts != [] && s.pc[t].p in s.owned
    requires s.pc[t].parts[0].block in s.done && s.pc[t].parts[0].block in s.use
  {
    var Consuming(p, parts) := s.pc[t];
    var Part(b, cells) := parts[0];
    var count := s.done[b] + |cells|;
    var s1 := s.(done := s.done[b := count]);
    if count == s.bs then
      Goto(s1, t, Freeing(b, p, parts[1..]))
        .(owned := s.owned[p := s.owned[p] - {b}], use := s.use - {b}, place := s.place[b := Hand(t)])
    else
      Goto(s1, t, Rest(p, parts[1..])).(use := s.use[b := s.use[b].(left := s.use[b].left - cells)])
  }

  /** The producer has enqueued elements into a block it owns. */
  predicate CanPutInUse(s: State, t: Tid, p: Pid, b: Block) {
    t in s.pc && s.pc[t].Idle? && p in s.owned && b in s.owned[p] && b !in s.use && b in s.done && s.done[b] == 0
  }

  ghost function PutInUseStep(s: State, b: Block): State { s.(use := s.use[b := Use(Below(s.bs), Below(s.bs))]) }

  predicate CanGiveBack(s: State, t: Tid, p: Pid, b: Block) {
    t in s.pc && s.pc[t].Idle? && p in s.owned && b in s.owned[p] && b !in s.use
  }

  function GiveBackStep(s: State, t: Tid, p: Pid, b: Block): State
    requires p in s.owned
  {
    Goto(s, t, Freeing(b, p, [])).(owned := s.owned[p := s.owned[p] - {b}], place := s.place[b := Hand(t)])
  }

  /** headIndex.fetch_add claims cells that nobody has claimed. A claim over several blocks is several of these
      steps; here other threads may even step in between. */
  predicate CanClaim(s: State, t: Tid, p: Pid, part: Part) {
    && t in s.pc && p in s.owned && part.block in s.owned[p] && part.block in s.use
    && part.cells != {} && part.cells <= s.use[part.block].unclaimed
    && match s.pc[t] {
         case Idle => true
         case Consuming(q, parts) => q == p && forall i :: 0 <= i < |parts| ==> parts[i].block != part.block
         case _ => false
       }
  }

  function ClaimStep(s: State, t: Tid, p: Pid, part: Part): State
    requires CanClaim(s, t, p, part)
  {
    var Part(b, cells) := part;
    Goto(s, t, Consuming(p, (if s.pc[t].Consuming? then s.pc[t].parts else []) + [part]))
      .(use := s.use[b := s.use[b].(unclaimed := s.use[b].unclaimed - cells)],
        holder := s.holder + (map i | i in cells :: (b, i) := t))
  }

  ghost predicate Enabled(s: State, a: Action) {
    match a
    case Requisition(t, p) => t in s.pc && s.pc[t].Idle? && p in s.owned
    case Move(t, found, spurious) => CanMove(s, t, found, spurious)
    case PutInUse(t, p, b) => CanPutInUse(s, t, p, b)
    case GiveBack(t, p, b) => CanGiveBack(s, t, p, b)
    case Claim(t, p, part) => CanClaim(s, t, p, part)
  }

  ghost function Step(s: State, a: Action): State
    requires Enabled(s, a)
  {
    match a
    case Requisition(t, p) => Goto(s, t, LoadIndex(p))
    case Move(t, found, spurious) => MoveStep(s, t, found, spurious)
    case PutInUse(_, _, b) => PutInUseStep(s, b)
    case GiveBack(t, p, b) => GiveBackStep(s, t, p, b)
    case Claim(t, p, part) => ClaimStep(s, t, p, part)
  }

  // ---------------------------------------------------------------- invariant

  /** Block b is where `place` says. */
  predicate PlaceOk(s: State, b: Block)
    requires b in s.place
  {
    match s.place[b]
    case Unissued => s.index <= b && s.free[b] == 0
    case Listed => b < s.index && s.free[b] == 1
    case Hand(t) => b < s.index && s.free[b] == 0 && t in s.pc && HasBlock(s.pc[t], b)
    case With(p) => b < s.index && s.free[b] == 0 && p in s.owned && b in s.owned[p]
  }

  predicate Out(place: Place) { place.Hand? || place.With? }

  /** Handed out once more than given back exactly while it is out. */
  predicate LedgerOk(s: State, b: Block)
    requires b in s.place
  {
    s.issues[b] == s.frees[b] + (if Out(s.place[b]) then 1 else 0)
  }

  /** A block in use has as many cells not marked empty as its count is short of BLOCK_SIZE. */
  ghost predicate UseOk(s: State, b: Block)
    requires b in s.use
  {
    var Use(left, unclaimed) := s.use[b];
    && b in s.place && s.place[b].With? && b in s.done
    && unclaimed <= left <= Below(s.bs) && left != {} && s.done[b] + |left| == s.bs
  }

  predicate PartOk(s: State, t: Tid, p: Pid, part: Part) {
    && part.block in s.use && part.block in s.place && s.place[part.block] == With(p)
    && part.cells != {} && part.cells <= s.use[part.block].left - s.use[part.block].unclaimed
    && forall i :: i in part.cells ==> (part.block, i) in s.holder && s.holder[(part.block, i)] == t
  }

  predicate PartsOk(s: State, t: Tid, p: Pid, parts: seq<Part>) {
    && (forall k :: 0 <= k < |parts| ==> PartOk(s, t, p, parts[k]))
    && (forall k, l :: 0 <= k < l < |parts| ==> parts[k].block != parts[l].block)
  }

  predicate PcOk(s: State, t: Tid, p: Pc) {
    match p
    case Idle => true
    case Got(q, b) => b in s.place && s.place[b] == Hand(t) && q in s.owned
    case Consuming(q, parts) => q in s.owned && parts != [] && PartsOk(s, t, q, parts)
    case Freeing(b, q, parts) => q in s.owned && b in s.place && s.place[b] == Hand(t) && PartsOk(s, t, q, parts)
    case _ => p.p in s.owned
  }

  predicate OwnedOk(s: State, p: Pid)
    requires p in s.owned
  {
    forall b :: b in s.owned[p] ==>
      && b in s.place && s.place[b] == With(p)
      && b in s.done && (b !in s.use ==> s.done[b] == 0)
  }

  ghost predicate Inv(s: State) {
    && s.bs > 0
    && (forall b: Block :: b in s.place <==> b < s.size)
    && (forall b :: b in s.place ==> PlaceOk(s, b) && LedgerOk(s, b))
    && (forall b :: b in s.free ==> b in s.place)
    && (forall p :: p in s.owned ==> OwnedOk(s, p))
    && (forall b :: b in s.use ==> UseOk(s, b))
    && (forall t :: t in s.pc ==> PcOk(s, t, s.pc[t]))
  }

  // ---------------------------------------------------------------- preservation

  /** What a step of t may do to a block b0 it deals with, and nothing else. */
  ghost predicate Only(s: State, s': State, t: Tid, b0: Block) {
    && t in s.pc && t in s'.pc && s'.pc == s.pc[t := s'.pc[t]]
    && s'.bs == s.bs && s'.size == s.size && s'.place.Keys == s.place.Keys && s'.owned.Keys == s.owned.Keys
    && (forall b :: b != b0 && b in s.place ==>
          && s'.place[b] == s.place[b] && s'.free[b] == s.free[b]
          && s'.issues[b] == s.issues[b] && s'.frees[b] == s.frees[b]
          && (b < s.index <==> b < s'.index))
    && (forall b :: b in s'.free ==> b in s.free || b == b0)
    && (forall p, b :: p in s.owned && b != b0 ==> (b in s'.owned[p] <==> b in s.owned[p]))
    && (forall b :: b != b0 ==> (b in s'.use <==> b in s.use) && (b in s.use ==> s'.use[b] == s.use[b]))
    && (forall b :: b != b0 ==> (b in s'.done <==> b in s.done) && (b in s.done ==> s'.done[b] == s.done[b]))
    && (forall b, i :: (b, i) in s.holder && b != b0 ==>
          (b, i) in s'.holder && s'.holder[(b, i)] == s.holder[(b, i)])
  }

  /** Another thread's claims on b0 and blocks in hand are left alone. */
  ghost predicate Spares(s: State, s': State, t: Tid, b0: Block) {
    forall u, p, part :: u in s.pc && u != t && PartOk(s, u, p, part) && part.block == b0 ==> PartOk(s', u, p, part)
  }

  lemma PartKept(s: State, s': State, t: Tid, b0: Block, u: Tid, p: Pid, part: Part)
    requires Only(s, s', t, b0) && PartOk(s, u, p, part) && part.block != b0
    ensures PartOk(s', u, p, part)
  {
  }

  lemma PartsKept(s: State, s': State, t: Tid, b0: Block, u: Tid, p: Pid, parts: seq<Part>)
    requires Only(s, s', t, b0) && PartsOk(s, u, p, parts)
    requires forall part :: PartOk(s, u, p, part) && part.block == b0 ==> PartOk(s', u, p, part)
    ensures PartsOk(s', u, p, parts)
  {
    hide PartOk;
    forall k | 0 <= k < |parts| ensures PartOk(s', u, p, parts[k]) {
      if parts[k].block != b0 {
        PartKept(s, s', t, b0, u, p, parts[k]);
      }
    }
  }

  lemma OtherPcKept(s: State, s': State, t: Tid, b0: Block, u: Tid)
    requires Only(s, s', t, b0) && Spares(s, s', t, b0) && u in s.pc && u != t && PcOk(s, u, s.pc[u])
    requires b0 in s.place && s.place[b0].Hand? ==> s.place[b0].t == t
    ensures PcOk(s', u, s'.pc[u])
  {
    hide PartOk;
    match s.pc[u]
    case Consuming(q, parts) => PartsKept(s, s', t, b0, u, q, parts);
    case Freeing(b, q, parts) => PartsKept(s, s', t, b0, u, q, parts);
    case _ =>
  }

  /** What the step of t must show about b0. */
  ghost predicate Settled(s: State, b0: Block) {
    && (b0 in s.place ==> PlaceOk(s, b0) && LedgerOk(s, b0))
    && (b0 in s.free ==> b0 in s.place)
    && (forall p :: p in s.owned && b0 in s.owned[p] ==>
          b0 in s.place && s.place[b0] == With(p) && b0 in s.done && (b0 !in s.use ==> s.done[b0] == 0))
    && (b0 in s.use ==> UseOk(s, b0))
  }

  lemma StepOnBlockKeepsInv(s: State, s': State, t: Tid, b0: Block)
    requires Inv(s) && Only(s, s', t, b0) && Spares(s, s', t, b0) && Settled(s', b0) && PcOk(s', t, s'.pc[t])
    requires b0 in s.place && s.place[b0].Hand? ==> s.place[b0].t == t
    requires forall b :: b != b0 && HasBlock(s.pc[t], b) ==> HasBlock(s'.pc[t], b)
    ensures Inv(s')
  {
    hide PartOk, PartsOk, Spares, Only, OwnedOk, HasBlock, LedgerOk, UseOk, PcOk;
    OnlyShape(s, s', t, b0);
    forall b | b in s'.place ensures PlaceOk(s', b) && LedgerOk(s', b) {
      if b != b0 {
        assert PlaceOk(s, b);
        OtherPlaceKept(s, s', t, b0, b);
      }
    }
    forall p | p in s'.owned ensures OwnedOk(s', p) {
      OwnedKept(s, s', t, b0, p);
    }
    forall b | b in s'.use ensures UseOk(s', b) {
      if b != b0 {
        UseKept(s, s', t, b0, b);
      }
    }
    forall u | u in s'.pc ensures PcOk(s', u, s'.pc[u]) {
      if u != t {
        assert PcOk(s, u, s.pc[u]);
        OtherPcKept(s, s', t, b0, u);
      }
    }
  }

  lemma OnlyShape(s: State, s': State, t: Tid, b0: Block)
    requires Only(s, s', t, b0)
    ensures s'.bs == s.bs && s'.size == s.size && s'.place.Keys == s.place.Keys && s'.owned.Keys == s.owned.Keys
    ensures t in s.pc && t in s'.pc && s'.pc == s.pc[t := s'.pc[t]]
    ensures forall b :: b in s'.free ==> b in s.free || b == b0
    ensures forall b :: b in s'.use ==> b in s.use || b == b0
  {
  }

  lemma UseKept(s: State, s': State, t: Tid, b0: Block, b: Block)
    requires Only(s, s', t, b0) && b in s.use && b != b0 && UseOk(s, b)
    ensures b in s'.use && UseOk(s', b)
  {
  }

  /** What the invariant says of one thread and one block. */
  lemma Facts(s: State, t: Tid, b: Block)
    requires Inv(s) && t in s.pc
    ensures s.bs > 0 && PcOk(s, t, s.pc[t]) && (b in s.place <==> b < s.size)
    ensures b in s.place ==> PlaceOk(s, b) && LedgerOk(s, b)
    ensures b in s.free ==> b in s.place
    ensures b in s.use ==> UseOk(s, b)
    ensures forall p :: p in s.owned && b in s.owned[p] ==>
              b in s.place && s.place[b] == With(p) && b in s.done && (b !in s.use ==> s.done[b] == 0)
  {
    forall p | p in s.owned && b in s.owned[p]
      ensures b in s.place && s.place[b] == With(p) && b in s.done && (b !in s.use ==> s.done[b] == 0)
    {
      assert OwnedOk(s, p);
    }
  }

  lemma OtherPlaceKept(s: State, s': State, t: Tid, b0: Block, b: Block)
    requires Only(s, s', t, b0) && b in s.place && b != b0 && PlaceOk(s, b) && LedgerOk(s, b)
    requires s.place[b] == Hand(t) ==> HasBlock(s'.pc[t], b)
    ensures b in s'.place && PlaceOk(s', b) && LedgerOk(s', b)
  {
  }

  lemma OwnedKept(s: State, s': State, t: Tid, b0: Block, p: Pid)
    requires Only(s, s', t, b0) && p in s.owned && OwnedOk(s, p)
    requires p in s'.owned && b0 in s'.owned[p] ==>
               b0 in s'.place && s'.place[b0] == With(p) && b0 in s'.done && (b0 !in s'.use ==> s'.done[b0] == 0)
    ensures p in s'.owned && OwnedOk(s', p)
  {
  }

  lemma NotInUseSpared(s: State, s': State, t: Tid, b: Block)
    requires b !in s.use
    ensures Spares(s, s', t, b)
  {
  }

  /** A step that moves no block. */
  lemma QuietKeepsInv(s: State, s': State, t: Tid, next: Pc)
    requires Inv(s) && t in s.pc && s' == s.(pc := s.pc[t := next], index := s'.index)
    requires s'.index == s.index || s.size <= s.index <= s'.index
    requires !s.pc[t].Got? && !s.pc[t].Freeing? && PcOk(s', t, next)
    ensures Inv(s')
  {
    Facts(s, t, s.size);
    hide Inv, PartOk, UseOk;
    NotInUseSpared(s, s', t, s.size);
    QuietOnly(s, s', t, next);
    StepOnBlockKeepsInv(s, s', t, s.size);
  }

  lemma QuietOnly(s: State, s': State, t: Tid, next: Pc)
    requires Inv(s) && t in s.pc && s' == s.(pc := s.pc[t := next], index := s'.index)
    requires s'.index == s.index || s.size <= s.index <= s'.index
    ensures Only(s, s', t, s.size)
  {
  }

  /** Handing block b0 out. */
  lemma IssueKeepsInv(s: State, s': State, t: Tid, p: Pid, b0: Block)
    requires Inv(s) && t in s.pc && (s.pc[t] == BumpIndex(p) || s.pc[t] == TryFreeList(p)) && b0 < s.size
    requires if s.pc[t].BumpIndex? then b0 == s.index && s' == Issue(s, t, p, b0).(index := s.index + 1)
             else b0 in s.free && s' == Issue(s, t, p, b0).(free := s.free - multiset{b0})
    ensures Inv(s')
  {
    IssueSettled(s, s', t, p, b0);
    hide Inv, PartOk, PartsOk, UseOk;
    IssueOnly(s, s', t, p, b0);
    NotInUse(s, t, b0);
    NotInUseSpared(s, s', t, b0);
    hide Only, Spares, Settled, Issue;
    StepOnBlockKeepsInv(s, s', t, b0);
  }

  lemma IssueSettled(s: State, s': State, t: Tid, p: Pid, b0: Block)
    requires Inv(s) && t in s.pc && (s.pc[t] == BumpIndex(p) || s.pc[t] == TryFreeList(p)) && b0 < s.size
    requires if s.pc[t].BumpIndex? then b0 == s.index && s' == Issue(s, t, p, b0).(index := s.index + 1)
             else b0 in s.free && s' == Issue(s, t, p, b0).(free := s.free - multiset{b0})
    ensures b0 in s.place && !s.place[b0].With? && !s.place[b0].Hand?
    ensures t in s'.pc && Settled(s', b0) && PcOk(s', t, s'.pc[t])
    ensures forall b :: !HasBlock(s.pc[t], b)
  {
    hide Inv, PartOk, PartsOk, UseOk;
    Facts(s, t, b0);
    NotInUse(s, t, b0);
  }

  lemma IssueOnly(s: State, s': State, t: Tid, p: Pid, b0: Block)
    requires t in s.pc && b0 in s.place
    requires (b0 == s.index && s' == Issue(s, t, p, b0).(index := s.index + 1)) ||
             s' == Issue(s, t, p, b0).(free := s.free - multiset{b0})
    ensures Only(s, s', t, b0)
  {
    hide Only;
    PartsOnly(s, s', t, b0);
  }

  lemma PartsOnly(s: State, s': State, t: Tid, b0: Block)
    requires t in s.pc && b0 in s.place && t in s'.pc && s'.pc == s.pc[t := s'.pc[t]]
    requires s'.bs == s.bs && s'.size == s.size && s'.owned == s.owned && s'.use == s.use && s'.done == s.done
    requires s'.holder == s.holder && s'.place == s.place[b0 := Hand(t)]
    requires s'.issues == s.issues + multiset{b0} && s'.frees == s.frees
    requires s'.free == s.free || s'.free == s.free - multiset{b0}
    requires s'.index == s.index || (b0 == s.index && s'.index == s.index + 1)
    ensures Only(s, s', t, b0)
  {
  }

  /** A block that is not with a producer is not in use. */
  lemma NotInUse(s: State, t: Tid, b: Block)
    requires Inv(s) && t in s.pc && (b in s.place ==> !s.place[b].With?)
    ensures b !in s.use
  {
    Facts(s, t, b);
  }

  lemma InsertKeepsInv(s: State, t: Tid)
    requires Inv(s) && t in s.pc && s.pc[t].Got? && s.pc[t].p in s.owned
    ensures Inv(MoveStep(s, t, 0, false))
  {
    var s' := MoveStep(s, t, 0, false);
    var Got(p, b0) := s.pc[t];
    Facts(s, t, b0);
    InsertSettled(s, t);
    hide Inv, PartOk, PartsOk, UseOk;
    InsertOnly(s, t);
    NotInUse(s, t, b0);
    NotInUseSpared(s, s', t, b0);
    hide Only, Spares, Settled, PlaceOk, LedgerOk;
    StepOnBlockKeepsInv(s, s', t, b0);
  }

  lemma InsertSettled(s: State, t: Tid)
    requires Inv(s) && t in s.pc && s.pc[t].Got? && s.pc[t].p in s.owned
    ensures Settled(MoveStep(s, t, 0, false), s.pc[t].block)
  {
    Facts(s, t, s.pc[t].block);
    hide Inv, PartOk, PartsOk, UseOk;
    NotInUse(s, t, s.pc[t].block);
  }

  lemma InsertOnly(s: State, t: Tid)
    requires t in s.pc && s.pc[t].Got? && s.pc[t].p in s.owned && s.pc[t].block in s.place
    ensures Only(s, MoveStep(s, t, 0, false), t, s.pc[t].block)
  {
  }

  lemma FreeKeepsInv(s: State, t: Tid)
    requires Inv(s) && t in s.pc && s.pc[t].Freeing?
    ensures Inv(MoveStep(s, t, 0, false))
  {
    hide Inv, PartOk, UseOk, Only, Spares;
    var s' := MoveStep(s, t, 0, false);
    var Freeing(b0, p, parts) := s.pc[t];
    Facts(s, t, b0);
    FreeOnly(s, t);
    NotInUse(s, t, b0);
    NotInUseSpared(s, s', t, b0);
    NoPart(s, b0);
    PartsKept(s, s', t, b0, t, p, parts);
    StepOnBlockKeepsInv(s, s', t, b0);
  }

  lemma FreeOnly(s: State, t: Tid)
    requires t in s.pc && s.pc[t].Freeing? && s.pc[t].block in s.place
    ensures Only(s, MoveStep(s, t, 0, false), t, s.pc[t].block)
  {
  }

  lemma NoPart(s: State, b: Block)
    requires b !in s.use
    ensures forall u, p, part :: PartOk(s, u, p, part) ==> part.block != b
  {
  }

  lemma PutInUseKeepsInv(s: State, t: Tid, p: Pid, b0: Block)
    requires Inv(s) && CanPutInUse(s, t, p, b0)
    ensures Inv(PutInUseStep(s, b0))
  {
    var s' := PutInUseStep(s, b0);
    Facts(s, t, b0);
    hide Inv, PartOk, PartsOk;
    NotInUseSpared(s, s', t, b0);
    PutInUseOnly(s, t, b0);
    hide Only, Spares;
    StepOnBlockKeepsInv(s, s', t, b0);
  }

  lemma PutInUseOnly(s: State, t: Tid, b0: Block)
    requires t in s.pc && b0 in s.place
    ensures Only(s, PutInUseStep(s, b0), t, b0)
  {
    assert s.pc == s.pc[t := s.pc[t]];
  }

  lemma GiveBackKeepsInv(s: State, t: Tid, p: Pid, b0: Block)
    requires Inv(s) && CanGiveBack(s, t, p, b0)
    ensures Inv(GiveBackStep(s, t, p, b0))
  {
    hide Inv, PartOk, UseOk, Only, Spares;
    var s' := GiveBackStep(s, t, p, b0);
    Facts(s, t, b0);
    GiveBackOnly(s, t, p, b0);
    NotInUseSpared(s, s', t, b0);
    StepOnBlockKeepsInv(s, s', t, b0);
  }

  lemma GiveBackOnly(s: State, t: Tid, p: Pid, b0: Block)
    requires t in s.pc && p in s.owned && b0 in s.place
    ensures Only(s, GiveBackStep(s, t, p, b0), t, b0)
  {
  }

  lemma ClaimKeepsInv(s: State, t: Tid, p: Pid, part: Part)
    requires Inv(s) && CanClaim(s, t, p, part)
    ensures Inv(ClaimStep(s, t, p, part))
  {
    var s' := ClaimStep(s, t, p, part);
    var b0 := part.block;
    Facts(s, t, b0);
    hide Inv, Spares;
    ClaimOnly(s, t, p, part);
    ClaimParts(s, t, p, part);
    hide PartOk, Only;
    StepOnBlockKeepsInv(s, s', t, b0);
  }

  lemma ClaimOnly(s: State, t: Tid, p: Pid, part: Part)
    requires CanClaim(s, t, p, part) && part.block in s.place && UseOk(s, part.block)
    ensures var s' := ClaimStep(s, t, p, part); Only(s, s', t, part.block) && Spares(s, s', t, part.block)
  {
  }

  lemma ClaimParts(s: State, t: Tid, p: Pid, part: Part)
    requires CanClaim(s, t, p, part) && UseOk(s, part.block) && s.place[part.block] == With(p) && PcOk(s, t, s.pc[t])
    requires Only(s, ClaimStep(s, t, p, part), t, part.block)
    ensures PcOk(ClaimStep(s, t, p, part), t, ClaimStep(s, t, p, part).pc[t])
  {
    var s' := ClaimStep(s, t, p, part);
    var parts := if s.pc[t].Consuming? then s.pc[t].parts else [];
    assert PartOk(s', t, p, part);
    hide PartOk;
    forall k | 0 <= k < |parts| ensures PartOk(s', t, p, parts[k]) {
      PartKept(s, s', t, part.block, t, p, parts[k]);
    }
  }

  /** Whoever completes a block's count holds the claim to all cells that were left, so nobody else has a
      claim on the block, and nobody else will complete it. */
  lemma CompletingHoldsAll(s: State, t: Tid)
    requires Inv(s) && t in s.pc && s.pc[t].Consuming?
    ensures s.pc[t].parts != []
    ensures var Part(b, cells) := s.pc[t].parts[0];
            && b in s.done && b in s.use && s.done[b] + |cells| <= s.bs
            && (s.done[b] + |cells| == s.bs <==> s.use[b].left == cells)
            && (s.done[b] + |cells| == s.bs ==>
                  forall u, p, part :: u in s.pc && u != t && PartOk(s, u, p, part) ==> part.block != b)
  {
    var Consuming(p, parts) := s.pc[t];
    assert PcOk(s, t, s.pc[t]) && PartOk(s, t, p, parts[0]);
    var Part(b, cells) := parts[0];
    assert UseOk(s, b);
    SubsetSize(cells, s.use[b].left);
    if s.use[b].left == cells {
      forall u, p, part | u in s.pc && u != t && PartOk(s, u, p, part) ensures part.block != b {
        var i :| i in part.cells;
        assert part.block == b ==> i in cells;
      }
    }
  }

  lemma EmptyKeepsInv(s: State, t: Tid)
    requires Inv(s) && CanMove(s, t, 0, false) && s.pc[t].Consuming?
    ensures Inv(EmptyStep(s, t))
  {
    var s' := EmptyStep(s, t);
    var Consuming(p, parts) := s.pc[t];
    var b0 := parts[0].block;
    Facts(s, t, b0);
    CompletingHoldsAll(s, t);
    EmptySettled(s, t);
    EmptyOnly(s, t);
    EmptySpares(s, t);
    EmptyParts(s, t);
    hide Inv, PartOk, PartsOk, Spares, Only, Settled;
    StepOnBlockKeepsInv(s, s', t, b0);
  }

  lemma EmptyOnly(s: State, t: Tid)
    requires CanMove(s, t, 0, false) && s.pc[t].Consuming? && s.pc[t].parts[0].block in s.place
    ensures Only(s, EmptyStep(s, t), t, s.pc[t].parts[0].block)
  {
  }

  lemma EmptySpares(s: State, t: Tid)
    requires Inv(s) && CanMove(s, t, 0, false) && s.pc[t].Consuming?
    ensures Spares(s, EmptyStep(s, t), t, s.pc[t].parts[0].block)
  {
    CompletingHoldsAll(s, t);
    assert PcOk(s, t, s.pc[t]) && PartOk(s, t, s.pc[t].p, s.pc[t].parts[0]);
  }

  lemma PartInPlace(s: State, t: Tid, p: Pid, part: Part)
    requires PartOk(s, t, p, part)
    ensures part.block in s.place && s.place[part.block] == With(p)
  {
  }

  lemma EmptyParts(s: State, t: Tid)
    requires Inv(s) && CanMove(s, t, 0, false) && s.pc[t].Consuming?
    ensures var s' := EmptyStep(s, t); PcOk(s', t, s'.pc[t])
  {
    hide PartOk, Inv, Only, UseOk, PlaceOk, LedgerOk;
    var s' := EmptyStep(s, t);
    var Consuming(p, parts) := s.pc[t];
    Facts(s, t, parts[0].block);
    assert PartOk(s, t, p, parts[0]);
    PartInPlace(s, t, p, parts[0]);
    EmptyOnly(s, t);
    var rest := parts[1..];
    forall k | 0 <= k < |rest| ensures PartOk(s', t, p, rest[k]) {
      PartKept(s, s', t, parts[0].block, t, p, rest[k]);
    }
    assert PartsOk(s', t, p, rest);
  }

  lemma EmptySettled(s: State, t: Tid)
    requires Inv(s) && CanMove(s, t, 0, false) && s.pc[t].Consuming?
    ensures var b0 := s.pc[t].parts[0].block;
            b0 in s.place && s.place[b0] == With(s.pc[t].p) && Settled(EmptyStep(s, t), b0)
  {
    var s' := EmptyStep(s, t);
    var Consuming(p, parts) := s.pc[t];
    var Part(b0, cells) := parts[0];
    CompletingHoldsAll(s, t);
    Facts(s, t, b0);
    assert PartOk(s, t, p, parts[0]);
    SubsetSize(cells, s.use[b0].left);
  }

  lemma MoveKeepsInv(s: State, t: Tid, found: Block, spurious: bool)
    requires Inv(s) && CanMove(s, t, found, spurious)
    ensures Inv(MoveStep(s, t, found, spurious))
  {
    hide Inv, PartsOk, UseOk, PlaceOk, LedgerOk, EmptyStep;
    Facts(s, t, found);
    var s' := MoveStep(s, t, found, spurious);
    match s.pc[t]
    case LoadIndex(p) => QuietKeepsInv(s, s', t, s'.pc[t]);
    case BumpIndex(p) =>
      if s.index < s.size { IssueKeepsInv(s, s', t, p, s.index); } else { QuietKeepsInv(s, s', t, s'.pc[t]); }
    case TryFreeList(p) =>
      if spurious { QuietKeepsInv(s, s', t, s'.pc[t]); } else { IssueKeepsInv(s, s', t, p, found); }
    case Got(_, _) => InsertKeepsInv(s, t);
    case Consuming(_, _) => EmptyKeepsInv(s, t);
    case Freeing(_, _, _) => FreeKeepsInv(s, t);
  }

  lemma StepKeepsInv(s: State, a: Action)
    requires Inv(s) && Enabled(s, a)
    ensures Inv(Step(s, a))
  {
    hide Inv;
    match a
    case Requisition(t, p) => QuietKeepsInv(s, Step(s, a), t, LoadIndex(p));
    case Move(t, found, spurious) => MoveKeepsInv(s, t, found, spurious);
    case PutInUse(t, p, b) => PutInUseKeepsInv(s, t, p, b);
    case GiveBack(t, p, b) => GiveBackKeepsInv(s, t, p, b);
    case Claim(t, p, part) => ClaimKeepsInv(s, t, p, part);
  }

  // ---------------------------------------------------------------- whole runs

  ghost function Init(bs: nat, size: nat, pids: set<Pid>, tids: set<Tid>): State {
    State(bs, size, 0, multiset{}, map p | p in pids :: {}, map[], map t | t in tids :: Idle,
          map b | b in Below(size) :: Unissued, map[], map[], multiset{}, multiset{})
  }

  lemma InitInv(bs: nat, size: nat, pids: set<Pid>, tids: set<Tid>)
    requires bs > 0
    ensures Inv(Init(bs, size, pids, tids))
  {
    var s := Init(bs, size, pids, tids);
    assert forall b: Block :: b in s.place <==> b < size;
  }

  /** Any interleaving; an action that is not possible in its state is skipped. */
  ghost function Run(s: State, schedule: seq<Action>): (s': State)
    requires Inv(s)
    ensures Inv(s')
    decreases |schedule|
  {
    if schedule == [] then s
    else if Enabled(s, schedule[0]) then
      StepKeepsInv(s, schedule[0]);
      Run(Step(s, schedule[0]), schedule[1..])
    else
      Run(s, schedule[1..])
  }

  // ---------------------------------------------------------------- what the invariant gives

  /** How many of the places where blocks are kept have block b: the part of the pool not yet issued, the free
      list, the hands of a thread, a producer. */
  ghost predicate InHands(s: State, b: Block) { exists t :: t in s.pc && HasBlock(s.pc[t], b) }

  ghost predicate IsOwned(s: State, b: Block) { exists p :: p in s.owned && b in s.owned[p] }

  function One(p: bool): nat { if p then 1 else 0 }

  /** Every block of the pool is always in exactly one place, once: not yet issued, on the free list, in the
      hands of one thread, or with one producer; and nothing else is anywhere. */
  lemma InExactlyOnePlace(s: State, b: Block)
    requires Inv(s)
    ensures One(s.index <= b < s.size) + s.free[b] + One(InHands(s, b)) + One(IsOwned(s, b)) == One(b < s.size)
    ensures forall t, u :: t in s.pc && u in s.pc && HasBlock(s.pc[t], b) && HasBlock(s.pc[u], b) ==> t == u
    ensures forall p, q :: p in s.owned && q in s.owned && b in s.owned[p] && b in s.owned[q] ==> p == q
  {
    forall t | t in s.pc && HasBlock(s.pc[t], b) ensures b in s.place && s.place[b] == Hand(t) {
      assert PcOk(s, t, s.pc[t]);
    }
    forall p | p in s.owned && b in s.owned[p] ensures b in s.place && s.place[b] == With(p) {
      assert OwnedOk(s, p);
    }
    assert b in s.place ==> PlaceOk(s, b);
  }

  /** Over any run, every block is handed out and given back in turns. */
  lemma HandedOutAndBackInTurns(bs: nat, size: nat, pids: set<Pid>, tids: set<Tid>, schedule: seq<Action>, b: Block)
    requires bs > 0 && b < size
    ensures Inv(Init(bs, size, pids, tids))
    ensures var s := Run(Init(bs, size, pids, tids), schedule);
            && s.frees[b] <= s.issues[b] <= s.frees[b] + 1
            && (s.issues[b] == s.frees[b] + 1 <==> InHands(s, b) || IsOwned(s, b))
  {
    InitInv(bs, size, pids, tids);
    RunSize(Init(bs, size, pids, tids), schedule);
    var s := Run(Init(bs, size, pids, tids), schedule);
    InExactlyOnePlace(s, b);
    assert PlaceOk(s, b) && LedgerOk(s, b);
  }

  lemma StepSize(s: State, a: Action)
    requires Enabled(s, a)
    ensures Step(s, a).size == s.size
  {
    match a
    case Move(t, found, spurious) => assert MoveStep(s, t, found, spurious).size == s.size;
    case _ =>
  }

  lemma {:induction false} RunSize(s: State, schedule: seq<Action>)
    requires Inv(s)
    ensures Run(s, schedule).size == s.size
    decreases |schedule|
  {
    hide Inv, Enabled, Step;
    if schedule != [] {
      if Enabled(s, schedule[0]) {
        StepKeepsInv(s, schedule[0]);
        StepSize(s, schedule[0]);
        RunSize(Step(s, schedule[0]), schedule[1..]);
      } else {
        RunSize(s, schedule[1..]);
      }
    }
  }

  /** A consumer's marking makes the block leave its producer if and only if it marks all cells that were left;
      it then has the block in hand to give it back, and no other consumer has a claim on the block. */
  lemma FreedByTheLast(s: State, t: Tid)
    requires Inv(s) && t in s.pc && s.pc[t].Consuming?
    ensures CanMove(s, t, 0, false)
    ensures var b, s' := s.pc[t].parts[0].block, EmptyStep(s, t);
            && (HasBlock(s'.pc[t], b) <==> s.use[b].left == s.pc[t].parts[0].cells)
            && (HasBlock(s'.pc[t], b) <==> !IsOwned(s', b))
            && (HasBlock(s'.pc[t], b) ==>
                  forall u, p, part :: u in s.pc && u != t && PartOk(s, u, p, part) ==> part.block != b)
  {
    var Consuming(p, parts) := s.pc[t];
    assert PcOk(s, t, s.pc[t]) && PartOk(s, t, p, parts[0]);
    CompletingHoldsAll(s, t);
    EmptySettled(s, t);
    var b, s' := parts[0].block, EmptyStep(s, t);
    assert PlaceOk(s', b) && PlaceOk(s, b);
  }

  // ---------------------------------------------------------------- nothing is forgotten

  predicate HasParts(p: Pc) { p.Consuming? || p.Freeing? }

  /** The thread has claimed the cell and not marked it yet. */
  predicate HasCell(p: Pc, b: Block, i: nat) {
    HasParts(p) && exists k :: 0 <= k < |p.parts| && p.parts[k].block == b && i in p.parts[k].cells
  }

  ghost predicate HeldBySome(s: State, b: Block, i: nat) { exists t :: t in s.pc && HasCell(s.pc[t], b, i) }

  /** Every cell that has been claimed and not been marked is some thread's to mark; and who turns to the free list has
      seen that the initial pool is used up. */
  ghost predicate Kept(s: State) {
    && (forall b, i :: b in s.use && i in s.use[b].left && i !in s.use[b].unclaimed ==> HeldBySome(s, b, i))
    && (forall t :: t in s.pc && s.pc[t].TryFreeList? ==> s.size <= s.index)
  }

  /** A step of t that marks nothing and claims nothing. */
  lemma MoveKept(s: State, s': State, t: Tid)
    requires Kept(s) && t in s.pc && t in s'.pc && s'.pc == s.pc[t := s'.pc[t]] && s'.size == s.size
             && s.index <= s'.index
    requires forall b :: b in s'.use ==> b in s.use && s'.use[b] == s.use[b]
    requires forall b, i :: HasCell(s.pc[t], b, i) ==> HasCell(s'.pc[t], b, i)
    requires s'.pc[t].TryFreeList? ==> s'.size <= s'.index
    ensures Kept(s')
  {
    forall b, i | b in s'.use && i in s'.use[b].left && i !in s'.use[b].unclaimed ensures HeldBySome(s', b, i) {
      var u :| u in s.pc && HasCell(s.pc[u], b, i);
      assert HasCell(s'.pc[u], b, i);
    }
  }

  lemma EmptyKept(s: State, t: Tid)
    requires Kept(s) && CanMove(s, t, 0, false) && s.pc[t].Consuming?
    ensures Kept(EmptyStep(s, t))
  {
    var s' := EmptyStep(s, t);
    var Consuming(p, parts) := s.pc[t];
    var Part(b0, cells) := parts[0];
    forall b, i | b in s'.use && i in s'.use[b].left && i !in s'.use[b].unclaimed ensures HeldBySome(s', b, i) {
      var u :| u in s.pc && HasCell(s.pc[u], b, i);
      if u == t {
        var k :| 0 <= k < |parts| && parts[k].block == b && i in parts[k].cells;
        assert k > 0 && parts[1..][k - 1] == parts[k];
      }
      assert HasCell(s'.pc[u], b, i);
    }
  }

  lemma FreeKept(s: State, t: Tid)
    requires Kept(s) && t in s.pc && s.pc[t].Freeing?
    ensures CanMove(s, t, 0, false) && Kept(MoveStep(s, t, 0, false))
  {
    MoveKept(s, MoveStep(s, t, 0, false), t);
  }

  lemma ClaimKept(s: State, t: Tid, p: Pid, part: Part)
    requires Kept(s) && CanClaim(s, t, p, part)
    ensures Kept(ClaimStep(s, t, p, part))
  {
    var s' := ClaimStep(s, t, p, part);
    var parts := s'.pc[t].parts;
    assert parts[|parts| - 1] == part;
    forall b, i | b in s'.use && i in s'.use[b].left && i !in s'.use[b].unclaimed ensures HeldBySome(s', b, i) {
      if b == part.block && i in part.cells {
        assert HasCell(s'.pc[t], b, i);
      } else {
        var u :| u in s.pc && HasCell(s.pc[u], b, i);
        if u == t {
          var k :| 0 <= k < |s.pc[t].parts| && s.pc[t].parts[k].block == b && i in s.pc[t].parts[k].cells;
          assert parts[k] == s.pc[t].parts[k];
        }
        assert HasCell(s'.pc[u], b, i);
      }
    }
  }

  lemma PutInUseKept(s: State, b0: Block)
    requires Kept(s)
    ensures Kept(PutInUseStep(s, b0))
  {
    var s' := PutInUseStep(s, b0);
    forall b, i | b in s'.use && i in s'.use[b].left && i !in s'.use[b].unclaimed ensures HeldBySome(s', b, i) {
      var u :| u in s.pc && HasCell(s.pc[u], b, i);
      assert HasCell(s'.pc[u], b, i);
    }
  }

  lemma StepKept(s: State, a: Action)
    requires Kept(s) && Enabled(s, a)
    ensures Kept(Step(s, a))
  {
    hide Kept, EmptyStep, ClaimStep, PutInUseStep, Issue;
    match a
    case Requisition(t, _) => MoveKept(s, Step(s, a), t);
    case Move(t, found, spurious) =>
      if s.pc[t].Consuming? {
        EmptyKept(s, t);
      } else if s.pc[t].Freeing? {
        FreeKept(s, t);
      } else {
        PoolKept(s, t, found, spurious);
      }
    case PutInUse(_, _, b) => PutInUseKept(s, b);
    case GiveBack(t, p, b) => MoveKept(s, GiveBackStep(s, t, p, b), t);
    case Claim(t, p, part) => ClaimKept(s, t, p, part);
  }

  lemma PoolKept(s: State, t: Tid, found: Block, spurious: bool)
    requires Kept(s) && CanMove(s, t, found, spurious) && !s.pc[t].Consuming? && !s.pc[t].Freeing?
    ensures Kept(MoveStep(s, t, found, spurious))
  {
    MoveKept(s, MoveStep(s, t, found, spurious), t);
  }

  lemma {:induction false} RunKept(s: State, schedule: seq<Action>)
    requires Inv(s) && Kept(s)
    ensures Kept(Run(s, schedule))
    decreases |schedule|
  {
    hide Inv, Kept, Step, Enabled;
    if schedule != [] {
      if Enabled(s, schedule[0]) {
        StepKeepsInv(s, schedule[0]);
        StepKept(s, schedule[0]);
        RunKept(Step(s, schedule[0]), schedule[1..]);
      } else {
        RunKept(s, schedule[1..]);
      }
    }
  }

  /** Over any run: a thread turns to the free list, and can end up without a block, only when the initial pool is used
      up; and no claimed cell is forgotten, so that with no thread at work every cell of a block in use that is not
      marked is still to be claimed. */
  lemma NothingForgotten(bs: nat, size: nat, pids: set<Pid>, tids: set<Tid>, schedule: seq<Action>, t: Tid, b: Block)
    requires bs > 0
    ensures Inv(Init(bs, size, pids, tids))
    ensures var s := Run(Init(bs, size, pids, tids), schedule);
            && (t in s.pc && s.pc[t].TryFreeList? ==> s.size <= s.index)
            && ((forall u :: u in s.pc ==> s.pc[u].Idle?) && b in s.use ==> s.use[b].left == s.use[b].unclaimed)
  {
    InitInv(bs, size, pids, tids);
    RunKept(Init(bs, size, pids, tids), schedule);
    var s := Run(Init(bs, size, pids, tids), schedule);
    if b in s.use {
      assert UseOk(s, b);
    }
    hide Inv, Run;
    if (forall u :: u in s.pc ==> s.pc[u].Idle?) && b in s.use {
      forall i | i in s.use[b].left ensures i in s.use[b].unclaimed {
        assert i in s.use[b].unclaimed || HeldBySome(s, b, i);
      }
    }
  }
}
