/** The CAS free list of concurrentqueue.h as a sequentially consistent state machine:
    one atomic operation per step, any number of threads, any interleaving. */
module FreeList {
  import opened Collections
  import opened Options

  type Node = nat
  type Tid = nat

  const SHOULD_BE_ON_FREELIST: nat := 0x8000_0000
  const REFS_MODULUS: nat := 0x1_0000_0000

  /** freeListRefs & REFS_MASK */
  function RefCount(refs: nat): nat { refs % SHOULD_BE_ON_FREELIST }

  /** freeListRefs & SHOULD_BE_ON_FREELIST, as a flag */
  predicate Flagged(refs: nat) { refs / SHOULD_BE_ON_FREELIST % 2 == 1 }

  /** Unsigned 32-bit addition, as fetch_add and fetch_sub perform it. */
  function FetchAdd(refs: nat, delta: int): nat { (refs + delta) % REFS_MODULUS }

  /** Where add_knowing_refcount_is_zero returns to: the caller of add, or the
      loop of try_get with the head that loop last saw. */
  datatype Cont = Return | Resume(head: Option<Node>)

  /** The next atomic operation of a thread, with the locals it still needs. */
  datatype Pc =
    | Idle
    // add
    | AddFlag(n: Node)
    // add_knowing_refcount_is_zero
    | PushLoad(n: Node, cont: Cont)
    | PushNext(n: Node, h: Option<Node>, cont: Cont)
    | PushRefs(n: Node, h: Option<Node>, cont: Cont)
    | PushCas(n: Node, h: Option<Node>, cont: Cont)
    | PushRetry(n: Node, h: Option<Node>, cont: Cont)
    // try_get
    | GetLoad
    | GetRefs(top: Node)
    | GetPin(top: Node, r: nat)
    | GetNext(top: Node)
    | GetCas(top: Node, nx: Option<Node>)
    | GetDone(top: Node)
    | GetUnpin(prev: Node, seen: Option<Node>)

  /** What a node is currently used for (auxiliary; no step reads it). */
  datatype Place =
    | Outside             // in the hands of the code that uses the list
    | Starting(worker: Tid)   // add was called, its flag is not set yet
    | Deferred            // flagged, waiting for a reference holder to add it
    | Adding(worker: Tid)     // flagged, no references: the worker alone may touch it
    | Pushing(worker: Tid)    // reference count published, not linked yet
    | Listed              // reachable from the head
    | Taken(worker: Tid)      // unlinked by the worker, references not yet dropped

  datatype State = State(
    head: Option<Node>,
    refs: map<Node, nat>,
    next: map<Node, Option<Node>>,
    pc: map<Tid, Pc>,
    place: map<Node, Place>,   // auxiliary
    list: seq<Node>            // auxiliary: the nodes from the head on
  )

  /** What an idle thread does next. Only the holder of an outside node adds it. */
  datatype Call = CallAdd(n: Node) | CallGet

  predicate Enabled(s: State, t: Tid, call: Call) {
    && t in s.pc
    && (s.pc[t].Idle? && call.CallAdd? ==> call.n in s.place && s.place[call.n] == Outside)
  }

  /** Threads that have incremented the node's reference count and not yet dropped it. */
  predicate Holds(p: Pc, n: Node) {
    match p
    case GetNext(h) => h == n
    case GetCas(h, _) => h == n
    case GetDone(h) => h == n
    case GetUnpin(prev, _) => prev == n
    case _ => false
  }

  function Holders(pc: map<Tid, Pc>, n: Node): set<Tid> {
    set t | t in pc && Holds(pc[t], n)
  }

  /** The top of try_get's loop. */
  function GetTop(h: Option<Node>): Pc {
    match h
    case None => Idle
    case Some(n) => GetRefs(n)
  }

  function Continue(cont: Cont): Pc {
    match cont
    case Return => Idle
    case Resume(h) => GetTop(h)
  }

  function Goto(s: State, t: Tid, p: Pc): State { s.(pc := s.pc[t := p]) }

  predicate InNodes(s: State, h: Option<Node>) { h.Some? ==> h.value in s.refs }

  predicate ContOk(s: State, cont: Cont) { cont.Resume? ==> InNodes(s, cont.head) }

  /** What each program point guarantees about its locals. */
  predicate PcOk(s: State, t: Tid, p: Pc) {
    match p
    case Idle => true
    case AddFlag(n) => n in s.refs && n in s.place && s.place[n] == Starting(t)
    case PushLoad(n, c) => n in s.refs && n in s.place && s.place[n] == Adding(t) && ContOk(s, c)
    case PushNext(n, h, c) => n in s.refs && n in s.place && s.place[n] == Adding(t) && InNodes(s, h) && ContOk(s, c)
    case PushRefs(n, h, c) =>
      && n in s.refs && n in s.place && n in s.next
      && s.place[n] == Adding(t) && s.next[n] == h && InNodes(s, h) && ContOk(s, c)
    case PushCas(n, h, c) =>
      && n in s.refs && n in s.place && n in s.next
      && s.place[n] == Pushing(t) && s.next[n] == h && InNodes(s, h) && ContOk(s, c)
    case PushRetry(n, h, c) =>
      n in s.refs && n in s.place && s.place[n] == Pushing(t) && InNodes(s, h) && ContOk(s, c)
    case GetLoad => true
    case GetRefs(h) => h in s.refs
    case GetPin(h, _) => h in s.refs
    case GetNext(h) => h in s.refs && h in s.next
    case GetCas(h, nx) => h in s.refs && h in s.next && s.next[h] == nx
    case GetDone(h) => h in s.refs && h in s.place && s.place[h] == Taken(t)
    case GetUnpin(prev, seen) => prev in s.refs && InNodes(s, seen)
  }

  /** One for the list itself, from the moment the count is published until the taker drops it. */
  function ListRef(p: Place): nat { if p.Pushing? || p.Listed? || p.Taken? then 1 else 0 }

  function FlagBit(p: Place): nat { if p.Deferred? || p.Adding? then SHOULD_BE_ON_FREELIST else 0 }

  /** The thread a place names is at the program point that place stands for. */
  predicate PlaceOk(s: State, n: Node, p: Place) {
    match p
    case Outside => true
    case Starting(t) => t in s.pc && s.pc[t] == AddFlag(n)
    case Deferred => Holders(s.pc, n) != {}
    case Adding(t) =>
      && Holders(s.pc, n) == {}
      && t in s.pc && (s.pc[t].PushLoad? || s.pc[t].PushNext? || s.pc[t].PushRefs?) && s.pc[t].n == n
    case Pushing(t) => t in s.pc && (s.pc[t].PushCas? || s.pc[t].PushRetry?) && s.pc[t].n == n
    case Listed => n in s.list
    case Taken(t) => t in s.pc && s.pc[t] == GetDone(n)
  }

  predicate NodeOk(s: State, n: Node) {
    && n in s.refs && n in s.next && n in s.place
    && s.refs[n] == |Holders(s.pc, n)| + ListRef(s.place[n]) + FlagBit(s.place[n])
    && PlaceOk(s, n, s.place[n])
    && InNodes(s, s.next[n])
  }

  /** The node after position i, as freeListNext must show it. */
  function After(list: seq<Node>, i: int): Option<Node>
    requires -1 <= i < |list|
  {
    if i + 1 < |list| then Some(list[i + 1]) else None
  }

  predicate LinkedAt(s: State, i: nat)
    requires i < |s.list|
  {
    s.list[i] in s.next && s.next[s.list[i]] == After(s.list, i)
  }

  predicate Linked(s: State) {
    && s.head == After(s.list, -1)
    && (forall i :: 0 <= i < |s.list| ==> LinkedAt(s, i))
  }

  /** The linked list from the head visits each listed node once and then ends. */
  predicate ListOk(s: State) {
    && Linked(s)
    && (forall i, j :: 0 <= i < j < |s.list| ==> s.list[i] != s.list[j])
    && (forall i :: 0 <= i < |s.list| ==>
          s.list[i] in s.refs && s.list[i] in s.place && s.place[s.list[i]] == Listed)
  }

  predicate Inv(s: State) {
    && s.refs.Keys == s.next.Keys == s.place.Keys
    && |s.pc| < SHOULD_BE_ON_FREELIST - 1
    && (forall t :: t in s.pc ==> PcOk(s, t, s.pc[t]))
    && (forall n :: n in s.refs ==> NodeOk(s, n))
    && ListOk(s)
  }

  // ---------------------------------------------------------------- steps

  function StepIdle(s: State, t: Tid, call: Call): State
    requires Enabled(s, t, call) && s.pc[t].Idle?
  {
    match call
    case CallAdd(n) => Goto(s, t, AddFlag(n)).(place := s.place[n := Starting(t)])
    case CallGet => Goto(s, t, GetLoad)
  }

  /** freeListRefs.fetch_add(SHOULD_BE_ON_FREELIST): the caller adds the node if the old value was 0. */
  function StepAddFlag(s: State, t: Tid): State
    requires t in s.pc && s.pc[t].AddFlag? && s.pc[t].n in s.refs
  {
    var n := s.pc[t].n;
    var s' := s.(refs := s.refs[n := FetchAdd(s.refs[n], SHOULD_BE_ON_FREELIST)]);
    if s.refs[n] == 0 then
      Goto(s', t, PushLoad(n, Return)).(place := s.place[n := Adding(t)])
    else
      Goto(s', t, Idle).(place := s.place[n := Deferred])
  }

  function StepPushLoad(s: State, t: Tid): State
    requires t in s.pc && s.pc[t].PushLoad?
  {
    Goto(s, t, PushNext(s.pc[t].n, s.head, s.pc[t].cont))
  }

  function StepPushNext(s: State, t: Tid): State
    requires t in s.pc && s.pc[t].PushNext?
  {
    var PushNext(n, h, c) := s.pc[t];
    Goto(s, t, PushRefs(n, h, c)).(next := s.next[n := h])
  }

  function StepPushRefs(s: State, t: Tid): State
    requires t in s.pc && s.pc[t].PushRefs?
  {
    var PushRefs(n, h, c) := s.pc[t];
    Goto(s, t, PushCas(n, h, c)).(refs := s.refs[n := 1], place := s.place[n := Pushing(t)])
  }

  /** compare_exchange_strong(head, node); on failure `h` is what the head was instead. */
  function StepPushCas(s: State, t: Tid): State
    requires t in s.pc && s.pc[t].PushCas?
  {
    var PushCas(n, h, c) := s.pc[t];
    if s.head == h then
      Goto(s, t, Continue(c)).(head := Some(n), place := s.place[n := Listed], list := [n] + s.list)
    else
      Goto(s, t, PushRetry(n, s.head, c))
  }

  /** fetch_add(SHOULD_BE_ON_FREELIST - 1): trade the list's reference for the flag. */
  function StepPushRetry(s: State, t: Tid): State
    requires t in s.pc && s.pc[t].PushRetry? && s.pc[t].n in s.refs
  {
    var PushRetry(n, h, c) := s.pc[t];
    var s' := s.(refs := s.refs[n := FetchAdd(s.refs[n], SHOULD_BE_ON_FREELIST - 1)]);
    if s.refs[n] == 1 then
      Goto(s', t, PushNext(n, h, c)).(place := s.place[n := Adding(t)])
    else
      Goto(s', t, Continue(c)).(place := s.place[n := Deferred])
  }

  function StepGetRefs(s: State, t: Tid): State
    requires t in s.pc && s.pc[t].GetRefs? && s.pc[t].top in s.refs
  {
    Goto(s, t, GetPin(s.pc[t].top, s.refs[s.pc[t].top]))
  }

  function StepGetPin(s: State, t: Tid): State
    requires t in s.pc && s.pc[t].GetPin? && s.pc[t].top in s.refs
  {
    var GetPin(h, r) := s.pc[t];
    if RefCount(r) == 0 || s.refs[h] != r then
      Goto(s, t, GetLoad)
    else
      Goto(s, t, GetNext(h)).(refs := s.refs[h := FetchAdd(r, 1)])
  }

  function StepGetNext(s: State, t: Tid): State
    requires t in s.pc && s.pc[t].GetNext? && s.pc[t].top in s.next
  {
    Goto(s, t, GetCas(s.pc[t].top, s.next[s.pc[t].top]))
  }

  function StepGetCas(s: State, t: Tid): State
    requires t in s.pc && s.pc[t].GetCas?
  {
    var GetCas(h, nx) := s.pc[t];
    if s.head == Some(h) then
      Goto(s, t, GetDone(h)).(head := nx, place := s.place[h := Taken(t)],
                              list := if s.list == [] then [] else s.list[1..])
    else
      Goto(s, t, GetUnpin(h, s.head))
  }

  /** fetch_sub(2), then return the node to the caller. */
  function StepGetDone(s: State, t: Tid): State
    requires t in s.pc && s.pc[t].GetDone? && s.pc[t].top in s.refs
  {
    var h := s.pc[t].top;
    Goto(s, t, Idle).(refs := s.refs[h := FetchAdd(s.refs[h], -2)], place := s.place[h := Outside])
  }

  /** fetch_sub(1); whoever brings a flagged node's count to zero adds it. */
  function StepGetUnpin(s: State, t: Tid): State
    requires t in s.pc && s.pc[t].GetUnpin? && s.pc[t].prev in s.refs
  {
    var GetUnpin(prev, seen) := s.pc[t];
    var s' := s.(refs := s.refs[prev := FetchAdd(s.refs[prev], -1)]);
    if s.refs[prev] == SHOULD_BE_ON_FREELIST + 1 then
      Goto(s', t, PushLoad(prev, Resume(seen))).(place := s.place[prev := Adding(t)])
    else
      Goto(s', t, GetTop(seen))
  }

  function Step(s: State, t: Tid, call: Call): State
    requires Enabled(s, t, call) && PcOk(s, t, s.pc[t])
  {
    match s.pc[t]
    case Idle => StepIdle(s, t, call)
    case AddFlag(_) => StepAddFlag(s, t)
    case PushLoad(_, _) => StepPushLoad(s, t)
    case PushNext(_, _, _) => StepPushNext(s, t)
    case PushRefs(_, _, _) => StepPushRefs(s, t)
    case PushCas(_, _, _) => StepPushCas(s, t)
    case PushRetry(_, _, _) => StepPushRetry(s, t)
    case GetLoad => Goto(s, t, GetTop(s.head))
    case GetRefs(_) => StepGetRefs(s, t)
    case GetPin(_, _) => StepGetPin(s, t)
    case GetNext(_) => StepGetNext(s, t)
    case GetCas(_, _) => StepGetCas(s, t)
    case GetDone(_) => StepGetDone(s, t)
    case GetUnpin(_, _) => StepGetUnpin(s, t)
  }

  // ---------------------------------------------------------------- invariant

  /** Moving thread t to p changes the holders of n by at most that thread. */
  predicate Moved(pc: map<Tid, Pc>, t: Tid, p: Pc, n: Node)
    requires t in pc
  {
    && Holders(pc[t := p], n) == (if Holds(p, n) then Holders(pc, n) + {t} else Holders(pc, n) - {t})
    && |Holders(pc[t := p], n)| ==
       |Holders(pc, n)| + (if Holds(p, n) then 1 else 0) - (if Holds(pc[t], n) then 1 else 0)
  }

  lemma FetchAddExact(refs: nat, delta: int)
    requires 0 <= refs + delta < REFS_MODULUS
    ensures FetchAdd(refs, delta) == refs + delta
  {
  }

  lemma HoldersMove(pc: map<Tid, Pc>, t: Tid, p: Pc, n: Node)
    requires t in pc
    ensures Moved(pc, t, p, n)
  {
    var before, after := Holders(pc, n), Holders(pc[t := p], n);
    assert after == if Holds(p, n) then before + {t} else before - {t};
  }

  /** Reference counts stay below the flag bit: there are fewer threads than that. */
  lemma CountFits(s: State, n: Node)
    requires Inv(s)
    ensures |Holders(s.pc, n)| <= |s.pc| < SHOULD_BE_ON_FREELIST - 1
  {
    SubsetSize(Holders(s.pc, n), s.pc.Keys);
  }

  /** The node a thread has to itself at its program point. */
  function OwnNode(p: Pc): Option<Node> {
    match p
    case AddFlag(n) => Some(n)
    case PushLoad(n, _) => Some(n)
    case PushNext(n, _, _) => Some(n)
    case PushRefs(n, _, _) => Some(n)
    case PushCas(n, _, _) => Some(n)
    case PushRetry(n, _, _) => Some(n)
    case GetDone(h) => Some(h)
    case _ => None
  }

  function Worker(p: Place): Option<Tid> {
    match p
    case Starting(t) => Some(t)
    case Adding(t) => Some(t)
    case Pushing(t) => Some(t)
    case Taken(t) => Some(t)
    case _ => None
  }

  /** What every step has in common: thread t moved, and at most node x changed, which t may change. */
  ghost predicate Local(s: State, s': State, t: Tid, x: Node) {
    && t in s.pc && t in s'.pc && s'.pc == s.pc[t := s'.pc[t]]
    && x in s.refs && x in s'.refs && s'.refs == s.refs[x := s'.refs[x]]
    && x in s.next && x in s'.next && s'.next == s.next[x := s'.next[x]]
    && x in s.place && x in s'.place && s'.place == s.place[x := s'.place[x]]
    && (OwnNode(s.pc[t]) == None || OwnNode(s.pc[t]) == Some(x))
    && (s'.place[x] == s.place[x] || Worker(s.place[x]) == None || Worker(s.place[x]) == Some(t))
    && (s'.next[x] == s.next[x] || (Holders(s.pc, x) == {} && Worker(s.place[x]) == Some(t)))
    && (forall n :: n != x ==> !Holds(s.pc[t], n) && !Holds(s'.pc[t], n))
    && (forall n :: n in s.list && n != x ==> n in s'.list)
  }

  lemma OtherNodeKept(s: State, s': State, t: Tid, x: Node, n: Node)
    requires NodeOk(s, n) && Local(s, s', t, x) && n in s.refs && n != x
    ensures NodeOk(s', n)
  {
    HoldersMove(s.pc, t, s'.pc[t], n);
    assert Holders(s'.pc, n) == Holders(s.pc, n) by { assert t !in Holders(s.pc, n); }
  }

  lemma OtherThreadKept(s: State, s': State, t: Tid, x: Node, u: Tid)
    requires Inv(s) && Local(s, s', t, x) && u in s.pc && u != t
    ensures PcOk(s', u, s.pc[u])
  {
    assert PcOk(s, u, s.pc[u]);
    assert s.pc[u].GetCas? ==> u in Holders(s.pc, s.pc[u].top);
  }

  /** A local step keeps the invariant if it does so for its own thread, its own node and the list. */
  lemma LocalStepKeepsInv(s: State, s': State, t: Tid, x: Node)
    requires Inv(s) && Local(s, s', t, x)
    requires PcOk(s', t, s'.pc[t]) && NodeOk(s', x) && ListOk(s')
    ensures Inv(s')
  {
    forall n | n in s'.refs ensures NodeOk(s', n) {
      if n != x { OtherNodeKept(s, s', t, x, n); }
    }
    forall u | u in s'.pc ensures PcOk(s', u, s'.pc[u]) {
      if u != t { OtherThreadKept(s, s', t, x, u); }
    }
    assert s'.pc.Keys == s.pc.Keys;
    assert |s'.pc| == |s'.pc.Keys| && |s.pc| == |s.pc.Keys|;
  }

  /** What one step needs to know about its thread, its node and the list. */
  ghost predicate Near(s: State, t: Tid, x: Node) {
    && t in s.pc && PcOk(s, t, s.pc[t])
    && NodeOk(s, x) && |Holders(s.pc, x)| < SHOULD_BE_ON_FREELIST - 1
    && InNodes(s, s.head)
  }

  /** What one step guarantees in return. */
  ghost predicate Kept(s: State, s': State, t: Tid, x: Node) {
    && Local(s, s', t, x) && PcOk(s', t, s'.pc[t]) && NodeOk(s', x)
    && (s'.head == s.head && s'.list == s.list)
    && (s.place[x] == Listed || s'.place[x] == Listed ==> s'.place[x] == s.place[x] && s'.next[x] == s.next[x])
  }

  /** A step that leaves the listed nodes alone leaves the list well linked. */
  lemma ListKept(s: State, s': State, t: Tid, x: Node)
    requires ListOk(s) && Kept(s, s', t, x)
    ensures ListOk(s')
  {
    forall i | 0 <= i < |s'.list| ensures LinkedAt(s', i) {
      assert LinkedAt(s, i);
    }
  }

  lemma StepCallAddKept(s: State, t: Tid, n: Node)
    requires Near(s, t, n) && s.pc[t].Idle? && s.place[n] == Outside
    ensures Kept(s, StepIdle(s, t, CallAdd(n)), t, n)
  {
    HoldersMove(s.pc, t, AddFlag(n), n);
  }

  lemma StepAddFlagKept(s: State, t: Tid)
    requires t in s.pc && s.pc[t].AddFlag? && Near(s, t, s.pc[t].n)
    ensures Kept(s, StepAddFlag(s, t), t, s.pc[t].n)
  {
    StepAddFlagLocal(s, t);
    StepAddFlagNode(s, t);
    hide NodeOk, Local;
  }

  lemma StepAddFlagLocal(s: State, t: Tid)
    requires t in s.pc && s.pc[t].AddFlag? && Near(s, t, s.pc[t].n)
    ensures Local(s, StepAddFlag(s, t), t, s.pc[t].n) && PcOk(StepAddFlag(s, t), t, StepAddFlag(s, t).pc[t])
  {
    hide FetchAdd, Holders, PlaceOk;
  }

  lemma StepAddFlagNode(s: State, t: Tid)
    requires t in s.pc && s.pc[t].AddFlag? && Near(s, t, s.pc[t].n)
    ensures NodeOk(StepAddFlag(s, t), s.pc[t].n)
  {
    hide FetchAdd;
    var n, s' := s.pc[t].n, StepAddFlag(s, t);
    HoldersMove(s.pc, t, s'.pc[t], n);
    FetchAddExact(s.refs[n], SHOULD_BE_ON_FREELIST);
    assert s.place[n] == Starting(t) && s'.refs[n] == |Holders(s.pc, n)| + SHOULD_BE_ON_FREELIST;
    assert Holders(s'.pc, n) == Holders(s.pc, n);
  }

  lemma StepPushLoadKept(s: State, t: Tid)
    requires t in s.pc && s.pc[t].PushLoad? && Near(s, t, s.pc[t].n)
    ensures Kept(s, StepPushLoad(s, t), t, s.pc[t].n)
  {
    HoldersMove(s.pc, t, StepPushLoad(s, t).pc[t], s.pc[t].n);
  }

  lemma StepPushNextKept(s: State, t: Tid)
    requires t in s.pc && s.pc[t].PushNext? && Near(s, t, s.pc[t].n)
    ensures Kept(s, StepPushNext(s, t), t, s.pc[t].n)
  {
    HoldersMove(s.pc, t, StepPushNext(s, t).pc[t], s.pc[t].n);
  }

  lemma StepPushRefsKept(s: State, t: Tid)
    requires t in s.pc && s.pc[t].PushRefs? && Near(s, t, s.pc[t].n)
    ensures Kept(s, StepPushRefs(s, t), t, s.pc[t].n)
  {
    HoldersMove(s.pc, t, StepPushRefs(s, t).pc[t], s.pc[t].n);
  }

  /** Where a thread goes after add_knowing_refcount_is_zero, it holds nothing. */
  lemma ContinueIsFree(s: State, t: Tid, c: Cont)
    requires ContOk(s, c)
    ensures OwnNode(Continue(c)) == None && PcOk(s, t, Continue(c))
    ensures forall n :: !Holds(Continue(c), n)
  {
  }

  lemma StepPushCasFailKept(s: State, t: Tid)
    requires t in s.pc && s.pc[t].PushCas? && Near(s, t, s.pc[t].n) && s.head != s.pc[t].h
    ensures Kept(s, StepPushCas(s, t), t, s.pc[t].n)
  {
    HoldersMove(s.pc, t, StepPushCas(s, t).pc[t], s.pc[t].n);
  }

  /** Linking a node in front keeps the list well linked. */
  lemma PushedListOk(s: State, n: Node, s': State)
    requires ListOk(s) && n in s.refs && n in s.place && n in s.next
    requires s.place[n] != Listed && s.next[n] == s.head
    requires s'.refs == s.refs && s'.next == s.next && s'.place == s.place[n := Listed]
    requires s'.head == Some(n) && s'.list == [n] + s.list
    ensures ListOk(s')
  {
    forall i | 0 <= i < |s'.list| ensures LinkedAt(s', i) {
      assert i > 0 ==> LinkedAt(s, i - 1);
    }
  }

  lemma StepPushCasWon(s: State, t: Tid)
    requires t in s.pc && s.pc[t].PushCas? && Near(s, t, s.pc[t].n) && s.head == s.pc[t].h
    ensures Local(s, StepPushCas(s, t), t, s.pc[t].n)
    ensures PcOk(StepPushCas(s, t), t, StepPushCas(s, t).pc[t]) && NodeOk(StepPushCas(s, t), s.pc[t].n)
  {
    HoldersMove(s.pc, t, StepPushCas(s, t).pc[t], s.pc[t].n);
    ContinueIsFree(s, t, s.pc[t].cont);
  }

  lemma StepPushRetryKept(s: State, t: Tid)
    requires t in s.pc && s.pc[t].PushRetry? && Near(s, t, s.pc[t].n)
    ensures Kept(s, StepPushRetry(s, t), t, s.pc[t].n)
  {
    StepPushRetryLocal(s, t);
    StepPushRetryNode(s, t);
    hide NodeOk, Local;
  }

  lemma StepPushRetryLocal(s: State, t: Tid)
    requires t in s.pc && s.pc[t].PushRetry? && Near(s, t, s.pc[t].n)
    ensures Local(s, StepPushRetry(s, t), t, s.pc[t].n) && PcOk(StepPushRetry(s, t), t, StepPushRetry(s, t).pc[t])
  {
    ContinueIsFree(s, t, s.pc[t].cont);
    hide FetchAdd, Holders, PlaceOk;
  }

  lemma StepPushRetryNode(s: State, t: Tid)
    requires t in s.pc && s.pc[t].PushRetry? && Near(s, t, s.pc[t].n)
    ensures NodeOk(StepPushRetry(s, t), s.pc[t].n)
  {
    hide FetchAdd, Continue, ContOk;
    var PushRetry(n, h, c) := s.pc[t];
    FetchAddExact(s.refs[n], SHOULD_BE_ON_FREELIST - 1);
    ContinueIsFree(s, t, c);
    assert s.refs[n] == |Holders(s.pc, n)| + 1;
    RetriedOk(s, StepPushRetry(s, t), t, n);
  }

  /** The list's reference is gone and the flag is set: the node is t's again, or a holder will add it. */
  lemma RetriedOk(s: State, s': State, t: Tid, n: Node)
    requires t in s.pc && t in s'.pc && n in s.place && s.place[n] == Pushing(t) && NodeOk(s, n) && n in s'.refs
             && n in s'.place
    requires s' == s.(pc := s.pc[t := s'.pc[t]], refs := s.refs[n := s'.refs[n]], place := s.place[n := s'.place[n]])
    requires s'.refs[n] == |Holders(s.pc, n)| + SHOULD_BE_ON_FREELIST && !Holds(s.pc[t], n) && !Holds(s'.pc[t], n)
    requires if Holders(s.pc, n) == {} then s'.place[n] == Adding(t) && s'.pc[t].PushNext? && s'.pc[t].n == n
             else s'.place[n] == Deferred
    ensures NodeOk(s', n)
  {
    HoldersMove(s.pc, t, s'.pc[t], n);
    assert Holders(s'.pc, n) == Holders(s.pc, n);
  }

  lemma StepGetRefsKept(s: State, t: Tid)
    requires t in s.pc && s.pc[t].GetRefs? && Near(s, t, s.pc[t].top)
    ensures Kept(s, StepGetRefs(s, t), t, s.pc[t].top)
  {
    HoldersMove(s.pc, t, StepGetRefs(s, t).pc[t], s.pc[t].top);
  }

  /** A count that is not zero belongs to a node nobody has to itself for adding. */
  lemma PinnedNodeOk(s: State, t: Tid, h: Node)
    requires t in s.pc && s.pc[t].GetPin? && s.pc[t].top == h && NodeOk(s, h)
    requires |Holders(s.pc, h)| < SHOULD_BE_ON_FREELIST - 1
    requires RefCount(s.refs[h]) != 0 && s.pc[t].r == s.refs[h]
    ensures NodeOk(StepGetPin(s, t), h)
  {
    HoldersMove(s.pc, t, GetNext(h), h);
    FetchAddExact(s.refs[h], 1);
    assert !s.place[h].Adding?;
  }

  lemma StepGetPinKept(s: State, t: Tid)
    requires t in s.pc && s.pc[t].GetPin? && Near(s, t, s.pc[t].top)
    ensures Kept(s, StepGetPin(s, t), t, s.pc[t].top)
  {
    var GetPin(h, r) := s.pc[t];
    if RefCount(r) == 0 || s.refs[h] != r {
      HoldersMove(s.pc, t, GetLoad, h);
    } else {
      PinnedNodeOk(s, t, h);
    }
  }

  lemma StepGetNextKept(s: State, t: Tid)
    requires t in s.pc && s.pc[t].GetNext? && Near(s, t, s.pc[t].top)
    ensures Kept(s, StepGetNext(s, t), t, s.pc[t].top)
  {
    HoldersMove(s.pc, t, StepGetNext(s, t).pc[t], s.pc[t].top);
  }

  lemma StepGetCasFailKept(s: State, t: Tid)
    requires t in s.pc && s.pc[t].GetCas? && Near(s, t, s.pc[t].top) && s.head != Some(s.pc[t].top)
    ensures Kept(s, StepGetCas(s, t), t, s.pc[t].top)
  {
    HoldersMove(s.pc, t, StepGetCas(s, t).pc[t], s.pc[t].top);
  }

  lemma PoppedListOk(s: State, s': State)
    requires ListOk(s) && s.list != [] && s'.list == s.list[1..]
    requires s'.refs == s.refs && s'.next == s.next && s'.place.Keys == s.place.Keys
    requires forall n :: n in s.place && n != s.list[0] ==> s'.place[n] == s.place[n]
    requires s.list[0] in s.next && s'.head == s.next[s.list[0]]
    ensures ListOk(s')
  {
    assert LinkedAt(s, 0);
    forall i | 0 <= i < |s'.list| ensures LinkedAt(s', i) {
      assert LinkedAt(s, i + 1);
    }
  }

  lemma StepGetCasWon(s: State, t: Tid)
    requires t in s.pc && s.pc[t].GetCas? && Near(s, t, s.pc[t].top) && s.head == Some(s.pc[t].top)
    requires s.list != [] && s.list[0] == s.pc[t].top && s.place[s.pc[t].top] == Listed
    ensures Local(s, StepGetCas(s, t), t, s.pc[t].top)
    ensures PcOk(StepGetCas(s, t), t, StepGetCas(s, t).pc[t]) && NodeOk(StepGetCas(s, t), s.pc[t].top)
  {
    HoldersMove(s.pc, t, StepGetCas(s, t).pc[t], s.pc[t].top);
  }

  lemma StepGetDoneKept(s: State, t: Tid)
    requires t in s.pc && s.pc[t].GetDone? && Near(s, t, s.pc[t].top)
    ensures Kept(s, StepGetDone(s, t), t, s.pc[t].top)
  {
    HoldersMove(s.pc, t, StepGetDone(s, t).pc[t], s.pc[t].top);
    assert t in Holders(s.pc, s.pc[t].top);
    FetchAddExact(s.refs[s.pc[t].top], -2);
  }

  lemma StepGetUnpinKept(s: State, t: Tid)
    requires t in s.pc && s.pc[t].GetUnpin? && Near(s, t, s.pc[t].prev)
    ensures Kept(s, StepGetUnpin(s, t), t, s.pc[t].prev)
  {
    StepGetUnpinLocal(s, t);
    StepGetUnpinNode(s, t);
    hide NodeOk, Local;
  }

  lemma StepGetUnpinLocal(s: State, t: Tid)
    requires t in s.pc && s.pc[t].GetUnpin? && Near(s, t, s.pc[t].prev)
    ensures Local(s, StepGetUnpin(s, t), t, s.pc[t].prev) && PcOk(StepGetUnpin(s, t), t, StepGetUnpin(s, t).pc[t])
  {
    var n := s.pc[t].prev;
    assert s.place[n].Adding? ==> t in Holders(s.pc, n);
    assert s.refs[n] == SHOULD_BE_ON_FREELIST + 1 ==> s.place[n].Deferred? by { assert t in Holders(s.pc, n); }
    hide FetchAdd, Holders;
  }

  lemma StepGetUnpinNode(s: State, t: Tid)
    requires t in s.pc && s.pc[t].GetUnpin? && Near(s, t, s.pc[t].prev)
    ensures NodeOk(StepGetUnpin(s, t), s.pc[t].prev)
  {
    hide FetchAdd;
    var n, s' := s.pc[t].prev, StepGetUnpin(s, t);
    assert t in Holders(s.pc, n);
    FetchAddExact(s.refs[n], -1);
    if s.refs[n] == SHOULD_BE_ON_FREELIST + 1 {
      LastHolderAdds(s, t);
    } else {
      UnpinnedOk(s, s', t, n);
    }
  }

  lemma LastHolderAdds(s: State, t: Tid)
    requires t in s.pc && s.pc[t].GetUnpin? && Near(s, t, s.pc[t].prev)
    requires s.refs[s.pc[t].prev] == SHOULD_BE_ON_FREELIST + 1
    ensures NodeOk(StepGetUnpin(s, t), s.pc[t].prev)
  {
    hide FetchAdd;
    var n, s' := s.pc[t].prev, StepGetUnpin(s, t);
    assert t in Holders(s.pc, n);
    FetchAddExact(s.refs[n], -1);
    assert s.place[n] == Deferred && |Holders(s.pc, n)| == 1;
    HoldersMove(s.pc, t, s'.pc[t], n);
    assert Holders(s'.pc, n) == {};
  }

  /** Another holder lets go. */
  lemma UnpinnedOk(s: State, s': State, t: Tid, n: Node)
    requires t in s.pc && s.pc[t].GetUnpin? && s.pc[t].prev == n && NodeOk(s, n)
    requires t in s'.pc && n in s'.refs && s' == s.(pc := s.pc[t := s'.pc[t]], refs := s.refs[n := s'.refs[n]])
    requires s'.refs[n] + 1 == s.refs[n] && !Holds(s'.pc[t], n) && OwnNode(s'.pc[t]) == None
    requires s.refs[n] != SHOULD_BE_ON_FREELIST + 1
    ensures NodeOk(s', n)
  {
    assert t in Holders(s.pc, n) && OwnNode(s.pc[t]) == None;
    HoldersMove(s.pc, t, s'.pc[t], n);
    assert s.place[n] == Deferred ==> |Holders(s'.pc, n)| > 0;
  }

  lemma WonPushKeepsInv(s: State, t: Tid)
    requires Inv(s) && t in s.pc && s.pc[t].PushCas? && Near(s, t, s.pc[t].n) && s.head == s.pc[t].h
    ensures Inv(StepPushCas(s, t))
  {
    var n, s' := s.pc[t].n, StepPushCas(s, t);
    StepPushCasWon(s, t);
    PushedListOk(s, n, s');
    hide NodeOk, PcOk, ListOk, Local;
    LocalStepKeepsInv(s, s', t, n);
  }

  lemma WonGetKeepsInv(s: State, t: Tid)
    requires Inv(s) && t in s.pc && s.pc[t].GetCas? && Near(s, t, s.pc[t].top) && s.head == Some(s.pc[t].top)
    ensures Inv(StepGetCas(s, t))
  {
    var n, s' := s.pc[t].top, StepGetCas(s, t);
    assert s.place[s.list[0]] == Listed;
    StepGetCasWon(s, t);
    PoppedListOk(s, s');
    hide NodeOk, PcOk, ListOk, Local;
    LocalStepKeepsInv(s, s', t, n);
  }

  lemma KeptKeepsInv(s: State, s': State, t: Tid, x: Node)
    requires Inv(s) && Kept(s, s', t, x)
    ensures Inv(s')
  {
    ListKept(s, s', t, x);
    hide NodeOk, PcOk, ListOk, Local;
    LocalStepKeepsInv(s, s', t, x);
  }

  lemma HeadInNodes(s: State)
    requires Inv(s)
    ensures InNodes(s, s.head)
  {
  }

  /** Every atomic operation of every thread keeps the invariant. */
  lemma StepKeepsInv(s: State, t: Tid, call: Call)
    requires Inv(s) && Enabled(s, t, call)
    ensures Inv(Step(s, t, call))
  {
    hide NodeOk, ListOk, Kept, Near, Holders;
    match Subject(s.pc[t], call)
    case None =>
      HeadInNodes(s);
      PureMoveKeepsInv(s, t, Step(s, t, call).pc[t]);
    case Some(x) =>
      NearOwnNode(s, t, call);
      if s.pc[t].PushCas? && s.head == s.pc[t].h {
        WonPushKeepsInv(s, t);
      } else if s.pc[t].GetCas? && s.head == Some(x) {
        WonGetKeepsInv(s, t);
      } else {
        StepKept(s, t, call);
        KeptKeepsInv(s, Step(s, t, call), t, x);
      }
  }

  /** The node a step works on, if any. */
  function Subject(p: Pc, call: Call): Option<Node> {
    match p
    case Idle => (match call case CallAdd(n) => Some(n) case CallGet => None)
    case GetRefs(h) => Some(h)
    case GetPin(h, _) => Some(h)
    case GetNext(h) => Some(h)
    case GetCas(h, _) => Some(h)
    case GetUnpin(prev, _) => Some(prev)
    case _ => OwnNode(p)
  }

  lemma NearOwnNode(s: State, t: Tid, call: Call)
    requires Inv(s) && Enabled(s, t, call) && Subject(s.pc[t], call).Some?
    ensures Near(s, t, Subject(s.pc[t], call).value)
  {
    var x := Subject(s.pc[t], call).value;
    assert PcOk(s, t, s.pc[t]);
    assert NodeOk(s, x);
    CountFits(s, x);
  }

  /** Every step but the two exchanges that succeed leaves the list as it is. */
  lemma StepKept(s: State, t: Tid, call: Call)
    requires Enabled(s, t, call) && Subject(s.pc[t], call).Some? && Near(s, t, Subject(s.pc[t], call).value)
    requires s.pc[t].PushCas? ==> s.head != s.pc[t].h
    requires s.pc[t].GetCas? ==> s.head != Some(s.pc[t].top)
    ensures Kept(s, Step(s, t, call), t, Subject(s.pc[t], call).value)
  {
    match s.pc[t]
    case Idle => StepCallAddKept(s, t, call.n);
    case AddFlag(_) => StepAddFlagKept(s, t);
    case PushLoad(_, _) => StepPushLoadKept(s, t);
    case PushNext(_, _, _) => StepPushNextKept(s, t);
    case PushRefs(_, _, _) => StepPushRefsKept(s, t);
    case PushCas(_, _, _) => StepPushCasFailKept(s, t);
    case PushRetry(_, _, _) => StepPushRetryKept(s, t);
    case GetLoad =>
    case GetRefs(_) => StepGetRefsKept(s, t);
    case GetPin(_, _) => StepGetPinKept(s, t);
    case GetNext(_) => StepGetNextKept(s, t);
    case GetCas(_, _) => StepGetCasFailKept(s, t);
    case GetDone(_) => StepGetDoneKept(s, t);
    case GetUnpin(_, _) => StepGetUnpinKept(s, t);
  }

  lemma SamePcOk(s: State, s': State, u: Tid, p: Pc)
    requires PcOk(s, u, p)
    requires s'.refs == s.refs && s'.next == s.next && s'.place == s.place
    ensures PcOk(s', u, p)
  {
  }

  lemma PureMoveKeepsNode(s: State, t: Tid, p: Pc, n: Node)
    requires t in s.pc && OwnNode(s.pc[t]) == OwnNode(p) == None
    requires !Holds(s.pc[t], n) && !Holds(p, n)
    requires NodeOk(s, n)
    ensures NodeOk(Goto(s, t, p), n)
  {
    HoldersMove(s.pc, t, p, n);
    assert Holders(s.pc[t := p], n) == Holders(s.pc, n);
  }

  /** A step that only moves a thread between points where it holds and owns nothing. */
  lemma PureMoveKeepsInv(s: State, t: Tid, p: Pc)
    requires Inv(s) && t in s.pc && OwnNode(s.pc[t]) == OwnNode(p) == None
    requires forall n :: !Holds(s.pc[t], n) && !Holds(p, n)
    requires PcOk(s, t, p)
    ensures Inv(Goto(s, t, p))
  {
    var s' := Goto(s, t, p);
    forall n | n in s'.refs ensures NodeOk(s', n) {
      PureMoveKeepsNode(s, t, p, n);
    }
    forall u | u in s'.pc ensures PcOk(s', u, s'.pc[u]) {
      assert u != t ==> PcOk(s, u, s.pc[u]);
      SamePcOk(s, s', u, s'.pc[u]);
    }
    forall i | 0 <= i < |s'.list| ensures LinkedAt(s', i) {
      assert LinkedAt(s, i);
    }
    assert s'.pc.Keys == s.pc.Keys;
    assert |s'.pc| == |s'.pc.Keys| && |s.pc| == |s.pc.Keys|;
  }

  // ---------------------------------------------------------------- whole runs

  /** A freshly built queue: no block has ever been freed, every thread is outside the list. */
  function Init(nodes: set<Node>, tids: set<Tid>): State {
    State(None, map n | n in nodes :: 0, map n | n in nodes :: None,
          map t | t in tids :: Idle, map n | n in nodes :: Outside, [])
  }

  lemma InitInv(nodes: set<Node>, tids: set<Tid>)
    requires |tids| < SHOULD_BE_ON_FREELIST - 1
    ensures Inv(Init(nodes, tids))
  {
    var s := Init(nodes, tids);
    assert s.pc.Keys == tids;
    assert |s.pc| == |s.pc.Keys|;
    forall n | n in s.refs ensures NodeOk(s, n) {
      assert Holders(s.pc, n) == {};
    }
  }

  /** A schedule picks a thread, and its call if it is idle, at every step; a pick that
      is not possible (adding a block somebody else has) does nothing. */
  type Schedule = seq<(Tid, Call)>

  function Run(s: State, schedule: Schedule): (s': State)
    requires Inv(s)
    ensures Inv(s')
    decreases |schedule|
  {
    if schedule == [] then s
    else
      var (t, call) := schedule[0];
      if Enabled(s, t, call) then
        StepKeepsInv(s, t, call);
        Run(Step(s, t, call), schedule[1..])
      else
        Run(s, schedule[1..])
  }

  /** +1 when the step starts an add of n, -1 when it hands n to the caller of try_get. */
  function Balance(s: State, t: Tid, call: Call, n: Node): int
    requires Enabled(s, t, call)
  {
    if s.pc[t].Idle? && call == CallAdd(n) then 1
    else if s.pc[t] == GetDone(n) then -1
    else 0
  }

  /** Adds of n minus hand-outs of n over a run. */
  function Outstanding(s: State, schedule: Schedule, n: Node): int
    requires Inv(s)
    decreases |schedule|
  {
    if schedule == [] then 0
    else
      var (t, call) := schedule[0];
      if Enabled(s, t, call) then
        StepKeepsInv(s, t, call);
        Balance(s, t, call, n) + Outstanding(Step(s, t, call), schedule[1..], n)
      else
        Outstanding(s, schedule[1..], n)
  }

  function Away(s: State, n: Node): int
    requires n in s.place
  {
    if s.place[n] == Outside then 0 else 1
  }

  lemma StepBalanceOwn(s: State, t: Tid, call: Call, n: Node)
    requires Near(s, t, n) && Enabled(s, t, call) && Subject(s.pc[t], call) == Some(n)
    requires s.head == Some(n) ==> s.place[n] == Listed
    ensures n in Step(s, t, call).place
    ensures Away(Step(s, t, call), n) == Away(s, n) + Balance(s, t, call, n)
  {
  }

  lemma StepBalanceOther(s: State, t: Tid, call: Call, n: Node)
    requires Enabled(s, t, call) && PcOk(s, t, s.pc[t]) && n in s.place
    requires Subject(s.pc[t], call) != Some(n)
    ensures n in Step(s, t, call).place
    ensures Away(Step(s, t, call), n) == Away(s, n) + Balance(s, t, call, n)
  {
  }

  lemma StepBalance(s: State, t: Tid, call: Call, n: Node)
    requires Inv(s) && Enabled(s, t, call) && n in s.place
    ensures n in Step(s, t, call).place
    ensures Away(Step(s, t, call), n) == Away(s, n) + Balance(s, t, call, n)
  {
    assert PcOk(s, t, s.pc[t]);
    if Subject(s.pc[t], call) == Some(n) {
      NearOwnNode(s, t, call);
      assert s.head == Some(n) ==> s.place[s.list[0]] == Listed;
      StepBalanceOwn(s, t, call, n);
    } else {
      StepBalanceOther(s, t, call, n);
    }
  }

  /** In every run adds and hand-outs of a node alternate: it is never handed out twice without
      an add in between, and never swallowed. */
  lemma {:induction false} HandOutsMatchAdds(s: State, schedule: Schedule, n: Node)
    requires Inv(s) && n in s.place
    ensures n in Run(s, schedule).place
    ensures Away(Run(s, schedule), n) == Away(s, n) + Outstanding(s, schedule, n)
    decreases |schedule|
  {
    if schedule != [] {
      var (t, call) := schedule[0];
      if Enabled(s, t, call) {
        StepKeepsInv(s, t, call);
        StepBalance(s, t, call, n);
        HandOutsMatchAdds(Step(s, t, call), schedule[1..], n);
      } else {
        HandOutsMatchAdds(s, schedule[1..], n);
      }
    }
  }

  /** The same from the start of the queue: an outside node has as many hand-outs as adds, any other one
      add more, whatever the interleaving. */
  lemma HandOutsMatchAddsFromInit(nodes: set<Node>, tids: set<Tid>, schedule: Schedule, n: Node)
    requires |tids| < SHOULD_BE_ON_FREELIST - 1 && n in nodes
    ensures Inv(Init(nodes, tids)) && n in Run(Init(nodes, tids), schedule).place
    ensures Outstanding(Init(nodes, tids), schedule, n) ==
            if Run(Init(nodes, tids), schedule).place[n] == Outside then 0 else 1
  {
    InitInv(nodes, tids);
    HandOutsMatchAdds(Init(nodes, tids), schedule, n);
  }

  // ---------------------------------------------------------------- what the invariant gives

  /** Following freeListNext from a node for k steps. */
  function Walk(s: State, from: Option<Node>, k: nat): Option<Node>
    decreases k
  {
    if k == 0 || from == None || from.value !in s.next then from
    else Walk(s, s.next[from.value], k - 1)
  }

  lemma {:induction false} WalkFollowsList(s: State, i: int, k: nat)
    requires Linked(s) && -1 <= i < |s.list|
    ensures Walk(s, After(s.list, i), k) == if i + 1 + k < |s.list| then Some(s.list[i + 1 + k]) else None
    decreases k
  {
    if k > 0 && i + 1 < |s.list| {
      assert LinkedAt(s, i + 1);
      WalkFollowsList(s, i + 1, k - 1);
    }
  }

  /** The linked structure is acyclic in every reachable state: the walk from the head ends,
      and before it ends it meets no node twice. */
  lemma ListAcyclic(s: State, i: nat, j: nat)
    requires Inv(s) && i < j < |s.list|
    ensures Walk(s, s.head, |s.list|) == None
    ensures Walk(s, s.head, i).Some? && Walk(s, s.head, j).Some? && Walk(s, s.head, i) != Walk(s, s.head, j)
  {
    WalkFollowsList(s, -1, |s.list|);
    WalkFollowsList(s, -1, i);
    WalkFollowsList(s, -1, j);
  }

  /** The thread that unlinked a node is the only one that did, and the node is nowhere else:
      not on the list, not being added, and no other thread is about to return it. */
  lemma TakenByOne(s: State, t: Tid, u: Tid)
    requires Inv(s) && t in s.pc && u in s.pc && t != u && s.pc[t].GetDone?
    ensures s.pc[t].top !in s.list
    ensures OwnNode(s.pc[u]) != Some(s.pc[t].top)
  {
    assert PcOk(s, t, s.pc[t]) && PcOk(s, u, s.pc[u]);
    var n := s.pc[t].top;
    assert forall i :: 0 <= i < |s.list| ==> s.place[s.list[i]] == Listed;
  }

  /** No ABA: when try_get's exchange succeeds, the next pointer it read earlier is the node's
      present next pointer, so the new head is the rest of the list. */
  lemma WinningCasSeesCurrentNext(s: State, t: Tid)
    requires Inv(s) && t in s.pc && s.pc[t].GetCas? && s.head == Some(s.pc[t].top)
    ensures s.list != [] && s.list[0] == s.pc[t].top
    ensures s.pc[t].nx == s.next[s.pc[t].top] == After(s.list, 0)
    ensures StepGetCas(s, t).head == After(s.list[1..], -1)
  {
    assert PcOk(s, t, s.pc[t]);
    assert LinkedAt(s, 0);
  }

  /** The assertion after the exchange, and the assumption of add: the flag is clear there. */
  lemma FlagClearWhereAssumed(s: State, t: Tid)
    requires Inv(s) && t in s.pc
    ensures s.pc[t].GetDone? ==> s.pc[t].top in s.refs && !Flagged(s.refs[s.pc[t].top])
    ensures s.pc[t].AddFlag? ==> s.pc[t].n in s.refs && !Flagged(s.refs[s.pc[t].n])
    ensures s.pc[t].PushRetry? ==> s.pc[t].n in s.refs && !Flagged(s.refs[s.pc[t].n])
  {
    assert PcOk(s, t, s.pc[t]);
    var p := s.pc[t];
    if p.GetDone? || OwnNode(p).Some? {
      var n := OwnNode(p).value;
      assert NodeOk(s, n);
      CountFits(s, n);
    }
  }

  /** A deferred node is never lost. Somebody still holds it; a holder cannot win it by an exchange;
      and the holder that lets go last is the one that starts adding it. */
  lemma DeferredHasHolder(s: State, n: Node)
    requires Inv(s) && n in s.place && s.place[n] == Deferred
    ensures exists t :: t in s.pc && Holds(s.pc[t], n)
    ensures s.head != Some(n)
    ensures forall t :: t in s.pc && Holds(s.pc[t], n) ==> !s.pc[t].GetDone?
    ensures forall t :: t in s.pc && s.pc[t].GetUnpin? && s.pc[t].prev == n && Holders(s.pc, n) == {t} ==>
              Step(s, t, CallGet).pc[t] == PushLoad(n, Resume(s.pc[t].seen))
  {
    assert NodeOk(s, n);
    var t :| t in Holders(s.pc, n);
    assert t in s.pc && Holds(s.pc[t], n);
    forall u | u in s.pc && Holds(s.pc[u], n) ensures !s.pc[u].GetDone? {
      assert PcOk(s, u, s.pc[u]);
    }
  }

  /** Once every thread is outside the list's code, each node is either in its user's hands with a zero
      count or linked in the list exactly once: nothing stays deferred or half added. */
  lemma QuiescentNodesSettled(s: State, n: Node)
    requires Inv(s) && n in s.refs && forall t :: t in s.pc ==> s.pc[t] == Idle
    ensures s.refs[n] == (if n in s.list then 1 else 0)
    ensures n in s.place && (s.place[n] == Outside <==> n !in s.list)
  {
    assert NodeOk(s, n);
    assert Holders(s.pc, n) == {};
    if n in s.list {
      var i :| 0 <= i < |s.list| && s.list[i] == n;
      assert s.place[s.list[i]] == Listed;
    }
  }

  // ---------------------------------------------------------------- what a call answers

  predicate Resumes(cont: Cont) { cont.Resume? }

  /** In the middle of try_get. */
  predicate Getting(p: Pc) {
    match p
    case Idle => false
    case AddFlag(_) => false
    case PushLoad(_, c) => Resumes(c)
    case PushNext(_, _, c) => Resumes(c)
    case PushRefs(_, _, c) => Resumes(c)
    case PushCas(_, _, c) => Resumes(c)
    case PushRetry(_, _, c) => Resumes(c)
    case _ => true
  }

  /** What the exchange that failed last found at the head, while that is still to be looked at. */
  function Carried(p: Pc): Option<Option<Node>> {
    match p
    case GetUnpin(_, seen) => Some(seen)
    case PushLoad(_, Resume(h)) => Some(h)
    case PushNext(_, _, Resume(h)) => Some(h)
    case PushRefs(_, _, Resume(h)) => Some(h)
    case PushCas(_, _, Resume(h)) => Some(h)
    case PushRetry(_, _, Resume(h)) => Some(h)
    case _ => None
  }

  /** This step ends t's call of try_get: with a node, or with nothing. */
  predicate Ends(s: State, t: Tid, call: Call) {
    Enabled(s, t, call) && PcOk(s, t, s.pc[t]) && Getting(s.pc[t]) && Step(s, t, call).pc[t].Idle?
  }

  function Answer(p: Pc): Option<Node> { if p.GetDone? then Some(p.top) else None }

  /** A call ends with nothing only if it has read the head as null: just now, or in the exchange that failed. */
  lemma EmptyAnswerRead(s: State, t: Tid, call: Call)
    requires Inv(s) && Ends(s, t, call) && Answer(s.pc[t]) == None
    ensures (s.pc[t].GetLoad? && s.head == None) || Carried(s.pc[t]) == Some(None)
  {
    assert PcOk(s, t, s.pc[t]);
  }

  /** A step of a call under way begins to carry null only from a head that is null. */
  lemma CarriedFromHead(s: State, t: Tid, call: Call)
    requires Inv(s) && Enabled(s, t, call) && Getting(s.pc[t]) && !Ends(s, t, call) && Carried(s.pc[t]) != Some(None)
    ensures PcOk(s, t, s.pc[t]) && t in Step(s, t, call).pc
    ensures Getting(Step(s, t, call).pc[t])
    ensures Carried(Step(s, t, call).pc[t]) == Some(None) ==> s.head == None
  {
    hide Inv, NodeOk, FetchAdd, RefCount;
    PointOk(s, t);
  }

  lemma PointOk(s: State, t: Tid)
    requires Inv(s) && t in s.pc
    ensures PcOk(s, t, s.pc[t])
  {
  }

  /** In this run t's call of try_get ends, and with nothing. */
  ghost predicate AnswersNothing(s: State, schedule: Schedule, t: Tid)
    requires Inv(s)
    decreases |schedule|
  {
    schedule != [] &&
    var (u, call) := schedule[0];
    if Enabled(s, u, call) then
      StepKeepsInv(s, u, call);
      if u == t && Ends(s, u, call) then Answer(s.pc[t]) == None
      else AnswersNothing(Step(s, u, call), schedule[1..], t)
    else
      AnswersNothing(s, schedule[1..], t)
  }

  /** try_get returns null only if the list was empty at some moment of the call, whatever the other threads do. */
  lemma {:induction false} NothingWhenEmpty(s: State, schedule: Schedule, t: Tid)
    requires Inv(s) && t in s.pc && Getting(s.pc[t]) && Carried(s.pc[t]) != Some(None)
    requires AnswersNothing(s, schedule, t)
    ensures exists k :: 0 <= k <= |schedule| && Run(s, schedule[..k]).list == []
    decreases |schedule|
  {
    hide Inv, Step, Enabled, Getting, Carried, Ends;
    if s.list == [] {
      assert Run(s, schedule[..0]).list == [];
    } else {
      HeadOfList(s);
      var (u, call) := schedule[0];
      var s' := s;
      if Enabled(s, u, call) {
        StepKeepsInv(s, u, call);
        if u == t {
          if Ends(s, t, call) {
            EmptyAnswerRead(s, t, call);
          }
          CarriedFromHead(s, t, call);
        } else {
          OthersKeepPc(s, u, call, t);
        }
        s' := Step(s, u, call);
      }
      NothingWhenEmpty(s', schedule[1..], t);
      var k :| 0 <= k <= |schedule[1..]| && Run(s', schedule[1..][..k]).list == [];
      assert schedule[..k + 1][0] == schedule[0] && schedule[..k + 1][1..] == schedule[1..][..k];
      assert Run(s, schedule[..k + 1]) == Run(s', schedule[1..][..k]);
    }
  }

  lemma HeadOfList(s: State)
    requires Inv(s)
    ensures s.head == None <==> s.list == []
  {
  }

  lemma OthersKeepPc(s: State, u: Tid, call: Call, t: Tid)
    requires Inv(s) && Enabled(s, u, call) && u != t && t in s.pc
    ensures PcOk(s, u, s.pc[u])
    ensures t in Step(s, u, call).pc && Step(s, u, call).pc[t] == s.pc[t]
  {
    assert PcOk(s, u, s.pc[u]);
  }

  // ---------------------------------------------------------------- a call by itself

  predicate NobodyInside(s: State) { forall t :: t in s.pc ==> s.pc[t] == Idle }

  /** Thread t takes its next n steps, and nobody else any. */
  function Alone(s: State, t: Tid, call: Call, n: nat): State
    requires Inv(s) && t in s.pc
    ensures Inv(Alone(s, t, call, n)) && t in Alone(s, t, call, n).pc
    decreases n
  {
    if n == 0 || !Enabled(s, t, call) then s
    else
      StepKeepsInv(s, t, call);
      assert PcOk(s, t, s.pc[t]);
      Alone(Step(s, t, call), t, call, n - 1)
  }

  lemma AloneStep(s: State, t: Tid, call: Call, n: nat)
    requires Inv(s) && Enabled(s, t, call) && n > 0
    ensures PcOk(s, t, s.pc[t]) && Inv(Step(s, t, call)) && t in Step(s, t, call).pc
    ensures Alone(s, t, call, n) == Alone(Step(s, t, call), t, call, n - 1)
  {
    assert PcOk(s, t, s.pc[t]);
    StepKeepsInv(s, t, call);
  }

  /** A listed node that nobody holds has the list's reference alone. */
  lemma ListedCount(s: State)
    requires Inv(s) && NobodyInside(s) && s.list != []
    ensures var n := s.list[0];
            s.head == Some(n) && n in s.refs && s.refs[n] == 1 && n in s.next && s.next[n] == After(s.list, 0)
              && n in s.place
  {
    assert LinkedAt(s, 0);
    QuiescentNodesSettled(s, s.list[0]);
  }

  /** A call of try_get while nobody else is inside returns the first node of the list, if there is one, and takes it
      off the list; its user has it then. On an empty list it returns nothing and changes nothing. */
  lemma GetAlone(s: State, t: Tid)
    requires Inv(s) && NobodyInside(s) && t in s.pc
    ensures s.list == [] ==> Alone(s, t, CallGet, 2) == s
    ensures s.list != [] ==>
              && var n := s.list[0];
              && Alone(s, t, CallGet, 6).pc[t] == GetDone(n)
              && var s' := Alone(s, t, CallGet, 7);
              && NobodyInside(s') && s'.list == s.list[1..] && s'.place == s.place[n := Outside]
  {
    hide Inv, Step;
    AtRest(s, t);
    Begins(s, t);
    var s1 := Goto(s, t, GetLoad);
    AloneStep(s, t, CallGet, 2);
    if s.list == [] {
      HeadOfList(s);
      Looks(s1, t);
      AloneStep(s1, t, CallGet, 1);
      assert s.pc[t := GetLoad][t := Idle] == s.pc;
    } else {
      ListedCount(s);
      var n, nx := s.list[0], After(s.list, 0);
      AloneStep(s, t, CallGet, 6);
      AloneStep(s, t, CallGet, 7);
      Looks(s1, t);
      FromLook(s1, t, n, nx, 5);
      FromLook(s1, t, n, nx, 6);
    }
  }

  /** The steps of a call that begins to look at node n. */
  lemma FromLook(s: State, t: Tid, n: Node, nx: Option<Node>, k: nat)
    requires Inv(s) && t in s.pc && s.pc[t] == GetLoad && s.head == Some(n) && n in s.refs && s.refs[n] == 1
    requires n in s.next && s.next[n] == nx && n in s.place && s.list != [] && 5 <= k <= 6
    ensures var done := s.(pc := s.pc[t := GetDone(n)], refs := s.refs[n := 2], head := nx,
                           place := s.place[n := Taken(t)], list := s.list[1..]);
            Alone(s, t, CallGet, k)
            == if k == 5 then done
              else done.(pc := s.pc[t := Idle], refs := s.refs[n := 0], place := s.place[n := Outside])
  {
    hide Inv, Step;
    Looks(s, t);
    AloneStep(s, t, CallGet, k);
    var s1 := Goto(s, t, GetRefs(n));
    Reads(s1, t, n);
    AloneStep(s1, t, CallGet, k - 1);
    var s2 := Goto(s, t, GetPin(n, 1));
    assert Goto(s1, t, GetPin(n, 1)) == s2 by { Moves(s, t, GetRefs(n), GetPin(n, 1)); }
    Pins(s2, t, n);
    AloneStep(s2, t, CallGet, k - 2);
    var s3 := Goto(s, t, GetNext(n)).(refs := s.refs[n := 2]);
    assert Goto(s2, t, GetNext(n)).(refs := s.refs[n := 2]) == s3 by { Moves(s, t, GetPin(n, 1), GetNext(n)); }
    TakesNext(s3, t, n, nx);
    AloneStep(s3, t, CallGet, k - 3);
    var s4 := s3.(pc := s.pc[t := GetCas(n, nx)]);
    assert Goto(s3, t, GetCas(n, nx)) == s4 by { Moves(s, t, GetNext(n), GetCas(n, nx)); }
    Wins(s4, t, n, nx);
    AloneStep(s4, t, CallGet, k - 4);
    Moves(s, t, GetCas(n, nx), GetDone(n));
    if k == 6 {
      var s5 := Step(s4, t, CallGet);
      LetsGo(s5, t, n);
      AloneStep(s5, t, CallGet, 1);
      Moves(s, t, GetDone(n), Idle);
      assert s.place[n := Taken(t)][n := Outside] == s.place[n := Outside];
      assert s.refs[n := 2][n := 0] == s.refs[n := 0];
    }
  }

  lemma Moves(s: State, t: Tid, p: Pc, q: Pc)
    ensures s.pc[t := p][t := q] == s.pc[t := q]
  {
  }

  lemma Begins(s: State, t: Tid)
    requires t in s.pc && s.pc[t] == Idle
    ensures Enabled(s, t, CallGet) && PcOk(s, t, s.pc[t]) && Step(s, t, CallGet) == Goto(s, t, GetLoad)
  {
  }

  lemma Looks(s: State, t: Tid)
    requires t in s.pc && s.pc[t] == GetLoad
    ensures Enabled(s, t, CallGet) && PcOk(s, t, s.pc[t])
    ensures Step(s, t, CallGet) == Goto(s, t, if s.head == None then Idle else GetRefs(s.head.value))
  {
  }

  lemma Reads(s: State, t: Tid, n: Node)
    requires t in s.pc && s.pc[t] == GetRefs(n) && n in s.refs
    ensures Enabled(s, t, CallGet) && PcOk(s, t, s.pc[t]) && Step(s, t, CallGet) == Goto(s, t, GetPin(n, s.refs[n]))
  {
  }

  lemma Pins(s: State, t: Tid, n: Node)
    requires t in s.pc && s.pc[t] == GetPin(n, 1) && n in s.refs && s.refs[n] == 1
    ensures Enabled(s, t, CallGet) && PcOk(s, t, s.pc[t])
    ensures Step(s, t, CallGet) == Goto(s, t, GetNext(n)).(refs := s.refs[n := 2])
  {
  }

  lemma TakesNext(s: State, t: Tid, n: Node, nx: Option<Node>)
    requires t in s.pc && s.pc[t] == GetNext(n) && n in s.refs && n in s.next && s.next[n] == nx
    ensures Enabled(s, t, CallGet) && PcOk(s, t, s.pc[t]) && Step(s, t, CallGet) == Goto(s, t, GetCas(n, nx))
  {
  }

  lemma Wins(s: State, t: Tid, n: Node, nx: Option<Node>)
    requires t in s.pc && s.pc[t] == GetCas(n, nx) && n in s.refs && n in s.next && s.next[n] == nx
    requires s.head == Some(n) && s.list != []
    ensures Enabled(s, t, CallGet) && PcOk(s, t, s.pc[t])
    ensures Step(s, t, CallGet)
            == Goto(s, t, GetDone(n)).(head := nx, place := s.place[n := Taken(t)], list := s.list[1..])
  {
  }

  lemma LetsGo(s: State, t: Tid, n: Node)
    requires t in s.pc && s.pc[t] == GetDone(n) && n in s.refs && s.refs[n] == 2 && n in s.place
             && s.place[n] == Taken(t)
    ensures Enabled(s, t, CallGet) && PcOk(s, t, s.pc[t])
    ensures Step(s, t, CallGet) == Goto(s, t, Idle).(refs := s.refs[n := 0], place := s.place[n := Outside])
  {
  }

  /** A call of add while nobody is inside puts the node at the front of the list. */
  lemma AddAlone(s: State, t: Tid, n: Node)
    requires Inv(s) && NobodyInside(s) && t in s.pc && n in s.place && s.place[n] == Outside
    ensures var s' := Alone(s, t, CallAdd(n), 6);
            && NobodyInside(s') && s'.list == [n] + s.list && s'.head == Some(n)
            && n in s'.next && s'.next[n] == s.head && s'.place == s.place[n := Listed]
  {
    hide Inv, Step;
    AtRest(s, t);
    FreeNode(s, n);
    var call := CallAdd(n);
    Called(s, t, n);
    AloneStep(s, t, call, 6);
    var s1 := Goto(s, t, AddFlag(n)).(place := s.place[n := Starting(t)]);
    Flags(s1, t, n);
    AloneStep(s1, t, call, 5);
    var s2 := s.(pc := s.pc[t := PushLoad(n, Return)], refs := s.refs[n := SHOULD_BE_ON_FREELIST],
                 place := s.place[n := Adding(t)]);
    assert Step(s1, t, call) == s2 by {
      Moves(s, t, AddFlag(n), PushLoad(n, Return));
      assert s.place[n := Starting(t)][n := Adding(t)] == s.place[n := Adding(t)];
    }
    FromFlag(s2, t, n);
    Moves(s, t, PushLoad(n, Return), Idle);
    assert s2.place[n := Listed] == s.place[n := Listed];
  }

  /** The steps of an add from the load of the head on. */
  lemma FromFlag(s: State, t: Tid, n: Node)
    requires Inv(s) && t in s.pc && s.pc[t] == PushLoad(n, Return) && n in s.refs && n in s.next
    requires n in s.place && s.place[n] == Adding(t)
    ensures Alone(s, t, CallAdd(n), 4)
            == s.(pc := s.pc[t := Idle], refs := s.refs[n := 1], next := s.next[n := s.head],
                  place := s.place[n := Listed], head := Some(n), list := [n] + s.list)
  {
    hide Inv, Step;
    var call := CallAdd(n);
    HeadInNodes(s);
    LoadsHead(s, t, n);
    AloneStep(s, t, call, 4);
    var s3 := s.(pc := s.pc[t := PushNext(n, s.head, Return)]);
    Links(s3, t, n);
    AloneStep(s3, t, call, 3);
    var s4 := s.(pc := s.pc[t := PushRefs(n, s.head, Return)], next := s.next[n := s.head]);
    assert Step(s3, t, call) == s4 by { Moves(s, t, PushNext(n, s.head, Return), PushRefs(n, s.head, Return)); }
    Counts(s4, t, n);
    AloneStep(s4, t, call, 2);
    var s5 := s4.(pc := s.pc[t := PushCas(n, s.head, Return)], refs := s.refs[n := 1],
                  place := s.place[n := Pushing(t)]);
    assert Step(s4, t, call) == s5 by { Moves(s, t, PushRefs(n, s.head, Return), PushCas(n, s.head, Return)); }
    Publishes(s5, t, n);
    AloneStep(s5, t, call, 1);
    Moves(s, t, PushCas(n, s.head, Return), Idle);
    assert s5.place[n := Listed] == s.place[n := Listed];
  }

  lemma FreeNode(s: State, n: Node)
    requires Inv(s) && NobodyInside(s) && n in s.place && s.place[n] == Outside
    ensures n in s.refs && n in s.next && s.refs[n] == 0 && InNodes(s, s.head)
  {
    QuiescentNodesSettled(s, n);
    HeadInNodes(s);
  }

  lemma Called(s: State, t: Tid, n: Node)
    requires t in s.pc && s.pc[t] == Idle && n in s.place && s.place[n] == Outside
    ensures Enabled(s, t, CallAdd(n)) && PcOk(s, t, s.pc[t])
    ensures Step(s, t, CallAdd(n)) == Goto(s, t, AddFlag(n)).(place := s.place[n := Starting(t)])
  {
  }

  lemma Flags(s: State, t: Tid, n: Node)
    requires t in s.pc && s.pc[t] == AddFlag(n) && n in s.refs && s.refs[n] == 0 && n in s.place
             && s.place[n] == Starting(t)
    ensures Enabled(s, t, CallAdd(n)) && PcOk(s, t, s.pc[t])
    ensures Step(s, t, CallAdd(n))
            == Goto(s, t, PushLoad(n, Return)).(refs := s.refs[n := SHOULD_BE_ON_FREELIST],
                                                place := s.place[n := Adding(t)])
  {
  }

  lemma LoadsHead(s: State, t: Tid, n: Node)
    requires t in s.pc && s.pc[t] == PushLoad(n, Return) && n in s.refs && n in s.place && s.place[n] == Adding(t)
    ensures Enabled(s, t, CallAdd(n)) && PcOk(s, t, s.pc[t])
    ensures Step(s, t, CallAdd(n)) == Goto(s, t, PushNext(n, s.head, Return))
  {
  }

  lemma Links(s: State, t: Tid, n: Node)
    requires t in s.pc && s.pc[t] == PushNext(n, s.head, Return) && n in s.refs && n in s.place
             && s.place[n] == Adding(t)
    requires InNodes(s, s.head)
    ensures Enabled(s, t, CallAdd(n)) && PcOk(s, t, s.pc[t])
    ensures Step(s, t, CallAdd(n)) == Goto(s, t, PushRefs(n, s.head, Return)).(next := s.next[n := s.head])
  {
  }

  lemma Counts(s: State, t: Tid, n: Node)
    requires t in s.pc && s.pc[t] == PushRefs(n, s.head, Return) && n in s.refs && n in s.place
             && s.place[n] == Adding(t)
    requires n in s.next && s.next[n] == s.head && InNodes(s, s.head)
    ensures Enabled(s, t, CallAdd(n)) && PcOk(s, t, s.pc[t])
    ensures Step(s, t, CallAdd(n))
            == Goto(s, t, PushCas(n, s.head, Return)).(refs := s.refs[n := 1], place := s.place[n := Pushing(t)])
  {
  }

  lemma Publishes(s: State, t: Tid, n: Node)
    requires t in s.pc && s.pc[t] == PushCas(n, s.head, Return) && n in s.refs && n in s.place
             && s.place[n] == Pushing(t)
    requires n in s.next && s.next[n] == s.head && InNodes(s, s.head)
    ensures Enabled(s, t, CallAdd(n)) && PcOk(s, t, s.pc[t])
    ensures Step(s, t, CallAdd(n))
            == Goto(s, t, Idle).(head := Some(n), place := s.place[n := Listed], list := [n] + s.list)
  {
  }

  lemma AtRest(s: State, t: Tid)
    requires NobodyInside(s) && t in s.pc
    ensures s.pc[t] == Idle
  {
  }
}
