/** The optimistic dequeue of one producer's sub-queue (explicit and implicit producers share it):
    one producer, any number of consumers, one atomic operation per step, any interleaving.
    A single dequeue is the bulk dequeue with max == 1: both branches then do the same operations.
    Indices count without wrapping; module Circular shows when the wrapped comparisons agree. */
module DequeueProtocol {
  type Tid = nat

  /** The next atomic operation of a consumer, with the locals it still needs. */
  datatype Pc =
    | Idle
    | LoadOvercommit(max: nat, tail: nat)
    | LoadOptimistic(max: nat, tail: nat, over: nat)
    | Reserve(over: nat, want: nat)                    // dequeueOptimisticCount.fetch_add(want)
    | ReloadTail(over: nat, want: nat, mine: nat)
    | Trim(want: nat, got: nat, mine: nat)             // dequeueOvercommit.fetch_add(want - got)
    | Claim(got: nat, mine: nat)                       // headIndex.fetch_add(got)
    | GiveUp(want: nat, mine: nat)                     // dequeueOvercommit.fetch_add(want)

  /** What became of one unit of the optimistic count (auxiliary). */
  datatype Kind = Pending | Committed | Claimed | Undone
  datatype Slot = Slot(kind: Kind, owner: Tid)

  /** A completed claim: `by` received the elements first, first + 1, ... first + count - 1. */
  datatype Take = Take(taker: Tid, first: nat, count: nat)

  datatype State<T> = State(
    items: seq<T>,        // everything ever enqueued; tailIndex is its length
    head: nat,
    optimistic: nat,
    overcommit: nat,
    pc: map<Tid, Pc>,
    slots: seq<Slot>,     // auxiliary: the optimistic count's units in fetch_add order
    takes: seq<Take>      // auxiliary: the claims in head's fetch_add order
  )

  function Tail<T>(s: State<T>): nat { |s.items| }

  datatype Action<T> = Enqueue(batch: seq<T>) | Consume(t: Tid, max: nat)

  predicate Enabled<T>(s: State<T>, a: Action<T>) { a.Consume? ==> a.t in s.pc }

  function Min(a: int, b: int): int { if a < b then a else b }

  // ---------------------------------------------------------------- steps

  function Goto<T>(s: State<T>, t: Tid, p: Pc): State<T> { s.(pc := s.pc[t := p]) }

  function SetRange(slots: seq<Slot>, lo: nat, n: nat, v: Slot): (r: seq<Slot>)
    requires lo + n <= |slots|
    ensures |r| == |slots|
  {
    seq(|slots|, i requires 0 <= i < |slots| => if lo <= i < lo + n then v else slots[i])
  }

  /** Where a consumer that finds `avail` elements for its reservation goes next. */
  function StepReloadTail<T>(s: State<T>, t: Tid): State<T>
    requires t in s.pc && s.pc[t].ReloadTail? && s.pc[t].mine + s.pc[t].want <= |s.slots|
  {
    var ReloadTail(over, want, mine) := s.pc[t];
    var avail := Tail(s) - (mine - over);
    if avail > 0 then
      var got := Min(want, avail);
      Goto(s, t, if got < want then Trim(want, got, mine) else Claim(got, mine))
        .(slots := SetRange(s.slots, mine, got, Slot(Committed, t)))
    else
      Goto(s, t, GiveUp(want, mine))
  }

  function StepConsumer<T>(s: State<T>, t: Tid, max: nat): State<T>
    requires t in s.pc && PcOk(s, t, s.pc[t])
  {
    match s.pc[t]
    case Idle => Goto(s, t, LoadOvercommit(max, Tail(s)))
    case LoadOvercommit(m, tail) => Goto(s, t, LoadOptimistic(m, tail, s.overcommit))
    case LoadOptimistic(m, tail, over) =>
      var desired := tail - (s.optimistic - over);
      Goto(s, t, if desired > 0 then Reserve(over, Min(desired, m)) else Idle)
    case Reserve(over, want) =>
      Goto(s, t, ReloadTail(over, want, s.optimistic))
        .(optimistic := s.optimistic + want, slots := s.slots + seq(want, _ => Slot(Pending, t)))
    case ReloadTail(_, _, _) => StepReloadTail(s, t)
    case Trim(want, got, mine) =>
      Goto(s, t, Claim(got, mine))
        .(overcommit := s.overcommit + want - got,
          slots := SetRange(s.slots, mine + got, want - got, Slot(Undone, t)))
    case Claim(got, mine) =>
      Goto(s, t, Idle)
        .(head := s.head + got, slots := SetRange(s.slots, mine, got, Slot(Claimed, t)),
          takes := s.takes + [Take(t, s.head, got)])
    case GiveUp(want, mine) =>
      Goto(s, t, Idle)
        .(overcommit := s.overcommit + want, slots := SetRange(s.slots, mine, want, Slot(Undone, t)))
  }

  function Step<T>(s: State<T>, a: Action<T>): State<T>
    requires Enabled(s, a) && (a.Consume? ==> PcOk(s, a.t, s.pc[a.t]))
  {
    match a
    case Enqueue(batch) => s.(items := s.items + batch)
    case Consume(t, max) => StepConsumer(s, t, max)
  }

  // ---------------------------------------------------------------- invariant

  function Count(slots: seq<Slot>, k: Kind): nat {
    if slots == [] then 0
    else Count(slots[..|slots| - 1], k) + (if slots[|slots| - 1].kind == k then 1 else 0)
  }

  /** The slots lo, lo + 1, ... lo + n - 1 all equal v. */
  predicate AllAre(slots: seq<Slot>, lo: nat, n: nat, v: Slot) {
    lo + n <= |slots| && forall p :: lo <= p < lo + n ==> slots[p] == v
  }

  predicate PcOk<T>(s: State<T>, t: Tid, p: Pc) {
    match p
    case Idle => true
    case LoadOvercommit(_, tail) => tail <= Tail(s)
    case LoadOptimistic(_, tail, over) => tail <= Tail(s) && over <= s.overcommit
    case Reserve(over, _) => over <= s.overcommit
    case ReloadTail(over, want, mine) =>
      && AllAre(s.slots, mine, want, Slot(Pending, t))
      && over <= Count(s.slots[..mine], Undone)
    case Trim(want, got, mine) =>
      && got < want
      && AllAre(s.slots, mine, got, Slot(Committed, t))
      && AllAre(s.slots, mine + got, want - got, Slot(Pending, t))
    case Claim(got, mine) => AllAre(s.slots, mine, got, Slot(Committed, t))
    case GiveUp(want, mine) => AllAre(s.slots, mine, want, Slot(Pending, t))
  }

  /** Slot p of thread t is the part of t's reservation its program point says it is. */
  predicate SlotHeld(p: Pc, i: int, k: Kind) {
    match p
    case ReloadTail(_, want, mine) => k == Pending && mine <= i < mine + want
    case Trim(want, got, mine) =>
      (k == Committed && mine <= i < mine + got) || (k == Pending && mine + got <= i < mine + want)
    case Claim(got, mine) => k == Committed && mine <= i < mine + got
    case GiveUp(want, mine) => k == Pending && mine <= i < mine + want
    case _ => false
  }

  predicate SlotOk<T>(s: State<T>, i: nat)
    requires i < |s.slots|
  {
    var Slot(k, t) := s.slots[i];
    // A committed unit is covered by the tail even after discounting only what was undone before it.
    && (k == Committed || k == Claimed ==> i + 1 - Count(s.slots[..i], Undone) <= Tail(s))
    && (k == Committed || k == Pending ==> t in s.pc && SlotHeld(s.pc[t], i, k))
  }

  predicate TakesOk(takes: seq<Take>, head: nat) {
    if takes == [] then head == 0
    else
      var last := takes[|takes| - 1];
      last.first + last.count == head && TakesOk(takes[..|takes| - 1], last.first)
  }

  predicate Inv<T>(s: State<T>) {
    && s.optimistic == |s.slots|
    && s.overcommit == Count(s.slots, Undone)
    && s.head == Count(s.slots, Claimed)
    && (forall t :: t in s.pc ==> PcOk(s, t, s.pc[t]))
    && (forall i :: 0 <= i < |s.slots| ==> SlotOk(s, i))
    && TakesOk(s.takes, s.head)
  }

  // ---------------------------------------------------------------- counting

  lemma {:induction false} CountConcat(a: seq<Slot>, b: seq<Slot>, k: Kind)
    ensures Count(a + b, k) == Count(a, k) + Count(b, k)
  {
    if b == [] {
      assert a + b == a;
    } else {
      assert (a + b)[..|a + b| - 1] == a + b[..|b| - 1];
      CountConcat(a, b[..|b| - 1], k);
    }
  }

  lemma {:induction false} CountAll(slots: seq<Slot>, v: Slot, k: Kind)
    requires forall i :: 0 <= i < |slots| ==> slots[i] == v
    ensures Count(slots, k) == if v.kind == k then |slots| else 0
  {
    if slots != [] { CountAll(slots[..|slots| - 1], v, k); }
  }

  /** Turning a uniform range into another kind moves its length from one count to the other. */
  lemma CountSetRange(slots: seq<Slot>, lo: nat, n: nat, was: Slot, v: Slot, k: Kind)
    requires AllAre(slots, lo, n, was)
    ensures Count(SetRange(slots, lo, n, v), k) ==
            Count(slots, k) - (if was.kind == k then n else 0) + (if v.kind == k then n else 0)
  {
    var mid := seq(n, _ => v);
    assert slots == slots[..lo] + slots[lo..lo + n] + slots[lo + n..];
    assert SetRange(slots, lo, n, v) == slots[..lo] + mid + slots[lo + n..];
    CountConcat(slots[..lo] + slots[lo..lo + n], slots[lo + n..], k);
    CountConcat(slots[..lo], slots[lo..lo + n], k);
    CountConcat(slots[..lo] + mid, slots[lo + n..], k);
    CountConcat(slots[..lo], mid, k);
    CountAll(slots[lo..lo + n], was, k);
    CountAll(mid, v, k);
  }

  lemma {:induction false} CountMonotone(a: seq<Slot>, b: seq<Slot>, k: Kind)
    requires |a| == |b| && forall i :: 0 <= i < |a| && a[i].kind == k ==> b[i].kind == k
    ensures Count(a, k) <= Count(b, k)
  {
    if a != [] { CountMonotone(a[..|a| - 1], b[..|b| - 1], k); }
  }

  lemma {:induction false} CountsPartition(slots: seq<Slot>)
    ensures Count(slots, Pending) + Count(slots, Committed) + Count(slots, Claimed) + Count(slots, Undone) == |slots|
  {
    if slots != [] { CountsPartition(slots[..|slots| - 1]); }
  }

  /** If every committed unit is covered by the tail, there are at most tail of them. */
  lemma {:induction false} CommittedWithinTail(slots: seq<Slot>, tail: nat)
    requires forall i :: 0 <= i < |slots| && (slots[i].kind == Committed || slots[i].kind == Claimed) ==>
               i + 1 - Count(slots[..i], Undone) <= tail
    ensures Count(slots, Committed) + Count(slots, Claimed) <= tail
  {
    if slots != [] {
      var rest := slots[..|slots| - 1];
      if slots[|slots| - 1].kind == Committed || slots[|slots| - 1].kind == Claimed {
        CountsPartition(slots);
      } else {
        forall i | 0 <= i < |rest| ensures rest[..i] == slots[..i] {
        }
        CommittedWithinTail(rest, tail);
      }
    }
  }

  /** Retiring units (never reviving an undone one) can only raise the number of undone ones. */
  lemma UndoneGrows(a: seq<Slot>, b: seq<Slot>, i: nat)
    requires |a| <= |b| && i <= |a| && forall j :: 0 <= j < |a| && a[j].kind == Undone ==> b[j].kind == Undone
    ensures Count(a[..i], Undone) <= Count(b[..i], Undone)
  {
    CountMonotone(a[..i], b[..i], Undone);
  }

  lemma PrefixCount(slots: seq<Slot>, i: nat, j: nat)
    requires i <= j <= |slots|
    ensures Count(slots[..i], Undone) <= Count(slots[..j], Undone)
  {
    assert slots[..j] == slots[..i] + slots[i..j];
    CountConcat(slots[..i], slots[i..j], Undone);
  }

  // ---------------------------------------------------------------- preservation

  /** What a consumer's step may do to the rest of the state. */
  ghost predicate Local<T>(s: State<T>, s': State<T>, t: Tid) {
    && t in s.pc && t in s'.pc && s'.pc == s.pc[t := s'.pc[t]]
    && s'.items == s.items
    && s.overcommit <= s'.overcommit
    && |s.slots| <= |s'.slots|
    && (forall j :: 0 <= j < |s.slots| && s.slots[j].kind == Undone ==> s'.slots[j].kind == Undone)
    && (forall j :: 0 <= j < |s.slots| && s'.slots[j] != s.slots[j] ==>
          s.slots[j].owner == t && s'.slots[j].owner == t && s.slots[j].kind != Claimed)
    && (forall j :: |s.slots| <= j < |s'.slots| ==> s'.slots[j].owner == t)
  }

  lemma OtherThreadKept<T>(s: State<T>, s': State<T>, t: Tid, u: Tid)
    requires Local(s, s', t) && u in s.pc && u != t && PcOk(s, u, s.pc[u])
    ensures PcOk(s', u, s.pc[u])
  {
    if s.pc[u].ReloadTail? {
      UndoneGrows(s.slots, s'.slots, s.pc[u].mine);
    }
  }

  lemma OtherSlotKept<T>(s: State<T>, s': State<T>, t: Tid, i: nat)
    requires Local(s, s', t) && i < |s.slots| && SlotOk(s, i) && s.slots[i].owner != t
    ensures SlotOk(s', i)
  {
    UndoneGrows(s.slots, s'.slots, i);
  }

  lemma LocalStepKeepsInv<T>(s: State<T>, s': State<T>, t: Tid)
    requires Inv(s) && Local(s, s', t)
    requires s'.optimistic == |s'.slots| && s'.overcommit == Count(s'.slots, Undone)
    requires s'.head == Count(s'.slots, Claimed) && TakesOk(s'.takes, s'.head)
    requires PcOk(s', t, s'.pc[t])
    requires forall i :: 0 <= i < |s'.slots| && s'.slots[i].owner == t ==> SlotOk(s', i)
    ensures Inv(s')
  {
    forall u | u in s'.pc ensures PcOk(s', u, s'.pc[u]) {
      if u != t { OtherThreadKept(s, s', t, u); }
    }
    forall i | 0 <= i < |s'.slots| ensures SlotOk(s', i) {
      if s'.slots[i].owner != t { OtherSlotKept(s, s', t, i); }
    }
  }

  /** A unit of t that the step of t leaves as it was stays accounted for. */
  lemma OwnSlotKept<T>(s: State<T>, s': State<T>, t: Tid, i: nat)
    requires Local(s, s', t) && i < |s.slots| && SlotOk(s, i) && s.slots[i].owner == t && s'.slots[i] == s.slots[i]
    requires SlotHeld(s.pc[t], i, s.slots[i].kind) ==> SlotHeld(s'.pc[t], i, s.slots[i].kind)
    ensures SlotOk(s', i)
  {
    UndoneGrows(s.slots, s'.slots, i);
  }

  lemma SetRangeAt(slots: seq<Slot>, lo: nat, n: nat, v: Slot)
    requires lo + n <= |slots|
    ensures forall i :: 0 <= i < |slots| ==> SetRange(slots, lo, n, v)[i] == if lo <= i < lo + n then v else slots[i]
  {
  }

  lemma EnqueueKeepsInv<T>(s: State<T>, batch: seq<T>)
    requires Inv(s)
    ensures Inv(Step(s, Enqueue(batch)))
  {
    var s' := Step(s, Enqueue(batch));
    forall t | t in s'.pc ensures PcOk(s', t, s'.pc[t]) {
      assert PcOk(s, t, s.pc[t]);
    }
    forall i | 0 <= i < |s'.slots| ensures SlotOk(s', i) {
      assert SlotOk(s, i);
    }
  }

  /** A step that only moves a consumer between points without a reservation. */
  lemma ReadStepKeepsInv<T>(s: State<T>, t: Tid, p: Pc)
    requires Inv(s) && t in s.pc
    requires forall i, k :: !SlotHeld(s.pc[t], i, k)
    requires PcOk(s, t, p)
    ensures Inv(Goto(s, t, p))
  {
    var s' := Goto(s, t, p);
    assert Local(s, s', t);
    forall i | 0 <= i < |s'.slots| && s'.slots[i].owner == t ensures SlotOk(s', i) {
      assert SlotOk(s, i);
      OwnSlotKept(s, s', t, i);
    }
    LocalStepKeepsInv(s, s', t);
  }

  lemma ReserveKeepsInv<T>(s: State<T>, t: Tid)
    requires Inv(s) && t in s.pc && s.pc[t].Reserve?
    ensures Inv(StepConsumer(s, t, 0))
  {
    var Reserve(over, want) := s.pc[t];
    var s' := StepConsumer(s, t, 0);
    var added := seq(want, _ => Slot(Pending, t));
    CountConcat(s.slots, added, Undone);
    CountConcat(s.slots, added, Claimed);
    CountAll(added, Slot(Pending, t), Undone);
    CountAll(added, Slot(Pending, t), Claimed);
    assert s'.slots[..|s.slots|] == s.slots;
    assert Local(s, s', t);
    forall i | 0 <= i < |s'.slots| && s'.slots[i].owner == t ensures SlotOk(s', i) {
      if i < |s.slots| {
        assert SlotOk(s, i);
        OwnSlotKept(s, s', t, i);
      }
    }
    LocalStepKeepsInv(s, s', t);
  }

  /** A step that turns the range lo, ... lo + n - 1 of t's units from one kind to another. */
  lemma RetireKeepsInv<T>(s: State<T>, s': State<T>, t: Tid, lo: nat, n: nat, was: Kind, now: Kind)
    requires Inv(s) && t in s.pc && t in s'.pc && s'.pc == s.pc[t := s'.pc[t]] && s'.items == s.items
    requires was.Pending? || was.Committed?
    requires AllAre(s.slots, lo, n, Slot(was, t)) && s'.slots == SetRange(s.slots, lo, n, Slot(now, t))
    requires s'.optimistic == s.optimistic
    requires s'.overcommit == s.overcommit + (if now.Undone? then n else 0)
    requires s'.head == s.head + (if now.Claimed? then n else 0)
    requires TakesOk(s'.takes, s'.head) && PcOk(s', t, s'.pc[t])
    requires forall i, k :: !(lo <= i < lo + n) && SlotHeld(s.pc[t], i, k) ==> SlotHeld(s'.pc[t], i, k)
    requires forall i :: lo <= i < lo + n ==> SlotOk(s', i)
    ensures Inv(s')
  {
    CountSetRange(s.slots, lo, n, Slot(was, t), Slot(now, t), Undone);
    CountSetRange(s.slots, lo, n, Slot(was, t), Slot(now, t), Claimed);
    SetRangeAt(s.slots, lo, n, Slot(now, t));
    assert Local(s, s', t);
    forall i | 0 <= i < |s'.slots| && s'.slots[i].owner == t ensures SlotOk(s', i) {
      if !(lo <= i < lo + n) {
        assert SlotOk(s, i);
        OwnSlotKept(s, s', t, i);
      }
    }
    LocalStepKeepsInv(s, s', t);
  }

  /** The step that decides: because every unit counted in the overcommit value read earlier lies
      before this reservation, the units committed here are covered by the tail. */
  lemma CommitKeepsInv<T>(s: State<T>, t: Tid)
    requires Inv(s) && t in s.pc && s.pc[t].ReloadTail?
    requires Tail(s) - (s.pc[t].mine - s.pc[t].over) > 0
    ensures Inv(StepReloadTail(s, t))
  {
    assert PcOk(s, t, s.pc[t]);
    var ReloadTail(over, want, mine) := s.pc[t];
    var got := Min(want, Tail(s) - (mine - over));
    var s' := StepReloadTail(s, t);
    SetRangeAt(s.slots, mine, got, Slot(Committed, t));
    forall i | mine <= i < mine + got ensures SlotOk(s', i) {
      UndoneGrows(s.slots, s'.slots, mine);
      PrefixCount(s'.slots, mine, i);
    }
    RetireKeepsInv(s, s', t, mine, got, Pending, Committed);
  }

  lemma TrimKeepsInv<T>(s: State<T>, t: Tid)
    requires Inv(s) && t in s.pc && s.pc[t].Trim?
    ensures Inv(StepConsumer(s, t, 0))
  {
    assert PcOk(s, t, s.pc[t]);
    var Trim(want, got, mine) := s.pc[t];
    SetRangeAt(s.slots, mine + got, want - got, Slot(Undone, t));
    RetireKeepsInv(s, StepConsumer(s, t, 0), t, mine + got, want - got, Pending, Undone);
  }

  lemma ClaimKeepsInv<T>(s: State<T>, t: Tid)
    requires Inv(s) && t in s.pc && s.pc[t].Claim?
    ensures Inv(StepConsumer(s, t, 0))
  {
    assert PcOk(s, t, s.pc[t]);
    var Claim(got, mine) := s.pc[t];
    var s' := StepConsumer(s, t, 0);
    SetRangeAt(s.slots, mine, got, Slot(Claimed, t));
    assert s'.takes[..|s'.takes| - 1] == s.takes;
    forall i | mine <= i < mine + got ensures SlotOk(s', i) {
      assert SlotOk(s, i);
      UndoneGrows(s.slots, s'.slots, i);
    }
    RetireKeepsInv(s, s', t, mine, got, Committed, Claimed);
  }

  lemma GiveUpKeepsInv<T>(s: State<T>, t: Tid)
    requires Inv(s) && t in s.pc && s.pc[t].GiveUp?
    ensures Inv(StepConsumer(s, t, 0))
  {
    assert PcOk(s, t, s.pc[t]);
    var GiveUp(want, mine) := s.pc[t];
    SetRangeAt(s.slots, mine, want, Slot(Undone, t));
    RetireKeepsInv(s, StepConsumer(s, t, 0), t, mine, want, Pending, Undone);
  }

  /** The step that finds nothing keeps its reservation until it gives it back. */
  lemma NothingThereKeepsInv<T>(s: State<T>, t: Tid)
    requires Inv(s) && t in s.pc && s.pc[t].ReloadTail?
    requires Tail(s) - (s.pc[t].mine - s.pc[t].over) <= 0
    ensures Inv(StepReloadTail(s, t))
  {
    assert PcOk(s, t, s.pc[t]);
    var s' := StepReloadTail(s, t);
    assert Local(s, s', t);
    forall i | 0 <= i < |s'.slots| && s'.slots[i].owner == t ensures SlotOk(s', i) {
      assert SlotOk(s, i);
      OwnSlotKept(s, s', t, i);
    }
    LocalStepKeepsInv(s, s', t);
  }

  lemma StepKeepsInv<T>(s: State<T>, a: Action<T>)
    requires Inv(s) && Enabled(s, a)
    ensures Inv(Step(s, a))
  {
    match a
    case Enqueue(batch) => EnqueueKeepsInv(s, batch);
    case Consume(t, max) =>
      assert PcOk(s, t, s.pc[t]);
      match s.pc[t]
      case Reserve(_, _) => ReserveKeepsInv(s, t);
      case ReloadTail(over, _, mine) =>
        if Tail(s) - (mine - over) > 0 { CommitKeepsInv(s, t); } else { NothingThereKeepsInv(s, t); }
      case Trim(_, _, _) => TrimKeepsInv(s, t);
      case Claim(_, _) => ClaimKeepsInv(s, t);
      case GiveUp(_, _) => GiveUpKeepsInv(s, t);
      case _ => ReadStepKeepsInv(s, t, StepConsumer(s, t, max).pc[t]);
  }

  // ---------------------------------------------------------------- whole runs

  function Init<T>(tids: set<Tid>): State<T> {
    State([], 0, 0, 0, map t | t in tids :: Idle, [], [])
  }

  lemma InitInv<T>(tids: set<Tid>)
    ensures Inv(Init<T>(tids))
  {
  }

  /** Any interleaving of enqueues and consumer steps; an action of an unknown thread does nothing. */
  function Run<T>(s: State<T>, schedule: seq<Action<T>>): (s': State<T>)
    requires Inv(s)
    ensures Inv(s')
    decreases |schedule|
  {
    if schedule == [] then s
    else if Enabled(s, schedule[0]) then
      StepKeepsInv(s, schedule[0]);
      Run(Step(s, schedule[0]), schedule[1..])
    else
      Run(s, schedule[1..])
  }

  // ---------------------------------------------------------------- what the invariant gives

  /** In every reachable state the head has not passed the tail, and it will not do so when the
      consumers that have already decided to claim do claim. */
  lemma ClaimsWithinTail<T>(s: State<T>)
    requires Inv(s)
    ensures s.head + Count(s.slots, Committed) <= Tail(s)
  {
    forall i | 0 <= i < |s.slots| && (s.slots[i].kind == Committed || s.slots[i].kind == Claimed)
      ensures i + 1 - Count(s.slots[..i], Undone) <= Tail(s)
    {
      assert SlotOk(s, i);
    }
    CommittedWithinTail(s.slots, Tail(s));
  }

  /** So the fetch_add on the head always yields indices of enqueued elements. */
  lemma ClaimYieldsElements<T>(s: State<T>, t: Tid)
    requires Inv(s) && t in s.pc && s.pc[t].Claim?
    ensures s.head + s.pc[t].got <= Tail(s)
  {
    assert PcOk(s, t, s.pc[t]);
    var Claim(got, mine) := s.pc[t];
    var other := SetRange(s.slots, mine, got, Slot(Claimed, t));
    CountSetRange(s.slots, mine, got, Slot(Committed, t), Slot(Claimed, t), Committed);
    ClaimsWithinTail(s);
  }

  predicate Covers(take: Take, e: nat) { take.first <= e < take.first + take.count }

  lemma {:induction false} TakesCover(takes: seq<Take>, head: nat, e: nat)
    requires TakesOk(takes, head)
    ensures e < head ==> exists k :: 0 <= k < |takes| && Covers(takes[k], e)
    ensures e >= head ==> forall k :: 0 <= k < |takes| ==> !Covers(takes[k], e)
    ensures forall k, l :: 0 <= k < |takes| && 0 <= l < |takes| && Covers(takes[k], e) && Covers(takes[l], e) ==> k == l
  {
    if takes != [] {
      var n := |takes| - 1;
      var rest, last := takes[..n], takes[n];
      TakesCover(rest, last.first, e);
      assert forall k :: 0 <= k < n ==> takes[k] == rest[k];
      if e < last.first {
        var k :| 0 <= k < |rest| && Covers(rest[k], e);
        assert Covers(takes[k], e);
      } else if e < head {
        assert Covers(takes[n], e);
      }
    }
  }

  /** Every element whose index the head has passed was received by exactly one claim, no other one
      by any, whatever the interleaving. */
  lemma EachElementTakenOnce<T>(tids: set<Tid>, schedule: seq<Action<T>>, e: nat)
    ensures Inv(Init<T>(tids))
    ensures var s := Run(Init(tids), schedule);
            && s.head <= Tail(s)
            && (e < s.head ==> exists k :: 0 <= k < |s.takes| && Covers(s.takes[k], e))
            && (e >= s.head ==> forall k :: 0 <= k < |s.takes| ==> !Covers(s.takes[k], e))
            && forall k, l :: 0 <= k < |s.takes| && 0 <= l < |s.takes| && Covers(s.takes[k], e) && Covers(s.takes[l], e)
                 ==> k == l
  {
    InitInv<T>(tids);
    var s := Run(Init(tids), schedule);
    ClaimsWithinTail(s);
    TakesCover(s.takes, s.head, e);
  }

  /** What the claims delivered, in the order of their fetch_adds. */
  function Delivered<T>(items: seq<T>, takes: seq<Take>, head: nat): seq<T>
    requires TakesOk(takes, head) && head <= |items|
  {
    if takes == [] then []
    else
      var last := takes[|takes| - 1];
      Delivered(items, takes[..|takes| - 1], last.first) + items[last.first..head]
  }

  /** The sub-queue is a FIFO: the claims taken together deliver exactly the first head elements
      enqueued, in order. */
  lemma {:induction false} DeliveredIsPrefix<T>(items: seq<T>, takes: seq<Take>, head: nat)
    requires TakesOk(takes, head) && head <= |items|
    ensures Delivered(items, takes, head) == items[..head]
  {
    if takes != [] {
      var last := takes[|takes| - 1];
      DeliveredIsPrefix(items, takes[..|takes| - 1], last.first);
      assert items[..head] == items[..last.first] + items[last.first..head];
    }
  }

  /** What a consumer still has reserved and neither claimed nor given back. */
  function InFlight(p: Pc): nat {
    match p
    case ReloadTail(_, want, _) => want
    case Trim(want, _, _) => want
    case Claim(got, _) => got
    case GiveUp(want, _) => want
    case _ => 0
  }

  ghost function TotalInFlight(pc: map<Tid, Pc>): nat
    decreases |pc|
  {
    if pc.Keys == {} then 0
    else
      var t :| t in pc;
      assert (pc - {t}).Keys == pc.Keys - {t};
      assert |pc| == |pc.Keys| && |pc - {t}| == |(pc - {t}).Keys|;
      InFlight(pc[t]) + TotalInFlight(pc - {t})
  }

  lemma {:induction false} TotalWithout(pc: map<Tid, Pc>, t: Tid)
    requires t in pc
    ensures TotalInFlight(pc) == InFlight(pc[t]) + TotalInFlight(pc - {t})
    decreases |pc|
  {
    var u :| u in pc && TotalInFlight(pc) == InFlight(pc[u]) + TotalInFlight(pc - {u});
    if u != t {
      assert (pc - {u}).Keys == pc.Keys - {u} && (pc - {t}).Keys == pc.Keys - {t};
      assert |pc| == |pc.Keys| && |pc - {t}| == |(pc - {t}).Keys| && |pc - {u}| == |(pc - {u}).Keys|;
      TotalWithout(pc - {u}, t);
      TotalWithout(pc - {t}, u);
      assert pc - {u} - {t} == pc - {t} - {u};
    }
  }

  lemma TotalMove(pc: map<Tid, Pc>, t: Tid, p: Pc)
    requires t in pc
    ensures TotalInFlight(pc[t := p]) == TotalInFlight(pc) - InFlight(pc[t]) + InFlight(p)
  {
    TotalWithout(pc, t);
    TotalWithout(pc[t := p], t);
    assert pc[t := p] - {t} == pc - {t};
  }

  ghost predicate Balanced<T>(s: State<T>) {
    s.optimistic == s.head + s.overcommit + TotalInFlight(s.pc)
  }

  lemma StepBalanced<T>(s: State<T>, a: Action<T>)
    requires Inv(s) && Enabled(s, a) && Balanced(s)
    ensures Balanced(Step(s, a))
  {
    if a.Consume? {
      assert PcOk(s, a.t, s.pc[a.t]);
      TotalMove(s.pc, a.t, Step(s, a).pc[a.t]);
    }
  }

  lemma {:induction false} AllIdleNothingInFlight(pc: map<Tid, Pc>)
    requires forall t :: t in pc ==> pc[t] == Idle
    ensures TotalInFlight(pc) == 0
    decreases |pc|
  {
    if pc.Keys != {} {
      var t :| t in pc && TotalInFlight(pc) == InFlight(pc[t]) + TotalInFlight(pc - {t});
      assert (pc - {t}).Keys == pc.Keys - {t};
      assert |pc| == |pc.Keys| && |pc - {t}| == |(pc - {t}).Keys|;
      AllIdleNothingInFlight(pc - {t});
    }
  }

  lemma {:induction false} RunBalanced<T>(s: State<T>, schedule: seq<Action<T>>)
    requires Inv(s) && Balanced(s)
    ensures Balanced(Run(s, schedule))
    decreases |schedule|
  {
    if schedule != [] {
      if Enabled(s, schedule[0]) {
        StepKeepsInv(s, schedule[0]);
        StepBalanced(s, schedule[0]);
        RunBalanced(Step(s, schedule[0]), schedule[1..]);
      } else {
        RunBalanced(s, schedule[1..]);
      }
    }
  }

  /** In every reachable state the optimistic count is the head plus the overcommit plus what the
      consumers have reserved and not settled. */
  lemma CountersBalance<T>(tids: set<Tid>, schedule: seq<Action<T>>)
    ensures Inv(Init<T>(tids))
    ensures var s := Run(Init(tids), schedule);
            s.optimistic == s.head + s.overcommit + TotalInFlight(s.pc)
  {
    InitInv<T>(tids);
    AllIdleNothingInFlight(Init<T>(tids).pc);
    RunBalanced(Init(tids), schedule);
  }

  function Rank(p: Pc): nat {
    match p
    case Idle => 0
    case LoadOvercommit(_, _) => 6
    case LoadOptimistic(_, _, _) => 5
    case Reserve(_, _) => 4
    case ReloadTail(_, _, _) => 3
    case Trim(_, _, _) => 2
    case Claim(_, _) => 1
    case GiveUp(_, _) => 1
  }

  /** Let consumer t alone run its call to the end; it takes at most six more steps. */
  function Finish<T>(s: State<T>, t: Tid): State<T>
    requires Inv(s) && t in s.pc
    decreases Rank(s.pc[t])
  {
    if s.pc[t].Idle? then s
    else
      StepKeepsInv(s, Consume(t, 0));
      Finish(StepConsumer(s, t, 0), t)
  }

  lemma FinishStep<T>(s: State<T>, t: Tid)
    requires Inv(s) && t in s.pc && !s.pc[t].Idle?
    ensures Inv(StepConsumer(s, t, 0)) && Finish(s, t) == Finish(StepConsumer(s, t, 0), t)
  {
    StepKeepsInv(s, Consume(t, 0));
  }

  /** A reservation of n units made right at the balance point ends as a claim of n elements. */
  lemma FinishReserve<T>(s: State<T>, t: Tid, over: nat, n: nat)
    requires Inv(s) && t in s.pc && s.pc[t] == Reserve(over, n)
    requires s.optimistic == s.head + over && s.head < Tail(s) && n <= Tail(s) - s.head
    ensures Finish(s, t).takes == s.takes + [Take(t, s.head, n)] && Finish(s, t).head == s.head + n
  {
    FinishStep(s, t);
    var s1 := StepConsumer(s, t, 0);
    assert s1.pc[t] == ReloadTail(over, n, s.optimistic);
    FinishStep(s1, t);
    var s2 := StepConsumer(s1, t, 0);
    assert s2.pc[t] == Claim(n, s.optimistic);
    FinishStep(s2, t);
  }

  /** With no consumer in the middle of a call, a call finds an element whenever there is one, and
      takes exactly min(max, tail - head); on an empty queue it changes nothing. */
  lemma QuiescentDequeueExact<T>(s: State<T>, t: Tid, max: nat)
    requires Inv(s) && Balanced(s) && t in s.pc && forall u :: u in s.pc ==> s.pc[u] == Idle
    ensures Inv(Step(s, Consume(t, max))) && s.head <= Tail(s)
    ensures var s' := Finish(Step(s, Consume(t, max)), t);
            if s.head == Tail(s) then s'.takes == s.takes && s'.head == s.head
            else
              && s'.takes == s.takes + [Take(t, s.head, Min(max, Tail(s) - s.head))]
              && s'.head == s.head + Min(max, Tail(s) - s.head)
  {
    AllIdleNothingInFlight(s.pc);
    ClaimsWithinTail(s);
    StepKeepsInv(s, Consume(t, max));
    var s1 := Step(s, Consume(t, max));
    FinishStep(s1, t);
    var s2 := StepConsumer(s1, t, 0);
    assert s2.pc[t] == LoadOptimistic(max, Tail(s), s.overcommit);
    FinishStep(s2, t);
    if s.head < Tail(s) {
      FinishReserve(StepConsumer(s2, t, 0), t, s.overcommit, Min(max, Tail(s) - s.head));
    }
  }

  // ---------------------------------------------------------------- what a miss means

  ghost predicate AllIdle<T>(s: State<T>) { forall t :: t in s.pc ==> s.pc[t] == Idle }

  /** The next step of consumer t ends its call without an element. */
  predicate Misses<T>(s: State<T>, t: Tid) {
    && t in s.pc
    && match s.pc[t] {
         case LoadOptimistic(_, tail, over) => tail - (s.optimistic - over) <= 0
         case GiveUp(_, _) => true
         case _ => false
       }
  }

  /** The optimistic count up to which reservations find an element, if nobody was in a call at s0 and nothing has been
      enqueued since. */
  function Enough<T>(s0: State<T>): nat { Tail(s0) + s0.overcommit }

  /** A call begun since has read the tail as it is and an overcommit that is not older; what it does not get, or gives
      back, lies beyond. */
  predicate BegunSince<T>(s0: State<T>, p: Pc) {
    match p
    case Idle => true
    case LoadOvercommit(_, tail) => tail == Tail(s0)
    case LoadOptimistic(_, tail, over) => tail == Tail(s0) && s0.overcommit <= over
    case Reserve(over, _) => s0.overcommit <= over
    case ReloadTail(over, _, mine) => s0.overcommit <= over
    case Trim(_, got, mine) => Enough(s0) <= mine + got
    case Claim(_, _) => true
    case GiveUp(_, mine) => Enough(s0) <= mine
  }

  /** Since s0, when nobody was in a call, nothing has been enqueued, and no unit that finds an element has been
      undone. */
  ghost predicate Since<T>(s0: State<T>, s: State<T>) {
    && s.items == s0.items && s0.overcommit <= s.overcommit
    && |s0.slots| <= |s.slots| && s.slots[..|s0.slots|] == s0.slots
    && (forall i :: |s0.slots| <= i < |s.slots| && i < Enough(s0) ==> s.slots[i].kind != Undone)
    && (forall t :: t in s.pc ==> BegunSince(s0, s.pc[t]))
  }

  lemma SinceItself<T>(s: State<T>)
    requires AllIdle(s)
    ensures Since(s, s)
  {
  }

  /** With nobody in a call every unit is claimed or undone for good. */
  lemma SettledUnits<T>(s: State<T>, i: nat)
    requires Inv(s) && AllIdle(s) && i < |s.slots|
    ensures s.slots[i].kind == Claimed || s.slots[i].kind == Undone
  {
    assert SlotOk(s, i);
  }

  lemma SinceStep<T>(s0: State<T>, s: State<T>, t: Tid, max: nat)
    requires Inv(s0) && AllIdle(s0) && Inv(s) && Since(s0, s) && t in s.pc
    ensures Since(s0, Step(s, Consume(t, max)))
  {
    ThreadOk(s, t);
    SinceOlder(s0, s, t, max);
    SinceNewer(s0, s, t, max);
    hide Inv, SetRange;
    assert BegunSince(s0, s.pc[t]);
  }

  lemma SinceOlder<T>(s0: State<T>, s: State<T>, t: Tid, max: nat)
    requires Inv(s0) && AllIdle(s0) && Inv(s) && Since(s0, s) && t in s.pc && PcOk(s, t, s.pc[t])
    ensures var s' := StepConsumer(s, t, max); |s0.slots| <= |s'.slots| && s'.slots[..|s0.slots|] == s0.slots
  {
    forall i | 0 <= i < |s0.slots| ensures s.slots[i].kind != Pending && s.slots[i].kind != Committed {
      assert s.slots[i] == s.slots[..|s0.slots|][i];
      SettledUnits(s0, i);
    }
    hide Inv, Since, AllIdle;
    var s' := StepConsumer(s, t, max);
    assert s.slots[..|s0.slots|] == s0.slots;
    assert forall i :: 0 <= i < |s0.slots| ==> s'.slots[i] == s.slots[i];
  }

  /** What a call begun since undoes lies beyond. */
  lemma SinceNewer<T>(s0: State<T>, s: State<T>, t: Tid, max: nat)
    requires Inv(s) && Since(s0, s) && t in s.pc && PcOk(s, t, s.pc[t])
    ensures var s' := StepConsumer(s, t, max);
            forall i :: |s0.slots| <= i < |s'.slots| && i < Enough(s0) ==> s'.slots[i].kind != Undone
  {
    assert BegunSince(s0, s.pc[t]);
    hide Inv;
  }

  lemma MissesBeyond<T>(s0: State<T>, s: State<T>, t: Tid)
    requires Inv(s) && Since(s0, s) && Misses(s, t)
    ensures Enough(s0) <= s.optimistic
  {
    assert PcOk(s, t, s.pc[t]);
    assert BegunSince(s0, s.pc[t]);
  }

  /** Once the optimistic count is there and all calls have ended, nothing is left. */
  lemma AllTaken<T>(s0: State<T>, s: State<T>)
    requires Inv(s0) && Balanced(s0) && AllIdle(s0) && Inv(s) && AllIdle(s) && Since(s0, s)
    requires Enough(s0) <= s.optimistic
    ensures s.head == Tail(s)
  {
    AllIdleNothingInFlight(s0.pc);
    ClaimsWithinTail(s0);
    ClaimsWithinTail(s);
    var n0, n := |s0.slots|, Enough(s0);
    assert n0 == s0.head + s0.overcommit <= n;
    var newer, rest := s.slots[n0..n], s.slots[n..];
    forall i | 0 <= i < |newer| ensures newer[i].kind == Claimed {
      SettledUnits(s, n0 + i);
    }
    assert s.slots == s0.slots + newer + rest;
    CountConcat(s0.slots + newer, rest, Claimed);
    CountConcat(s0.slots, newer, Claimed);
    CountOnly(newer, Claimed);
  }

  lemma {:induction false} CountOnly(slots: seq<Slot>, k: Kind)
    requires forall i :: 0 <= i < |slots| ==> slots[i].kind == k
    ensures Count(slots, k) == |slots|
  {
    if slots != [] { CountOnly(slots[..|slots| - 1], k); }
  }

  predicate NoEnqueue<T>(schedule: seq<Action<T>>) { forall i :: 0 <= i < |schedule| ==> schedule[i].Consume? }

  lemma {:induction false} SinceRun<T>(s0: State<T>, s: State<T>, schedule: seq<Action<T>>)
    requires Inv(s0) && AllIdle(s0) && Inv(s) && Since(s0, s) && NoEnqueue(schedule)
    ensures Since(s0, Run(s, schedule)) && s.optimistic <= Run(s, schedule).optimistic
    decreases |schedule|
  {
    hide Inv, Since, AllIdle;
    if schedule != [] {
      var a := schedule[0];
      if Enabled(s, a) {
        ThreadOk(s, a.t);
        StepKeepsInv(s, a);
        SinceStep(s0, s, a.t, a.max);
        OptimisticGrows(s, a);
        SinceRun(s0, Step(s, a), schedule[1..]);
      } else {
        SinceRun(s0, s, schedule[1..]);
      }
    }
  }

  lemma OptimisticGrows<T>(s: State<T>, a: Action<T>)
    requires Inv(s) && Enabled(s, a)
    ensures s.optimistic <= Step(s, a).optimistic
  {
  }

  /** Stale reads can make a call miss an element only when other calls were under way, or something was enqueued, while
      it was at work: from a state with nobody in a call on, and with nothing enqueued, the first call of any consumer
      that misses shows that all elements are claimed or are going to be claimed by calls under way; whenever nobody
      is in a call afterwards, the queue is empty. */
  lemma MissMeansTaken<T>(s0: State<T>, before: seq<Action<T>>, t: Tid, after: seq<Action<T>>)
    requires Inv(s0) && Balanced(s0) && AllIdle(s0) && NoEnqueue(before) && NoEnqueue(after)
    requires Misses(Run(s0, before), t)
    ensures Inv(Step(Run(s0, before), Consume(t, 0)))
    ensures var s := Run(Step(Run(s0, before), Consume(t, 0)), after); AllIdle(s) ==> s.head == Tail(s)
  {
    var s1 := Run(s0, before);
    StepKeepsInv(s1, Consume(t, 0));
    SinceItself(s0);
    SinceRun(s0, s0, before);
    MissesBeyond(s0, s1, t);
    SinceStep(s0, s1, t, 0);
    OptimisticGrows(s1, Consume(t, 0));
    var s2 := Step(s1, Consume(t, 0));
    SinceRun(s0, s2, after);
    hide Inv, Since;
    if AllIdle(Run(s2, after)) {
      AllTaken(s0, Run(s2, after));
    }
  }

  // ---------------------------------------------------------------- why that needs quiescence

  /** The counters, and where consumers 0 and 1 are. */
  datatype View = View(tail: nat, head: nat, optimistic: nat, overcommit: nat, p0: Pc, p1: Pc)

  ghost predicate Shows<T>(s: State<T>, v: View) {
    && Inv(s) && 0 in s.pc && 1 in s.pc && s.pc[0] == v.p0 && s.pc[1] == v.p1
    && |s.items| == v.tail && s.head == v.head && s.optimistic == v.optimistic && s.overcommit == v.overcommit
  }

  /** What shows after a step of consumer t, which wants one element. */
  function Shown(v: View, t: Tid): View {
    var p := if t == 0 then v.p0 else v.p1;
    match p
    case Idle => At(v, t, LoadOvercommit(1, v.tail))
    case LoadOvercommit(m, tail) => At(v, t, LoadOptimistic(m, tail, v.overcommit))
    case LoadOptimistic(m, tail, over) =>
      var desired := tail - (v.optimistic - over);
      At(v, t, if desired > 0 then Reserve(over, Min(desired, m)) else Idle)
    case Reserve(over, want) => At(v, t, ReloadTail(over, want, v.optimistic)).(optimistic := v.optimistic + want)
    case ReloadTail(over, want, mine) =>
      var avail := v.tail - (mine - over);
      At(v, t, if avail <= 0 then GiveUp(want, mine)
               else if avail < want then Trim(want, avail, mine) else Claim(want, mine))
    case Trim(want, got, mine) =>
      At(v, t, Claim(got, mine)).(overcommit := if got < want then v.overcommit + want - got else v.overcommit)
    case Claim(got, _) => At(v, t, Idle).(head := v.head + got)
    case GiveUp(want, _) => At(v, t, Idle).(overcommit := v.overcommit + want)
  }

  function At(v: View, t: Tid, p: Pc): View { if t == 0 then v.(p0 := p) else v.(p1 := p) }

  lemma StepShows<T>(s: State<T>, v: View, t: Tid)
    requires Shows(s, v) && t < 2
    ensures Inv(Step(s, Consume(t, 1))) && Shows(Step(s, Consume(t, 1)), Shown(v, t))
    ensures !s.pc[t].Claim? ==> Step(s, Consume(t, 1)).takes == s.takes
  {
    hide Inv, SetRange;
    StepKeepsInv(s, Consume(t, 1));
    ThreadOk(s, t);
  }

  lemma ThreadOk<T>(s: State<T>, t: Tid)
    requires Inv(s) && t in s.pc
    ensures PcOk(s, t, s.pc[t])
  {
  }

  lemma {:induction false} RunLast<T>(s: State<T>, run: seq<Action<T>>, a: Action<T>)
    requires Inv(s) && Enabled(Run(s, run), a)
    ensures Run(s, run + [a]) == Step(Run(s, run), a)
    decreases |run|
  {
    hide Step;
    if run == [] {
      StepKeepsInv(s, a);
      assert [a][1..] == [];
      assert run + [a] == [a];
    } else {
      assert (run + [a])[1..] == run[1..] + [a];
      if Enabled(s, run[0]) {
        StepKeepsInv(s, run[0]);
        RunLast(Step(s, run[0]), run[1..], a);
      } else {
        RunLast(s, run[1..], a);
      }
    }
  }

  /** This run from the start shows that. */
  ghost predicate Leads<T>(run: seq<Action<T>>, v: View) { Inv(Init<T>({0, 1})) && Shows(Run(Init<T>({0, 1}), run), v) }

  lemma Consumes<T>(run: seq<Action<T>>, v: View, t: Tid)
    requires Leads(run, v) && t < 2
    ensures Leads(run + [Consume(t, 1)], Shown(v, t))
  {
    hide Inv, Step, Shown;
    var s := Run(Init<T>({0, 1}), run);
    StepShows(s, v, t);
    RunLast(Init<T>({0, 1}), run, Consume(t, 1));
  }

  lemma Enqueues<T>(run: seq<Action<T>>, v: View, x: T)
    requires Leads(run, v)
    ensures Leads(run + [Enqueue([x])], v.(tail := v.tail + 1))
  {
    hide Inv;
    var s := Run(Init<T>({0, 1}), run);
    StepKeepsInv(s, Enqueue([x]));
    RunLast(Init<T>({0, 1}), run, Enqueue([x]));
  }

  /** Consumer t takes its next n steps. */
  lemma {:induction false} ConsumesOn<T>(run: seq<Action<T>>, v: View, t: Tid, n: nat) returns (run': seq<Action<T>>)
    requires Leads(run, v) && t < 2
    ensures Leads(run', ShownAfter(v, t, n))
    decreases n
  {
    hide Leads, Shown;
    if n == 0 {
      run' := run;
    } else {
      Consumes(run, v, t);
      run' := ConsumesOn(run + [Consume(t, 1)], Shown(v, t), t, n - 1);
    }
  }

  function ShownAfter(v: View, t: Tid, n: nat): View
    decreases n
  {
    if n == 0 then v else ShownAfter(Shown(v, t), t, n - 1)
  }

  /** Two consumers compete for the only element; when the second one is enqueued, the loser has not yet given its
      reservation back. */
  lemma Overtaken<T>(x: T, y: T) returns (run: seq<Action<T>>)
    ensures Leads(run, View(2, 1, 2, 0, Idle, GiveUp(1, 1)))
  {
    hide Leads;
    var v0 := View(0, 0, 0, 0, Idle, Idle);
    run := [];
    NothingYet<T>();
    Enqueues(run, v0, x);
    run := run + [Enqueue([x])];
    var v1 := View(1, 0, 0, 0, Idle, Idle);
    run := ConsumesOn(run, v1, 0, 3);
    var v2 := View(1, 0, 0, 0, Reserve(0, 1), Idle);
    assert ShownAfter(v1, 0, 3) == v2 by { assert ShownAfter(Shown(v1, 0), 0, 2) == v2; }
    run := ConsumesOn(run, v2, 1, 3);
    var v3 := View(1, 0, 0, 0, Reserve(0, 1), Reserve(0, 1));
    assert ShownAfter(v2, 1, 3) == v3 by { assert ShownAfter(Shown(v2, 1), 1, 2) == v3; }
    Consumes(run, v3, 0);
    run := run + [Consume(0, 1)];
    run := ConsumesOn(run, Shown(v3, 0), 1, 2);
    var v4 := View(1, 0, 2, 0, ReloadTail(0, 1, 0), GiveUp(1, 1));
    assert ShownAfter(Shown(v3, 0), 1, 2) == v4;
    run := ConsumesOn(run, v4, 0, 2);
    assert ShownAfter(v4, 0, 2) == View(1, 1, 2, 0, Idle, GiveUp(1, 1));
    Enqueues(run, View(1, 1, 2, 0, Idle, GiveUp(1, 1)), y);
    run := run + [Enqueue([y])];
  }

  lemma NothingYet<T>()
    ensures Leads<T>([], View(0, 0, 0, 0, Idle, Idle))
  {
    InitInv<T>({0, 1});
    assert 0 in {0, 1} && 1 in {0, 1};
  }

  /** While another consumer is about to give a reservation back, a call can find nothing although an element is there
      that nobody has claimed, even if nothing is enqueued during the call. */
  lemma MissesElement<T>(x: T, y: T)
    ensures Inv(Init<T>({0, 1}))
    ensures exists run: seq<Action<T>> ::
              var s := Run(Init<T>({0, 1}), run);
              && s.head < Tail(s) && 0 in s.pc && s.pc[0] == Idle && Inv(Step(s, Consume(0, 1)))
              && Finish(Step(s, Consume(0, 1)), 0).takes == s.takes && Finish(Step(s, Consume(0, 1)), 0).head == s.head
  {
    var run := Overtaken(x, y);
    var s := Run(Init<T>({0, 1}), run);
    var v := View(2, 1, 2, 0, Idle, GiveUp(1, 1));
    FindsNothing(s, v);
  }

  lemma FindsNothing<T>(s: State<T>, v: View)
    requires Shows(s, v) && v == View(2, 1, 2, 0, Idle, GiveUp(1, 1))
    ensures Inv(Step(s, Consume(0, 1)))
    ensures Finish(Step(s, Consume(0, 1)), 0).takes == s.takes && Finish(Step(s, Consume(0, 1)), 0).head == s.head
  {
    hide Inv, StepConsumer, Finish;
    StepShows(s, v, 0);
    var s1, v1 := Step(s, Consume(0, 1)), Shown(v, 0);
    StepShows(s1, v1, 0);
    GoesOn(s1, 0);
    var s2, v2 := Step(s1, Consume(0, 1)), Shown(v1, 0);
    StepShows(s2, v2, 0);
    GoesOn(s2, 0);
    var s3 := Step(s2, Consume(0, 1));
    FinishIdle(s3, 0);
  }

  lemma GoesOn<T>(s: State<T>, t: Tid)
    requires Inv(s) && t in s.pc && !s.pc[t].Idle?
    ensures Inv(Step(s, Consume(t, 1))) && Finish(s, t) == Finish(Step(s, Consume(t, 1)), t)
  {
    FinishStep(s, t);
    assert PcOk(s, t, s.pc[t]);
    assert Step(s, Consume(t, 1)) == StepConsumer(s, t, 0);
  }

  lemma FinishIdle<T>(s: State<T>, t: Tid)
    requires Inv(s) && t in s.pc && s.pc[t].Idle?
    ensures Finish(s, t) == s
  {
  }
}
