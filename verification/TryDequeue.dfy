/** try_dequeue without a token: any number of threads dequeue from any number of producers' sub-queues, one atomic
    operation per step, any interleaving. A call first walks the list of producers for the best of the first three
    whose size is not zero, tries to dequeue from it, and if that fails walks the list again and tries all others.
    New producers enter the list at its front; they are numbered in the order in which they came. */
module TryDequeue {
  import opened Options
  import Sub = DequeueProtocol

  type Tid = Sub.Tid

  /** Where a thread is in try_dequeue; `left` producers of the list are still to be visited, the next is left - 1. */
  datatype Walk =
    | Out(found: bool)                                                     // not inside; what the last call returned
    | LoadTail(left: nat, nonEmpty: nat, best: nat, bestSize: nat)         // size_approx
    | LoadHead(left: nat, nonEmpty: nat, best: nat, bestSize: nat, tail: nat)
    | First(best: nat)                                                     // best->dequeue(item)
    | Again(best: nat)                                                     // producerListTail.load() once more
    | Rest(left: nat, best: nat)                                           // ptr->dequeue(item) of another one

  datatype State<T> = State(subs: seq<Sub.State<T>>, walks: map<Tid, Walk>)

  datatype Action<T> =
    | Enqueue(p: nat, batch: seq<T>)
    | AddProducer
    | Call(t: Tid)                     // the next atomic operation of t's call, or the first one of a new call

  // ---------------------------------------------------------------- steps

  /** The scoring loop goes on, or ends. */
  function Scored(left: nat, nonEmpty: nat, best: nat, bestSize: nat): Walk {
    if left > 0 && nonEmpty < 3 then LoadTail(left, nonEmpty, best, bestSize)
    else if nonEmpty > 0 then First(best)
    else Out(false)
  }

  function Score(left: nat, nonEmpty: nat, best: nat, bestSize: nat, head: nat, tail: nat): Walk
    requires left > 0
  {
    var size := if head < tail then tail - head else 0;
    if size == 0 then Scored(left - 1, nonEmpty, best, bestSize)
    else if size > bestSize then Scored(left - 1, nonEmpty + 1, left - 1, size)
    else Scored(left - 1, nonEmpty + 1, best, bestSize)
  }

  /** The second walk skips the best one. */
  function Others(left: nat, best: nat): Walk {
    if left == 0 then Out(false)
    else if left - 1 != best then Rest(left, best)
    else if left == 1 then Out(false)
    else Rest(left - 1, best)
  }

  /** The producer whose dequeue the thread is in. */
  function Visiting(w: Walk): Option<nat> {
    match w
    case First(best) => Some(best)
    case Rest(left, _) => if left > 0 then Some(left - 1) else None
    case _ => None
  }

  /** The next operation of t in the dequeue of producer p; if that misses, the thread goes on with onMiss. */
  function StepIn<T>(s: State<T>, t: Tid, p: nat, onMiss: Walk): State<T>
    requires t in s.walks && p < |s.subs| && t in s.subs[p].pc && Sub.PcOk(s.subs[p], t, s.subs[p].pc[t])
  {
    var w := if s.subs[p].pc[t].Claim? then Out(true)
             else if Sub.Misses(s.subs[p], t) then onMiss
             else s.walks[t];
    State(s.subs[p := Sub.StepConsumer(s.subs[p], t, 1)], s.walks[t := w])
  }

  function StepCall<T>(s: State<T>, t: Tid): State<T>
    requires CanCall(s, t)
  {
    match s.walks[t]
    case Out(_) => s.(walks := s.walks[t := Scored(|s.subs|, 0, 0, 0)])
    case LoadTail(left, nonEmpty, best, bestSize) =>
      s.(walks := s.walks[t := LoadHead(left, nonEmpty, best, bestSize, Sub.Tail(s.subs[left - 1]))])
    case LoadHead(left, nonEmpty, best, bestSize, tail) =>
      s.(walks := s.walks[t := Score(left, nonEmpty, best, bestSize, s.subs[left - 1].head, tail)])
    case First(best) => StepIn(s, t, best, Again(best))
    case Again(best) => s.(walks := s.walks[t := Others(|s.subs|, best)])
    case Rest(left, best) => StepIn(s, t, left - 1, Others(left - 1, best))
  }

  predicate WalkOk<T>(s: State<T>, w: Walk) {
    match w
    case Out(_) => true
    case LoadTail(left, nonEmpty, best, bestSize) =>
      0 < left <= |s.subs| && if nonEmpty == 0 then bestSize == 0 else best < |s.subs|
    case LoadHead(left, nonEmpty, best, bestSize, _) =>
      0 < left <= |s.subs| && if nonEmpty == 0 then bestSize == 0 else best < |s.subs|
    case First(best) => best < |s.subs|
    case Again(best) => best < |s.subs|
    case Rest(left, best) => 0 < left <= |s.subs| && best < |s.subs| && best != left - 1
  }

  predicate CanCall<T>(s: State<T>, t: Tid) {
    && t in s.walks && WalkOk(s, s.walks[t])
    && (Visiting(s.walks[t]).Some? ==>
          var sub := s.subs[Visiting(s.walks[t]).value];
          t in sub.pc && Sub.PcOk(sub, t, sub.pc[t]))
  }

  predicate Enabled<T>(s: State<T>, a: Action<T>) {
    match a
    case Enqueue(p, _) => p < |s.subs|
    case AddProducer => true
    case Call(t) => CanCall(s, t)
  }

  function Step<T>(s: State<T>, a: Action<T>): State<T>
    requires Enabled(s, a)
  {
    match a
    case Enqueue(p, batch) => s.(subs := s.subs[p := Sub.Step(s.subs[p], Sub.Enqueue(batch))])
    case AddProducer => s.(subs := s.subs + [Sub.Init(s.walks.Keys)])
    case Call(t) => StepCall(s, t)
  }

  // ---------------------------------------------------------------- invariant

  /** One element is wanted. */
  predicate One(p: Sub.Pc) {
    match p
    case Idle => true
    case LoadOvercommit(max, _) => max == 1
    case LoadOptimistic(max, _, _) => max == 1
    case Reserve(_, want) => want == 1
    case ReloadTail(_, want, _) => want == 1
    case Trim(_, _, _) => false
    case Claim(got, _) => got == 1
    case GiveUp(want, _) => want == 1
  }

  ghost predicate SubOk<T>(s: State<T>, p: nat)
    requires p < |s.subs|
  {
    && Sub.Inv(s.subs[p]) && Sub.Balanced(s.subs[p]) && s.subs[p].pc.Keys == s.walks.Keys
    && (forall t :: t in s.subs[p].pc ==> One(s.subs[p].pc[t]))
  }

  /** Only one sub-queue is visited at a time. */
  predicate ThreadOk<T>(s: State<T>, t: Tid)
    requires t in s.walks
  {
    && WalkOk(s, s.walks[t])
    && (forall p :: 0 <= p < |s.subs| && t in s.subs[p].pc && Visiting(s.walks[t]) != Some(p) ==> s.subs[p].pc[t].Idle?)
  }

  ghost predicate Inv<T>(s: State<T>) {
    && (forall p :: 0 <= p < |s.subs| ==> SubOk(s, p))
    && (forall t :: t in s.walks ==> ThreadOk(s, t))
  }

  // ---------------------------------------------------------------- preservation

  lemma CallCan<T>(s: State<T>, t: Tid)
    requires Inv(s) && t in s.walks
    ensures CanCall(s, t)
  {
    assert ThreadOk(s, t);
    if Visiting(s.walks[t]).Some? {
      var p := Visiting(s.walks[t]).value;
      assert SubOk(s, p);
      Sub.ThreadOk(s.subs[p], t);
    }
  }

  /** A dequeue of one element stays one. */
  lemma OneStep<T>(s: Sub.State<T>, t: Tid)
    requires t in s.pc && Sub.PcOk(s, t, s.pc[t]) && One(s.pc[t])
    ensures One(Sub.StepConsumer(s, t, 1).pc[t])
  {
  }

  /** It ends just when it claims or misses; then the thread is out of the sub-queue. */
  lemma EndsWhen<T>(s: Sub.State<T>, t: Tid)
    requires t in s.pc && Sub.PcOk(s, t, s.pc[t]) && One(s.pc[t])
    ensures Sub.StepConsumer(s, t, 1).pc[t].Idle? <==> s.pc[t].Claim? || Sub.Misses(s, t)
  {
  }

  lemma OthersStay<T>(s: Sub.State<T>, t: Tid)
    requires t in s.pc && Sub.PcOk(s, t, s.pc[t])
    ensures var s' := Sub.StepConsumer(s, t, 1); s'.pc == s.pc[t := s'.pc[t]] && s'.items == s.items
  {
  }

  lemma SubStepOk<T>(s: State<T>, t: Tid, p: nat)
    requires Inv(s) && t in s.walks && p < |s.subs|
    ensures t in s.subs[p].pc && Sub.PcOk(s.subs[p], t, s.subs[p].pc[t]) && One(s.subs[p].pc[t])
    ensures var sub := Sub.StepConsumer(s.subs[p], t, 1);
            Sub.Inv(sub) && Sub.Balanced(sub) && sub.pc.Keys == s.walks.Keys && forall u :: u in sub.pc ==>
                One(sub.pc[u])
  {
    assert SubOk(s, p);
    Sub.ThreadOk(s.subs[p], t);
    Sub.StepKeepsInv(s.subs[p], Sub.Consume(t, 1));
    Sub.StepBalanced(s.subs[p], Sub.Consume(t, 1));
    OneStep(s.subs[p], t);
    OthersStay(s.subs[p], t);
    hide Sub.Inv, Sub.Balanced, Sub.StepConsumer;
    assert Sub.Step(s.subs[p], Sub.Consume(t, 1)) == Sub.StepConsumer(s.subs[p], t, 1);
  }

  lemma StepInKeepsInv<T>(s: State<T>, t: Tid, p: nat, onMiss: Walk)
    requires Inv(s) && CanCall(s, t) && Visiting(s.walks[t]) == Some(p) && p < |s.subs|
    requires WalkOk(s, onMiss)
    ensures Inv(StepIn(s, t, p, onMiss))
  {
    hide Sub.Inv, Sub.Balanced, Sub.StepConsumer, Sub.PcOk, Sub.Misses, WalkOk, One;
    SubStepOk(s, t, p);
    EndsWhen(s.subs[p], t);
    OthersStay(s.subs[p], t);
    var s' := StepIn(s, t, p, onMiss);
    forall q | 0 <= q < |s'.subs| ensures SubOk(s', q) {
      assert SubOk(s, q);
    }
    forall u | u in s'.walks ensures ThreadOk(s', u) {
      assert ThreadOk(s, u);
      SameWalksOk(s, s', s.walks[u]);
      SameWalksOk(s, s', onMiss);
      SameWalksOk(s, s', Out(true));
    }
  }

  lemma SameWalksOk<T>(s: State<T>, s': State<T>, w: Walk)
    requires |s.subs| == |s'.subs|
    ensures WalkOk(s, w) ==> WalkOk(s', w)
    ensures w.Out? ==> WalkOk(s', w)
  {
  }

  /** A step of the walk itself. */
  lemma WalkKeepsInv<T>(s: State<T>, t: Tid, w: Walk)
    requires Inv(s) && t in s.walks && Visiting(s.walks[t]).None? && WalkOk(s, w)
    ensures Inv(s.(walks := s.walks[t := w]))
  {
    hide Sub.Inv, Sub.Balanced;
    var s' := s.(walks := s.walks[t := w]);
    forall q | 0 <= q < |s'.subs| ensures SubOk(s', q) {
      assert SubOk(s, q);
    }
    forall u | u in s'.walks ensures ThreadOk(s', u) {
      assert ThreadOk(s, u);
    }
  }

  lemma CallKeepsInv<T>(s: State<T>, t: Tid)
    requires Inv(s) && CanCall(s, t)
    ensures Inv(StepCall(s, t))
  {
    hide Inv;
    match s.walks[t]
    case First(best) => StepInKeepsInv(s, t, best, Again(best));
    case Rest(left, best) => StepInKeepsInv(s, t, left - 1, Others(left - 1, best));
    case _ => WalkKeepsInv(s, t, StepCall(s, t).walks[t]);
  }

  lemma EnqueueKeepsInv<T>(s: State<T>, p: nat, batch: seq<T>)
    requires Inv(s) && p < |s.subs|
    ensures Inv(Step(s, Enqueue(p, batch)))
  {
    assert SubOk(s, p);
    Sub.StepKeepsInv(s.subs[p], Sub.Enqueue(batch));
    Sub.StepBalanced(s.subs[p], Sub.Enqueue(batch));
    var s' := Step(s, Enqueue(p, batch));
    hide Sub.Inv, Sub.Balanced;
    forall q | 0 <= q < |s'.subs| ensures SubOk(s', q) {
      assert SubOk(s, q);
    }
    forall u | u in s'.walks ensures ThreadOk(s', u) {
      assert ThreadOk(s, u);
    }
  }

  lemma AddKeepsInv<T>(s: State<T>)
    requires Inv(s)
    ensures Inv(Step(s, AddProducer))
  {
    Sub.InitInv<T>(s.walks.Keys);
    Sub.AllIdleNothingInFlight(Sub.Init<T>(s.walks.Keys).pc);
    hide Sub.Inv;
    var s' := Step(s, AddProducer);
    forall q | 0 <= q < |s'.subs| ensures SubOk(s', q) {
      assert q < |s.subs| ==> SubOk(s, q);
    }
    forall u | u in s'.walks ensures ThreadOk(s', u) {
      assert ThreadOk(s, u);
    }
  }

  lemma StepKeepsInv<T>(s: State<T>, a: Action<T>)
    requires Inv(s) && Enabled(s, a)
    ensures Inv(Step(s, a))
  {
    hide Inv;
    match a
    case Enqueue(p, batch) => EnqueueKeepsInv(s, p, batch);
    case AddProducer => AddKeepsInv(s);
    case Call(t) => CallKeepsInv(s, t);
  }

  // ---------------------------------------------------------------- whole runs

  function Init<T>(tids: set<Tid>): State<T> { State([], map t | t in tids :: Out(true)) }

  lemma InitInv<T>(tids: set<Tid>)
    ensures Inv(Init<T>(tids))
  {
  }

  /** Any interleaving; an action that is not possible in its state is skipped. */
  ghost function Run<T>(s: State<T>, schedule: seq<Action<T>>): (s': State<T>)
    requires Inv(s)
    ensures Inv(s')
    decreases |schedule|
  {
    if schedule == [] then s
    else if Enabled(s, schedule[0]) then
      StepKeepsInv(s, schedule[0]);
      Run(Step(s, schedule[0]), schedule[1..])
    else
      Run(s, schedule[1..])
  }

  // ---------------------------------------------------------------- what a failing call means

  predicate NobodyInside<T>(s: State<T>) { forall t :: t in s.walks ==> s.walks[t].Out? }

  /** The next operation of t ends its call with nothing. */
  predicate Fails<T>(s: State<T>, t: Tid) { CanCall(s, t) && StepCall(s, t).walks[t] == Out(false) }

  predicate Empty<T>(s: State<T>) { forall p :: 0 <= p < |s.subs| ==> s.subs[p].head == Sub.Tail(s.subs[p]) }

  /** Nothing of producer p's elements at s0 is left but what is claimed or is going to be. */
  predicate Spoken<T>(s0: State<T>, s: State<T>, p: nat)
    requires p < |s0.subs| && p < |s.subs|
  {
    Sub.Enough(s0.subs[p]) <= s.subs[p].optimistic
  }

  /** What a thread knows of the producers it has passed, if its call began at s0 or later. */
  predicate WalkSince<T>(s0: State<T>, s: State<T>, w: Walk)
    requires |s.subs| == |s0.subs| && WalkOk(s, w)
  {
    match w
    case LoadTail(left, nonEmpty, _, _) => nonEmpty == 0 ==> SpokenFrom(s0, s, left)
    case LoadHead(left, nonEmpty, _, _, tail) =>
      tail == Sub.Tail(s.subs[left - 1]) && (nonEmpty == 0 ==> SpokenFrom(s0, s, left))
    case Again(best) => Spoken(s0, s, best)
    case Rest(left, best) => Spoken(s0, s, best) && SpokenFrom(s0, s, left)
    case _ => true
  }

  predicate SpokenFrom<T>(s0: State<T>, s: State<T>, left: nat)
    requires |s.subs| == |s0.subs|
  {
    forall p :: left <= p < |s.subs| ==> Spoken(s0, s, p)
  }

  /** Since s0, when nobody was inside, nothing has been enqueued. */
  ghost predicate Since<T>(s0: State<T>, s: State<T>) {
    && |s.subs| == |s0.subs|
    && (forall p :: 0 <= p < |s.subs| ==> Sub.Since(s0.subs[p], s.subs[p]))
    && (forall t :: t in s.walks ==> WalkOk(s, s.walks[t]) && WalkSince(s0, s, s.walks[t]))
  }

  lemma NobodyInSub<T>(s: State<T>, p: nat)
    requires Inv(s) && NobodyInside(s) && p < |s.subs|
    ensures Sub.Inv(s.subs[p]) && Sub.Balanced(s.subs[p]) && Sub.AllIdle(s.subs[p])
  {
    assert SubOk(s, p);
    forall t | t in s.subs[p].pc ensures s.subs[p].pc[t] == Sub.Idle {
      assert ThreadOk(s, t);
    }
  }

  lemma SinceItself<T>(s: State<T>)
    requires Inv(s) && NobodyInside(s)
    ensures Since(s, s)
  {
    forall p | 0 <= p < |s.subs| ensures Sub.Since(s.subs[p], s.subs[p]) {
      NobodyInSub(s, p);
      Sub.SinceItself(s.subs[p]);
    }
  }

  /** What was known stays true: the optimistic counts only grow. */
  lemma WalkSinceStays<T>(s0: State<T>, s: State<T>, s': State<T>, w: Walk)
    requires |s.subs| == |s0.subs| == |s'.subs| && WalkOk(s, w) && WalkSince(s0, s, w)
    requires forall p :: 0 <= p < |s.subs| ==>
               s.subs[p].optimistic <= s'.subs[p].optimistic && s'.subs[p].items == s.subs[p].items
    ensures WalkOk(s', w) && WalkSince(s0, s', w)
  {
    assert forall p :: 0 <= p < |s.subs| && Spoken(s0, s, p) ==> Spoken(s0, s', p);
  }

  /** A sub-queue that is seen empty has no elements left. */
  lemma SeenEmpty<T>(s0: State<T>, s: State<T>, p: nat)
    requires Inv(s) && Since(s0, s) && p < |s.subs| && Sub.Tail(s.subs[p]) <= s.subs[p].head
    ensures Spoken(s0, s, p)
  {
    assert SubOk(s, p);
    hide Sub.Inv;
  }

  lemma StepInSince<T>(s0: State<T>, s: State<T>, t: Tid, p: nat, onMiss: Walk)
    requires Inv(s0) && NobodyInside(s0) && Inv(s) && Since(s0, s) && CanCall(s, t) && Visiting(s.walks[t]) == Some(p)
    requires p < |s.subs| && WalkOk(s, onMiss)
    requires Spoken(s0, s, p) ==> WalkSince(s0, s, onMiss)
    ensures Since(s0, StepIn(s, t, p, onMiss))
  {
    hide Sub.Inv, Sub.Since, Sub.StepConsumer, Sub.Misses, Sub.PcOk, Inv, WalkSince, WalkOk;
    SubStepSince(s0, s, t, p);
    var s' := StepIn(s, t, p, onMiss);
    forall u | u in s'.walks ensures WalkOk(s', s'.walks[u]) && WalkSince(s0, s', s'.walks[u]) {
      OutKnowsNothing(s0, s');
      if s'.walks[u] != Out(true) {
        WalkSinceStays(s0, s, s', s'.walks[u]);
      }
    }
  }

  lemma SubStepSince<T>(s0: State<T>, s: State<T>, t: Tid, p: nat)
    requires Inv(s0) && NobodyInside(s0) && Inv(s) && Since(s0, s) && t in s.walks && p < |s.subs|
    ensures t in s.subs[p].pc && Sub.PcOk(s.subs[p], t, s.subs[p].pc[t])
    ensures var sub := Sub.StepConsumer(s.subs[p], t, 1);
            && Sub.Since(s0.subs[p], sub) && s.subs[p].optimistic <= sub.optimistic && sub.items == s.subs[p].items
            && (Sub.Misses(s.subs[p], t) ==> Spoken(s0, s, p))
  {
    hide Sub.Inv, Sub.Since, Sub.StepConsumer, Sub.Misses, Sub.PcOk, Sub.Balanced, Sub.AllIdle, WalkSince, WalkOk;
    NobodyInSub(s0, p);
    SubStepOk(s, t, p);
    assert SubOk(s, p);
    Sub.SinceStep(s0.subs[p], s.subs[p], t, 1);
    Sub.OptimisticGrows(s.subs[p], Sub.Consume(t, 1));
    OthersStay(s.subs[p], t);
    if Sub.Misses(s.subs[p], t) {
      Sub.MissesBeyond(s0.subs[p], s.subs[p], t);
    }
    assert Sub.Step(s.subs[p], Sub.Consume(t, 1)) == Sub.StepConsumer(s.subs[p], t, 1);
  }

  lemma OutKnowsNothing<T>(s0: State<T>, s: State<T>)
    requires |s.subs| == |s0.subs|
    ensures WalkOk(s, Out(true)) && WalkSince(s0, s, Out(true))
  {
  }

  lemma Known<T>(s0: State<T>, s: State<T>, t: Tid)
    requires Since(s0, s) && t in s.walks
    ensures |s.subs| == |s0.subs| && WalkOk(s, s.walks[t]) && WalkSince(s0, s, s.walks[t])
  {
  }

  lemma CallSince<T>(s0: State<T>, s: State<T>, t: Tid)
    requires Inv(s0) && NobodyInside(s0) && Inv(s) && Since(s0, s) && CanCall(s, t)
    ensures Since(s0, StepCall(s, t))
  {
    hide Inv, Since, Sub.StepConsumer, Sub.Misses, Sub.PcOk;
    Known(s0, s, t);
    match s.walks[t]
    case First(best) => StepInSince(s0, s, t, best, Again(best));
    case Rest(left, best) => StepInSince(s0, s, t, left - 1, Others(left - 1, best));
    case LoadHead(left, _, _, _, _) =>
      if Sub.Tail(s.subs[left - 1]) <= s.subs[left - 1].head { SeenEmpty(s0, s, left - 1); }
      WalkStepSince(s0, s, t, StepCall(s, t).walks[t]);
    case _ => WalkStepSince(s0, s, t, StepCall(s, t).walks[t]);
  }

  lemma WalkStepSince<T>(s0: State<T>, s: State<T>, t: Tid, w: Walk)
    requires Since(s0, s) && WalkOk(s, w) && WalkSince(s0, s, w)
    ensures Since(s0, s.(walks := s.walks[t := w]))
  {
    hide Sub.Since;
    var s' := s.(walks := s.walks[t := w]);
    forall u | u in s'.walks ensures WalkOk(s', s'.walks[u]) && WalkSince(s0, s', s'.walks[u]) {
      WalkSinceStays(s0, s, s', s'.walks[u]);
    }
  }

  /** A call begun since s0 that fails has found that nothing is left. */
  lemma FailedSince<T>(s0: State<T>, s: State<T>, t: Tid)
    requires Inv(s0) && NobodyInside(s0) && Inv(s) && Since(s0, s) && Fails(s, t)
    ensures |StepCall(s, t).subs| == |s0.subs| && SpokenFrom(s0, StepCall(s, t), 0)
  {
    hide Inv, Since, Sub.StepConsumer, Sub.Misses, Sub.PcOk;
    Known(s0, s, t);
    match s.walks[t]
    case Rest(left, best) =>
      SubStepSince(s0, s, t, left - 1);
      WalkSinceStays(s0, s, StepCall(s, t), s.walks[t]);
    case LoadHead(left, nonEmpty, _, _, _) =>
      SeenEmpty(s0, s, left - 1);
      assert left == 1 && nonEmpty == 0;
      var s' := StepCall(s, t);
      assert s'.subs == s.subs;
      forall p | 0 <= p < |s'.subs| ensures Spoken(s0, s', p) {
        assert Spoken(s0, s, p);
      }
      assert SpokenFrom(s0, s', 0);
    case _ =>
  }

  /** From then on nothing is left in any sub-queue, when nobody is inside. */
  lemma SpokenIsEmpty<T>(s0: State<T>, s: State<T>)
    requires Inv(s0) && NobodyInside(s0) && Inv(s) && NobodyInside(s) && Since(s0, s) && SpokenFrom(s0, s, 0)
    ensures Empty(s)
  {
    forall p | 0 <= p < |s.subs| ensures s.subs[p].head == Sub.Tail(s.subs[p]) {
      NobodyInSub(s0, p);
      NobodyInSub(s, p);
      assert Spoken(s0, s, p);
      Sub.AllTaken(s0.subs[p], s.subs[p]);
    }
  }

  predicate OnlyCalls<T>(schedule: seq<Action<T>>) { forall i :: 0 <= i < |schedule| ==> schedule[i].Call? }

  /** Nothing that has been spoken for comes back. */
  lemma SpokenStays<T>(s0: State<T>, s: State<T>, t: Tid)
    requires Inv(s0) && NobodyInside(s0) && Inv(s) && Since(s0, s) && CanCall(s, t) && SpokenFrom(s0, s, 0)
    ensures |StepCall(s, t).subs| == |s0.subs| && SpokenFrom(s0, StepCall(s, t), 0)
  {
    hide Inv, Since, Sub.StepConsumer, Sub.Misses, Sub.PcOk;
    Known(s0, s, t);
    if Visiting(s.walks[t]).Some? { SubStepSince(s0, s, t, Visiting(s.walks[t]).value); }
    var s' := StepCall(s, t);
    forall p | 0 <= p < |s'.subs| ensures Spoken(s0, s', p) {
      assert Spoken(s0, s, p);
    }
  }

  lemma {:induction false} SinceRun<T>(s0: State<T>, s: State<T>, schedule: seq<Action<T>>)
    requires Inv(s0) && NobodyInside(s0) && Inv(s) && Since(s0, s) && OnlyCalls(schedule)
    ensures Since(s0, Run(s, schedule))
    ensures SpokenFrom(s0, s, 0) ==> SpokenFrom(s0, Run(s, schedule), 0)
    decreases |schedule|
  {
    hide Inv, Since, NobodyInside, SpokenFrom, StepCall;
    SameSubs(s0, s);
    if schedule == [] {
    } else if Enabled(s, schedule[0]) {
      StepKeepsInv(s, schedule[0]);
      CallSince(s0, s, schedule[0].t);
      if SpokenFrom(s0, s, 0) { SpokenStays(s0, s, schedule[0].t); }
      SinceRun(s0, Step(s, schedule[0]), schedule[1..]);
    } else {
      SinceRun(s0, s, schedule[1..]);
    }
  }

  lemma SameSubs<T>(s0: State<T>, s: State<T>)
    requires Since(s0, s)
    ensures |s.subs| == |s0.subs|
  {
  }

  /** When nobody is inside and nothing is enqueued from then on, the first call that fails, in whatever interleaving,
      shows that every element of every sub-queue is claimed or is going to be by the calls under way: whenever
      nobody is inside again, all sub-queues are empty. */
  lemma FailsOnlyWhenTaken<T>(s0: State<T>, before: seq<Action<T>>, t: Tid, after: seq<Action<T>>)
    requires Inv(s0) && NobodyInside(s0) && OnlyCalls(before) && OnlyCalls(after) && Fails(Run(s0, before), t)
    ensures Inv(StepCall(Run(s0, before), t))
    ensures var s := Run(StepCall(Run(s0, before), t), after); NobodyInside(s) ==> Empty(s)
  {
    hide Inv, Since, NobodyInside, SpokenFrom, StepCall, CanCall;
    SinceItself(s0);
    SinceRun(s0, s0, before);
    var s1 := Run(s0, before);
    CallKeepsInv(s1, t);
    CallSince(s0, s1, t);
    FailedSince(s0, s1, t);
    var s2 := StepCall(s1, t);
    SinceRun(s0, s2, after);
    if NobodyInside(Run(s2, after)) {
      SpokenIsEmpty(s0, Run(s2, after));
    }
  }

  // ---------------------------------------------------------------- a call by itself

  /** The producer whose oldest element t's next operation claims. */
  function ClaimsFrom<T>(s: State<T>, t: Tid): Option<nat>
    requires CanCall(s, t)
  {
    match Visiting(s.walks[t])
    case Some(p) => if s.subs[p].pc[t].Claim? then Some(p) else None
    case None => None
  }

  /** All that an operation does to the elements. */
  lemma CallEffect<T>(s: State<T>, t: Tid)
    requires Inv(s) && CanCall(s, t)
    ensures var s' := StepCall(s, t);
            && s'.walks.Keys == s.walks.Keys && |s'.subs| == |s.subs|
            && (forall u :: u in s.walks && u != t ==> s'.walks[u] == s.walks[u])
            && (forall p :: 0 <= p < |s.subs| ==>
                  && s'.subs[p].items == s.subs[p].items
                  && s'.subs[p].head == s.subs[p].head + (if ClaimsFrom(s, t) == Some(p) then 1 else 0))
    ensures ClaimsFrom(s, t).Some? <==> StepCall(s, t).walks[t] == Out(true)
    ensures ClaimsFrom(s, t).Some? ==>
              ClaimsFrom(s, t).value < |s.subs| && var sub := s.subs[ClaimsFrom(s, t).value]; sub.head < Sub.Tail(sub)
  {
    hide Inv, Sub.StepConsumer, Sub.Misses, Sub.PcOk, Sub.Inv;
    if Visiting(s.walks[t]).Some? {
      var p := Visiting(s.walks[t]).value;
      HeadStep(s, t, p);
    }
  }

  lemma HeadStep<T>(s: State<T>, t: Tid, p: nat)
    requires Inv(s) && t in s.walks && p < |s.subs|
    ensures t in s.subs[p].pc && Sub.PcOk(s.subs[p], t, s.subs[p].pc[t])
    ensures var sub := Sub.StepConsumer(s.subs[p], t, 1);
            sub.items == s.subs[p].items && sub.head == s.subs[p].head + (if s.subs[p].pc[t].Claim? then 1 else 0)
    ensures s.subs[p].pc[t].Claim? ==> s.subs[p].head < Sub.Tail(s.subs[p])
  {
    SubStepOk(s, t, p);
    assert SubOk(s, p);
    if s.subs[p].pc[t].Claim? { Sub.ClaimYieldsElements(s.subs[p], t); }
    hide Sub.Inv, Sub.Balanced;
  }

  function Stage(w: Walk): nat {
    match w
    case Out(_) => 0
    case Rest(_, _) => 1
    case Again(_) => 2
    case First(_) => 3
    case _ => 4
  }

  function Left(w: Walk): nat {
    match w
    case LoadTail(left, _, _, _) => left
    case LoadHead(left, _, _, _, _) => left
    case Rest(left, _) => left
    case _ => 0
  }

  /** How far the visit of the present producer has still to go. */
  function Visit<T>(s: State<T>, t: Tid): nat
    requires CanCall(s, t)
  {
    match Visiting(s.walks[t])
    case Some(p) => if s.subs[p].pc[t].Idle? then 7 else Sub.Rank(s.subs[p].pc[t])
    case None => if s.walks[t].LoadTail? then 1 else 0
  }

  lemma CallGoesOn<T>(s: State<T>, t: Tid)
    requires Inv(s) && t in s.walks && !s.walks[t].Out?
    ensures CanCall(s, t) && Inv(StepCall(s, t)) && CanCall(StepCall(s, t), t)
    ensures var s' := StepCall(s, t);
            || Stage(s'.walks[t]) < Stage(s.walks[t])
            || (Stage(s'.walks[t]) == Stage(s.walks[t]) && Left(s'.walks[t]) < Left(s.walks[t]))
            || (Stage(s'.walks[t]) == Stage(s.walks[t]) && Left(s'.walks[t]) == Left(s.walks[t])
                && Visit(s', t) < Visit(s, t))
  {
    CallCan(s, t);
    CallKeepsInv(s, t);
    CallCan(StepCall(s, t), t);
    hide Inv, Sub.PcOk, Sub.Misses, Sub.StepConsumer;
    if Visiting(s.walks[t]).Some? {
      VisitGoesOn(s, t, Visiting(s.walks[t]).value);
    }
  }

  lemma VisitGoesOn<T>(s: State<T>, t: Tid, p: nat)
    requires Inv(s) && CanCall(s, t) && Visiting(s.walks[t]) == Some(p)
    ensures var pc, pc' := s.subs[p].pc[t], Sub.StepConsumer(s.subs[p], t, 1).pc[t];
            !pc.Claim? && !Sub.Misses(s.subs[p], t) ==>
              !pc'.Idle? && Sub.Rank(pc') < (if pc.Idle? then 7 else Sub.Rank(pc))
  {
    SubStepOk(s, t, p);
    EndsWhen(s.subs[p], t);
    hide Inv, Sub.PcOk;
  }

  /** Let thread t alone run its call to the end. */
  ghost function Finish<T>(s: State<T>, t: Tid): (s': State<T>)
    requires Inv(s) && t in s.walks
    ensures Inv(s') && t in s'.walks && s'.walks[t].Out?
    decreases Stage(s.walks[t]), Left(s.walks[t]), if CanCall(s, t) then Visit(s, t) else 0
  {
    if s.walks[t].Out? then s
    else
      CallGoesOn(s, t);
      Finish(StepCall(s, t), t)
  }

  /** Only t is inside, and since s0 nothing has been claimed. */
  ghost predicate Alone<T>(s0: State<T>, s: State<T>, t: Tid) {
    && Since(s0, s) && t in s.walks && !s.walks[t].Out?
    && (forall u :: u in s.walks && u != t ==> s.walks[u].Out?)
    && (forall p :: 0 <= p < |s.subs| ==> s.subs[p].head == s0.subs[p].head && s.subs[p].items == s0.subs[p].items)
  }

  /** From s0 to s just one element has been taken, the oldest one of some producer. */
  ghost predicate TookOne<T>(s0: State<T>, s: State<T>, p: nat) {
    && |s.subs| == |s0.subs| && p < |s.subs|
    && s0.subs[p].head < Sub.Tail(s0.subs[p])
    && forall q :: 0 <= q < |s.subs| ==>
         s.subs[q].items == s0.subs[q].items && s.subs[q].head == s0.subs[q].head + (if q == p then 1 else 0)
  }

  ghost predicate SameElements<T>(s0: State<T>, s: State<T>) {
    |s.subs| == |s0.subs| && forall p :: 0 <= p < |s.subs| ==>
        s.subs[p].items == s0.subs[p].items && s.subs[p].head == s0.subs[p].head
  }

  lemma {:induction false} FinishAlone<T>(s0: State<T>, s: State<T>, t: Tid)
    requires Inv(s0) && NobodyInside(s0) && Inv(s) && Alone(s0, s, t)
    ensures var r := Finish(s, t);
            && NobodyInside(r)
            && (r.walks[t].found ==> exists p :: TookOne(s0, r, p))
            && (!r.walks[t].found ==> SameElements(s0, r) && Empty(s0))
    decreases Stage(s.walks[t]), Left(s.walks[t]), if CanCall(s, t) then Visit(s, t) else 0
  {
    hide Inv, Sub.PcOk, Sub.Misses, StepCall, CanCall, Since, Finish, Stage, Left, Visit;
    CallGoesOn(s, t);
    CallEffect(s, t);
    CallSince(s0, s, t);
    SameSubs(s0, s);
    FinishStep(s, t);
    var s' := StepCall(s, t);
    if !s'.walks[t].Out? {
      FinishAlone(s0, s', t);
    } else if s'.walks[t].found {
      var p := ClaimsFrom(s, t).value;
      assert TookOne(s0, s', p);
    } else {
      FailedSince(s0, s, t);
      SpokenIsEmpty(s0, s');
    }
  }

  lemma FinishStep<T>(s: State<T>, t: Tid)
    requires Inv(s) && t in s.walks && !s.walks[t].Out?
    ensures CanCall(s, t) && Inv(StepCall(s, t)) && t in StepCall(s, t).walks
            && Finish(s, t) == Finish(StepCall(s, t), t)
    ensures StepCall(s, t).walks[t].Out? ==> Finish(s, t) == StepCall(s, t)
  {
    CallGoesOn(s, t);
    hide Inv, StepCall;
  }

  /** A call made when nobody is inside finds an element if and only if there is one in any sub-queue. It then takes the
      oldest one of some producer; otherwise nothing changes. */
  lemma AloneExact<T>(s: State<T>, t: Tid)
    requires Inv(s) && NobodyInside(s) && t in s.walks
    ensures CanCall(s, t) && Inv(StepCall(s, t)) && t in StepCall(s, t).walks
    ensures var r := Finish(StepCall(s, t), t);
            && NobodyInside(r)
            && if Empty(s) then r.walks[t] == Out(false) && SameElements(s, r)
               else r.walks[t] == Out(true) && exists p :: TookOne(s, r, p)
  {
    hide Inv, StepCall, CanCall, Since, Finish;
    CallCan(s, t);
    CallKeepsInv(s, t);
    CallEffect(s, t);
    SinceItself(s);
    CallSince(s, s, t);
    var s1 := StepCall(s, t);
    if s1.walks[t].Out? {
      FinishedAlready(s1, t);
      NothingThere(s, t);
    } else {
      FinishAlone(s, s1, t);
    }
  }

  lemma FinishedAlready<T>(s: State<T>, t: Tid)
    requires Inv(s) && t in s.walks && s.walks[t].Out?
    ensures Finish(s, t) == s
  {
  }

  /** A new call that ends at once has found no producers. */
  lemma NothingThere<T>(s: State<T>, t: Tid)
    requires CanCall(s, t) && s.walks[t].Out? && StepCall(s, t).walks[t].Out?
    ensures s.subs == [] && StepCall(s, t) == s.(walks := s.walks[t := Out(false)])
  {
  }

  // ---------------------------------------------------------------- which producer is tried first

  function Size<T>(s: State<T>, p: nat): nat
    requires p < |s.subs|
  {
    if s.subs[p].head < Sub.Tail(s.subs[p]) then Sub.Tail(s.subs[p]) - s.subs[p].head else 0
  }

  /** How many of the producers from p on, which the walk meets first, are not empty. */
  function NonEmptyFrom<T>(s: State<T>, p: nat): nat
    requires p <= |s.subs|
    decreases |s.subs| - p
  {
    if p == |s.subs| then 0 else NonEmptyFrom(s, p + 1) + (if Size(s, p) > 0 then 1 else 0)
  }

  /** Producer p is one of the first three that are not empty. */
  predicate AmongFirst<T>(s: State<T>, p: nat)
    requires p < |s.subs|
  {
    Size(s, p) > 0 && NonEmptyFrom(s, p + 1) < 3
  }

  /** best is the largest of the producers from `left` on, all of which count. */
  ghost predicate BestSoFar<T>(s: State<T>, left: nat, nonEmpty: nat, best: nat, bestSize: nat)
    requires left <= |s.subs|
  {
    && nonEmpty == NonEmptyFrom(s, left)
    && (forall p :: left <= p < |s.subs| ==> Size(s, p) <= bestSize && (Size(s, p) > 0 ==> AmongFirst(s, p)))
    && if nonEmpty == 0 then bestSize == 0 else left <= best < |s.subs| && Size(s, best) == bestSize > 0
  }

  /** The largest of the first three producers that are not empty. */
  ghost predicate IsBest<T>(s: State<T>, best: nat) {
    best < |s.subs| && AmongFirst(s, best) && forall p :: 0 <= p < |s.subs| && AmongFirst(s, p) ==>
        Size(s, p) <= Size(s, best)
  }

  lemma {:induction false} NonEmptyMonotone<T>(s: State<T>, p: nat, q: nat)
    requires p <= q <= |s.subs|
    ensures NonEmptyFrom(s, q) <= NonEmptyFrom(s, p)
    decreases q - p
  {
    if p < q { NonEmptyMonotone(s, p + 1, q); }
  }

  /** One more producer is scored. */
  lemma ScoredBest<T>(s: State<T>, left: nat, nonEmpty: nat, best: nat, bestSize: nat)
    requires 0 < left <= |s.subs| && BestSoFar(s, left, nonEmpty, best, bestSize) && nonEmpty < 3
    ensures var size := Size(s, left - 1);
            var nonEmpty' := if size > 0 then nonEmpty + 1 else nonEmpty;
            var best', bestSize' := if size > bestSize then left - 1 else best, if size > bestSize then size
              else bestSize;
            && BestSoFar(s, left - 1, nonEmpty', best', bestSize')
            && Score(left, nonEmpty, best, bestSize, s.subs[left - 1].head, Sub.Tail(s.subs[left - 1]))
               == Scored(left - 1, nonEmpty', best', bestSize')
  {
  }

  /** Where the scoring loop ends. */
  lemma BestAtEnd<T>(s: State<T>, left: nat, nonEmpty: nat, best: nat, bestSize: nat)
    requires left <= |s.subs| && BestSoFar(s, left, nonEmpty, best, bestSize) && (left == 0 || nonEmpty >= 3)
    ensures nonEmpty > 0 ==> IsBest(s, best)
    ensures nonEmpty == 0 ==> forall p :: 0 <= p < |s.subs| ==> Size(s, p) == 0
  {
    forall p | 0 <= p < left ensures left > 0 ==> !AmongFirst(s, p) {
      NonEmptyMonotone(s, p + 1, left);
    }
  }

  /** Let thread t alone go on until it has scored the producers. */
  ghost function FinishScoring<T>(s: State<T>, t: Tid): (s': State<T>)
    requires Inv(s) && t in s.walks
    ensures Inv(s') && t in s'.walks
    decreases Stage(s.walks[t]), Left(s.walks[t]), if CanCall(s, t) then Visit(s, t) else 0
  {
    if s.walks[t].LoadTail? || s.walks[t].LoadHead? then
      CallGoesOn(s, t);
      FinishScoring(StepCall(s, t), t)
    else s
  }

  lemma {:induction false} ScoringFinds<T>(s: State<T>, t: Tid)
    requires Inv(s) && t in s.walks && s.walks[t].LoadTail?
    requires var LoadTail(left, nonEmpty, best, bestSize) := s.walks[t];
             left <= |s.subs| && BestSoFar(s, left, nonEmpty, best, bestSize) && nonEmpty < 3
    ensures var r := FinishScoring(s, t);
            && r.subs == s.subs
            && ((exists p :: 0 <= p < |s.subs| && Size(s, p) > 0) ==> r.walks[t].First? && IsBest(s, r.walks[t].best))
            && ((forall p :: 0 <= p < |s.subs| ==> Size(s, p) == 0) ==> r.walks[t] == Out(false))
    decreases s.walks[t].left
  {
    hide Inv, FinishScoring, BestSoFar, IsBest, Size, Sub.PcOk;
    var LoadTail(left, nonEmpty, best, bestSize) := s.walks[t];
    ScoringStep(s, t);
    var s1 := StepCall(s, t);
    ScoringStep(s1, t);
    var s2 := StepCall(s1, t);
    ScoredBest(s, left, nonEmpty, best, bestSize);
    var size := Size(s, left - 1);
    var nonEmpty' := if size > 0 then nonEmpty + 1 else nonEmpty;
    var best', bestSize' := if size > bestSize then left - 1 else best, if size > bestSize then size else bestSize;
    assert s2.walks[t] == Scored(left - 1, nonEmpty', best', bestSize');
    SameBest(s, s2, left - 1, nonEmpty', best', bestSize');
    if s2.walks[t].LoadTail? {
      ScoringFinds(s2, t);
    } else {
      BestAtEnd(s, left - 1, nonEmpty', best', bestSize');
      ScoringDone(s2, t);
      SomeOrNone(s, left - 1, nonEmpty', best', bestSize');
    }
  }

  lemma SomeOrNone<T>(s: State<T>, left: nat, nonEmpty: nat, best: nat, bestSize: nat)
    requires left <= |s.subs| && BestSoFar(s, left, nonEmpty, best, bestSize)
    ensures nonEmpty > 0 ==> best < |s.subs| && Size(s, best) > 0
  {
  }

  lemma SameBest<T>(s: State<T>, s': State<T>, left: nat, nonEmpty: nat, best: nat, bestSize: nat)
    requires s'.subs == s.subs && left <= |s.subs|
    ensures forall p :: 0 <= p < |s.subs| ==> Size(s', p) == Size(s, p)
    ensures BestSoFar(s, left, nonEmpty, best, bestSize) ==> BestSoFar(s', left, nonEmpty, best, bestSize)
    ensures forall b :: IsBest(s', b) ==> IsBest(s, b)
  {
    forall p | 0 <= p <= |s.subs| ensures NonEmptyFrom(s', p) == NonEmptyFrom(s, p) { SameCount(s, s', p); }
  }

  lemma {:induction false} SameCount<T>(s: State<T>, s': State<T>, p: nat)
    requires s'.subs == s.subs && p <= |s.subs|
    ensures NonEmptyFrom(s', p) == NonEmptyFrom(s, p)
    decreases |s.subs| - p
  {
    if p < |s.subs| { SameCount(s, s', p + 1); }
  }

  lemma ScoringStep<T>(s: State<T>, t: Tid)
    requires Inv(s) && t in s.walks && (s.walks[t].LoadTail? || s.walks[t].LoadHead?)
    ensures CanCall(s, t) && Inv(StepCall(s, t)) && t in StepCall(s, t).walks && StepCall(s, t).subs == s.subs
    ensures FinishScoring(s, t) == FinishScoring(StepCall(s, t), t)
  {
    CallGoesOn(s, t);
    hide Inv, Sub.PcOk;
  }

  lemma ScoringDone<T>(s: State<T>, t: Tid)
    requires Inv(s) && t in s.walks && !s.walks[t].LoadTail? && !s.walks[t].LoadHead?
    ensures FinishScoring(s, t) == s
  {
  }

  /** While no other thread interferes, a call first tries the largest of the first three producers that are not empty,
      and gives up at once only if all are empty. */
  lemma TriesBestFirst<T>(s: State<T>, t: Tid)
    requires Inv(s) && t in s.walks && s.walks[t].Out?
    ensures CanCall(s, t) && Inv(StepCall(s, t)) && t in StepCall(s, t).walks
    ensures var r := FinishScoring(StepCall(s, t), t);
            && r.subs == s.subs
            && ((exists p :: 0 <= p < |s.subs| && Size(s, p) > 0) ==> r.walks[t].First? && IsBest(s, r.walks[t].best))
            && ((forall p :: 0 <= p < |s.subs| ==> Size(s, p) == 0) ==> r.walks[t] == Out(false))
  {
    hide Inv, FinishScoring, IsBest;
    CallCan(s, t);
    CallKeepsInv(s, t);
    var s1 := StepCall(s, t);
    assert BestSoFar(s, |s.subs|, 0, 0, 0);
    SameBest(s, s1, |s.subs|, 0, 0, 0);
    if |s.subs| > 0 {
      ScoringFinds(s1, t);
    } else {
      ScoringDone(s1, t);
    }
  }
}
