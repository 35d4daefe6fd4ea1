/** The shutdown of the bundle layer (comms.cc:102-126): whether it leaves bundles in the submit queue, and that it can
    always complete. Writers are told to stop one after the other; each leaves when a try_dequeue has found nothing and
    it then sees its flag. */
module CommsShutdown {
  import opened CommsRun
  import opened Options
  import Sub = DequeueProtocol
  import Queue = TryDequeue

  // ---------------------------------------------------------------- what the shutdown does not change

  /** Nobody can submit or flush once the shutdown has begun; a call under way then can still finish. */
  lemma GateHolds(s: State, a: Action)
    requires Enabled(s, a) && s.shuttingDown
    ensures Step(s, a).shuttingDown && Step(s, a).calling <= s.calling
    ensures s.calling == {} ==> Step(s, a).given == s.given && Step(s, a).deposited == s.deposited
  {
    hide DepositStep, TakeStep, Queue.StepCall, Queue.CanCall, CanDequeue;
    match a
    case Submit(a, packet, ok) =>
      var key := Key(a, packet.dstOrRc);
      DepositOnly(AddStep(s, key, packet), key, ok);
    case Flush(a, dst, ok) => DepositOnly(s, Key(a, dst), ok);
    case Dequeue(w, ok) => DequeueGives(s, w, ok);
    case _ =>
  }

  lemma DequeueGives(s: State, w: Wid, ok: bool)
    requires w < |s.writers| && CanDequeue(s, w)
    ensures var s' := DequeueStep(s, w, ok);
            s'.given == s.given && s'.deposited == s.deposited && s'.shuttingDown == s.shuttingDown
              && s'.calling == s.calling
  {
    hide Queue.StepCall, Queue.CanCall, TakeStep, FirstOf;
    match Queue.ClaimsFrom(s.queue, w)
    case Some(p) => TakeGives(s, w, FirstOf(s.submit, s.producers[p]), ok);
    case None =>
  }

  lemma TakeGives(s: State, w: Wid, i: nat, ok: bool)
    requires w < |s.writers| && i < |s.submit|
    ensures var s' := TakeStep(s, w, i, ok);
            s'.given == s.given && s'.deposited == s.deposited && s'.shuttingDown == s.shuttingDown
              && s'.calling == s.calling
  {
  }

  /** When all writers have exited, every packet is in a bundle never flushed, in the submit queue, or with its
      accessor. */
  lemma NothingAtWriters(s: State, id: Id)
    requires Inv(s) && AllExited(s) && id < |s.place|
    ensures s.submit == [] ==> s.place[id].InBundle? || s.place[id].Reapable? || s.place[id].Reaped?
    ensures !s.place[id].AtWriter?
  {
    assert PlaceExists(s, s.place[id]);
    hide QueueOk;
  }

  /** The shutdown is under way and no call to submit_n or submit_flush is. */
  ghost predicate Closing(s: State) { Inv(s) && s.shuttingDown && s.clean && s.calling == {} }

  /** What a step can do then. */
  lemma ClosingStep(s: State, a: Action)
    requires Closing(s) && Enabled(s, a)
    ensures Closing(Step(s, a)) && |Step(s, a).writers| == |s.writers|
    ensures match a {
              case Dequeue(w, ok) => true
              case Return(w) => Step(s, a).queue == s.queue && Step(s, a).submit == s.submit
                && Step(s, a).stopping == s.stopping
              case Check(w) =>
                Step(s, a) == s.(writers := s.writers[w := if w < s.stopping then Exited else Looking])
              case Stop => Step(s, a) == s.(stopping := s.stopping + 1)
              case _ =>
                && Step(s, a).queue == s.queue && Step(s, a).submit == s.submit
                && Step(s, a).writers == s.writers && Step(s, a).stopping == s.stopping
            }
  {
    hide Inv, DequeueStep, CanDequeue, ReturnStep, ReapStep;
    StepKeepsInv(s, a);
    match a
    case Dequeue(w, ok) => DequeueOnly(s, w, ok);
    case Return(w) => ReturnOnly(s, w);
    case Reap(a, ids) => ReapOnly(s, a, ids);
    case _ =>
  }

  /** The submit queue is empty just when all its sub-queues are. */
  lemma EmptyQueue(s: State)
    requires Inv(s)
    ensures s.submit == [] <==> Queue.Empty(s.queue)
  {
    hide PlacesOk, ShutdownOk, OrderOk, Queue.Inv;
    if s.submit == [] {
      forall p | 0 <= p < |s.queue.subs| ensures s.queue.subs[p].head == Sub.Tail(s.queue.subs[p]) {
        assert SubQueueOk(s, p);
        HeadWithin(s, p);
      }
    } else {
      var a := s.submit[0].owner;
      assert a in s.producers;
      var p :| 0 <= p < |s.producers| && s.producers[p] == a;
      assert SubQueueOk(s, p);
      assert Unclaimed(s.queue.subs[p]) != [];
    }
  }

  lemma NobodyDequeues(s: State)
    requires Inv(s) && forall w :: 0 <= w < |s.writers| ==> !s.writers[w].Dequeuing?
    ensures Queue.Inv(s.queue) && Queue.NobodyInside(s.queue)
  {
    hide PlacesOk, ShutdownOk, OrderOk, Queue.Inv;
  }

  lemma WriterInside(s: State, w: Wid)
    requires Inv(s) && w < |s.writers|
    ensures Queue.Inv(s.queue) && w in s.queue.walks && Queue.CanCall(s.queue, w) && CanDequeue(s, w)
    ensures s.writers[w].Dequeuing? <==> !s.queue.walks[w].Out?
    ensures forall v :: v in s.queue.walks ==> 0 <= v < |s.writers|
  {
    hide PlacesOk, ShutdownOk, OrderOk, Queue.Inv, CanDequeue, Queue.CanCall;
    ClaimsOldest(s, w);
    Queue.CallCan(s.queue, w);
  }

  // ---------------------------------------------------------------- when the shutdown begins

  /** Since q0, when no writer was in try_dequeue, nothing has been deposited; and if writer v has failed to find a
      bundle, all that were there are claimed or going to be. */
  ghost predicate Looks(q0: Queue.State<Load>, v: Wid, s: State) {
    && Closing(s) && v < |s.writers| && Queue.Since(q0, s.queue) && |s.queue.subs| == |q0.subs|
    && (s.writers[v].Missed? || s.writers[v].Exited? ==> Queue.SpokenFrom(q0, s.queue, 0))
  }

  lemma LooksStep(q0: Queue.State<Load>, v: Wid, s: State, a: Action)
    requires Queue.Inv(q0) && Queue.NobodyInside(q0) && Looks(q0, v, s) && Enabled(s, a)
    ensures Looks(q0, v, Step(s, a))
  {
    hide Inv, ReturnStep, ReapStep, DequeueStep, CanDequeue, Queue.Since, Queue.SpokenFrom, Queue.NobodyInside;
    ClosingStep(s, a);
    match a
    case Dequeue(w, ok) => LooksDequeue(q0, v, s, w, ok);
    case Return(w) => ReturnOnly(s, w);
    case _ =>
  }

  lemma LooksDequeue(q0: Queue.State<Load>, v: Wid, s: State, w: Wid, ok: bool)
    requires Queue.Inv(q0) && Queue.NobodyInside(q0) && Looks(q0, v, s) && Enabled(s, Dequeue(w, ok))
    requires Closing(DequeueStep(s, w, ok))
    ensures Looks(q0, v, DequeueStep(s, w, ok))
  {
    hide Inv, Closing, DequeueStep, CanDequeue, Queue.Inv, Queue.StepCall, Queue.CanCall, Queue.Since, Queue.SpokenFrom,
      Queue.NobodyInside;
    WriterInside(s, w) by { Opened(s); }
    DequeueOnly(s, w, ok);
    Queue.CallEffect(s.queue, w);
    Queue.CallSince(q0, s.queue, w);
    if Queue.SpokenFrom(q0, s.queue, 0) {
      Queue.SpokenStays(q0, s.queue, w);
    }
    if w == v && DequeueStep(s, w, ok).writers[v].Missed? {
      Queue.FailedSince(q0, s.queue, w);
    }
  }

  lemma Opened(s: State)
    requires Closing(s)
    ensures Inv(s)
  {
  }

  lemma {:induction false} LooksRun(q0: Queue.State<Load>, v: Wid, s: State, schedule: seq<Action>)
    requires Queue.Inv(q0) && Queue.NobodyInside(q0) && Inv(s) && Looks(q0, v, s)
    ensures Looks(q0, v, Run(s, schedule))
    decreases |schedule|
  {
    hide Inv, Looks, Step, Enabled, Queue.Inv, Queue.NobodyInside;
    if schedule != [] {
      if Enabled(s, schedule[0]) {
        StepKeepsInv(s, schedule[0]);
        LooksStep(q0, v, s, schedule[0]);
        LooksRun(q0, v, Step(s, schedule[0]), schedule[1..]);
      } else {
        LooksRun(q0, v, s, schedule[1..]);
      }
    }
  }

  /** Since some moment at which no writer was in try_dequeue, nothing has been deposited. */
  ghost predicate NothingHidden(s: State) { exists q0 :: HidesNothing(q0, s) }

  ghost predicate HidesNothing(q0: Queue.State<Load>, s: State) {
    Queue.Inv(q0) && Queue.NobodyInside(q0) && |s.queue.subs| == |q0.subs| && Queue.Since(q0, s.queue)
  }

  /** Such a moment is any at which no writer is in try_dequeue. */
  lemma NobodyHides(s: State)
    requires Inv(s) && forall w :: 0 <= w < |s.writers| ==> !s.writers[w].Dequeuing?
    ensures NothingHidden(s)
  {
    hide Inv, Queue.Inv, Queue.Since, Queue.NobodyInside;
    NobodyDequeues(s);
    Queue.SinceItself(s.queue);
    assert HidesNothing(s.queue, s);
  }

  /** It lasts until the next deposit, whatever the writers do. */
  lemma StaysUnhidden(s: State, a: Action)
    requires Inv(s) && s.calling == {} && NothingHidden(s) && Enabled(s, a)
    ensures NothingHidden(Step(s, a))
  {
    hide Inv, DequeueStep, CanDequeue, ReturnStep, ReapStep, Queue.Inv, Queue.Since, Queue.NobodyInside, Queue.StepCall,
      Queue.CanCall;
    var q0 :| HidesNothing(q0, s);
    match a {
      case Dequeue(w, ok) =>
        WriterInside(s, w);
        DequeueOnly(s, w, ok);
        Queue.CallSince(q0, s.queue, w);
        Queue.CallEffect(s.queue, w);
      case Return(w) => ReturnOnly(s, w);
      case Reap(a, ids) => ReapOnly(s, a, ids);
      case _ =>
    }
    assert HidesNothing(q0, Step(s, a));
  }

  /** Then a writer that has not failed to find what is there does not leave before everything is taken. */
  lemma LookedAndLeft(s: State, v: Wid, schedule: seq<Action>)
    requires Closing(s) && v < |s.writers| && !s.writers[v].Missed? && !s.writers[v].Exited? && NothingHidden(s)
    ensures AllExited(Run(s, schedule)) ==> Run(s, schedule).submit == []
  {
    hide Inv, Queue.Inv, Queue.Since, Queue.SpokenFrom, Queue.NobodyInside, Queue.Empty;
    var q0 :| HidesNothing(q0, s);
    LooksRun(q0, v, s, schedule);
    var r := Run(s, schedule);
    if AllExited(r) {
      assert r.writers[v].Exited?;
      NobodyDequeues(r);
      Queue.SpokenIsEmpty(q0, r.queue);
      EmptyQueue(r);
    }
  }

  /** If the queue is empty once the shutdown has begun, it stays empty. */
  lemma {:induction false} EmptyStaysEmpty(s: State, schedule: seq<Action>)
    requires Inv(s) && s.shuttingDown && s.clean && s.submit == []
    ensures Run(s, schedule).submit == []
    decreases |schedule|
  {
    hide PlacesOk, OrderOk, QueueOk, Step, Enabled;
    assert Closing(s);
    if schedule != [] {
      if Enabled(s, schedule[0]) {
        StepKeepsInv(s, schedule[0]);
        ClosingStep(s, schedule[0]);
        EmptyStep(s, schedule[0]);
        EmptyStaysEmpty(Step(s, schedule[0]), schedule[1..]);
      } else {
        EmptyStaysEmpty(s, schedule[1..]);
      }
    }
  }

  lemma EmptyStep(s: State, a: Action)
    requires Closing(s) && Enabled(s, a) && s.submit == []
    ensures Step(s, a).submit == []
  {
    hide Inv, DequeueStep, ReturnStep, ReapStep, Queue.StepCall, Queue.CanCall;
    ClosingStep(s, a);
    if a.Dequeue? {
      DequeueOnly(s, a.w, a.ok);
    }
  }

  lemma RunOne(s: State, schedule: seq<Action>)
    requires Inv(s) && schedule != [] && Enabled(s, schedule[0])
    ensures Inv(Step(s, schedule[0])) && Run(s, schedule) == Run(Step(s, schedule[0]), schedule[1..])
  {
    StepKeepsInv(s, schedule[0]);
  }

  lemma {:induction false} RunConcat(s: State, a: seq<Action>, b: seq<Action>)
    requires Inv(s)
    ensures Run(s, a + b) == Run(Run(s, a), b)
    decreases |a|
  {
    hide Inv, Step, Enabled;
    if a == [] {
      assert a + b == b;
    } else {
      assert (a + b)[1..] == a[1..] + b;
      if Enabled(s, a[0]) {
        StepKeepsInv(s, a[0]);
        RunConcat(Step(s, a[0]), a[1..], b);
      } else {
        RunConcat(s, a[1..], b);
      }
    }
  }

  /** Writers told to stop have left; the others have failed to find what is queued. */
  predicate AllMissed(s: State) {
    && s.shuttingDown && s.stopping <= |s.writers|
    && forall w :: 0 <= w < |s.writers| ==> if w < s.stopping then s.writers[w].Exited? else s.writers[w].Missed?
  }

  /** They all leave without looking again. */
  lemma {:induction false} AllLeave(s: State) returns (schedule: seq<Action>)
    requires Inv(s) && AllMissed(s)
    ensures var r := Run(s, schedule); AllExited(r) && r.submit == s.submit
    decreases |s.writers| - s.stopping
  {
    hide Inv;
    schedule := [];
    if s.stopping < |s.writers| {
      var w := s.stopping;
      StepKeepsInv(s, Stop);
      var s1 := Step(s, Stop);
      StepKeepsInv(s1, Check(w));
      var rest := AllLeave(Step(s1, Check(w)));
      schedule := [Stop, Check(w)] + rest;
      RunOne(s, schedule);
      assert schedule[1..] == [Check(w)] + rest;
      RunOne(s1, schedule[1..]);
      assert schedule[1..][1..] == rest;
    }
  }

  /** Every way in which all writers leave empties the submit queue. */
  ghost predicate AlwaysEmpties(s: State)
    requires Inv(s)
  {
    forall schedule :: AllExited(Run(s, schedule)) ==> Run(s, schedule).submit == []
  }

  /** What decides it when the shutdown begins, with no submit under way, and nothing deposited since no writer was in
      try_dequeue: the submit queue is always emptied if and only if nothing is queued, or there is a writer that has
      not already failed to find what is. And all writers can leave. */
  lemma EmptiesExactly(s: State)
    requires Inv(s) && s.calling == {} && !s.shuttingDown && NothingHidden(s)
    ensures Inv(Step(s, Shutdown))
    ensures AlwaysEmpties(Step(s, Shutdown)) <==>
            s.submit == [] || exists w :: 0 <= w < |s.writers| && !s.writers[w].Missed?
    ensures exists schedule :: AllExited(Run(Step(s, Shutdown), schedule))
  {
    StaysUnhidden(s, Shutdown);
    StepKeepsInv(s, Shutdown);
    var s1 := Step(s, Shutdown);
    assert s.stopping == 0 && forall w :: 0 <= w < |s.writers| ==> !s.writers[w].Exited?;
    hide PlacesOk, OrderOk, QueueOk, ShutdownOk, NothingHidden;
    var ending := WritersCanLeave(s1);
    if s.submit == [] {
      forall schedule ensures Run(s1, schedule).submit == [] {
        EmptyStaysEmpty(s1, schedule);
      }
    } else if w :| 0 <= w < |s.writers| && !s.writers[w].Missed? {
      forall schedule ensures AllExited(Run(s1, schedule)) ==> Run(s1, schedule).submit == [] {
        LookedAndLeft(s1, w, schedule);
      }
    } else {
      var schedule := AllLeave(s1);
      assert AllExited(Run(s1, schedule)) && Run(s1, schedule).submit != [];
    }
  }

  /** In particular when no writer is in try_dequeue as the shutdown begins. */
  lemma ShutdownEmptiesExactly(s: State)
    requires Inv(s) && s.calling == {} && !s.shuttingDown
    requires forall w :: 0 <= w < |s.writers| ==> !s.writers[w].Dequeuing?
    ensures Inv(Step(s, Shutdown))
    ensures AlwaysEmpties(Step(s, Shutdown)) <==>
            s.submit == [] || exists w :: 0 <= w < |s.writers| && !s.writers[w].Missed?
    ensures exists schedule :: AllExited(Run(Step(s, Shutdown), schedule))
  {
    hide Inv, NothingHidden, AlwaysEmpties, AllExited;
    NobodyHides(s);
    EmptiesExactly(s);
  }

  // ---------------------------------------------------------------- the shutdown can complete

  /** How far a writer still has to go with what it is at. */
  function Phase(pc: WriterPc): nat {
    match pc
    case Exited => 0
    case Missed => 1
    case Dequeuing => 2
    case Looking => 3
    case Returning(ids, _) => 4 + |ids|
  }

  function CallLeft(s: State, w: Wid): (nat, nat, nat) {
    if w in s.queue.walks && Queue.CanCall(s.queue, w)
    then (Queue.Stage(s.queue.walks[w]), Queue.Left(s.queue.walks[w]), Queue.Visit(s.queue, w))
    else (0, 0, 0)
  }

  /** The writer's next step, whatever it is. */
  function NextOf(pc: WriterPc, w: Wid): Action {
    match pc
    case Returning(_, _) => Return(w)
    case Missed => Check(w)
    case _ => Dequeue(w, true)
  }

  lemma CanReturn(s: State, w: Wid)
    requires Inv(s) && w < |s.writers| && s.writers[w].Returning?
    ensures Enabled(s, Return(w))
  {
    assert WriterOk(s, w);
    hide ShutdownOk, OrderOk, QueueOk;
    var ids := s.writers[w].ids;
    if ids != [] {
      assert ids[0] < |s.place| && s.place[ids[0]] == AtWriter(w);
      assert PacketOk(s, ids[0]);
    }
  }

  ghost predicate Nearer(s: State, s': State, w: Wid)
    requires w < |s.writers| == |s'.writers|
  {
    var (stage, left, visit) := CallLeft(s, w);
    var (stage', left', visit') := CallLeft(s', w);
    || |s'.submit| < |s.submit|
    || (|s'.submit| == |s.submit| && Phase(s'.writers[w]) < Phase(s.writers[w]))
    || (|s'.submit| == |s.submit| && Phase(s'.writers[w]) == Phase(s.writers[w])
        && (stage' < stage || (stage' == stage && (left' < left || (left' == left && visit' < visit)))))
  }

  /** A writer that has been told to stop can always go on, and each of its steps brings it nearer to the end. */
  lemma WriterGoesOn(s: State, w: Wid)
    requires Closing(s) && w < s.stopping <= |s.writers| && !s.writers[w].Exited?
    ensures Enabled(s, NextOf(s.writers[w], w))
    ensures var s' := Step(s, NextOf(s.writers[w], w));
            && Closing(s') && s'.stopping == s.stopping && |s'.writers| == |s.writers|
            && s'.writers == s.writers[w := s'.writers[w]] && Nearer(s, s', w)
  {
    hide Inv, DequeueStep, CanDequeue, ReturnStep, Queue.StepCall, Queue.CanCall, Queue.Visit, Queue.Stage, Queue.Left;
    WriterInside(s, w);
    if s.writers[w].Returning? { CanReturn(s, w); }
    ClosingStep(s, NextOf(s.writers[w], w));
    match s.writers[w]
    case Returning(ids, ok) =>
      ReturnOnly(s, w);
      ReturnGoesOn(s, w);
    case Missed =>
    case _ =>
      DequeueOnly(s, w, true);
      DequeueNearer(s, w);
  }

  lemma DequeueNearer(s: State, w: Wid)
    requires Inv(s) && w < |s.writers| && (s.writers[w].Looking? || s.writers[w].Dequeuing?) && CanDequeue(s, w)
    ensures var s' := DequeueStep(s, w, true); |s'.writers| == |s.writers| && Nearer(s, s', w)
  {
    hide Inv, DequeueStep, Queue.StepCall, Queue.CanCall, Queue.Visit, Queue.Stage, Queue.Left;
    WriterInside(s, w);
    DequeueOnly(s, w, true);
    Queue.CallEffect(s.queue, w);
    var s' := DequeueStep(s, w, true);
    if Queue.ClaimsFrom(s.queue, w).Some? {
      assert |s'.submit| < |s.submit|;
    } else if s.writers[w].Dequeuing? && s'.writers[w].Dequeuing? {
      Queue.CallGoesOn(s.queue, w);
      assert w in s'.queue.walks;
    } else {
      assert Phase(s'.writers[w]) < Phase(s.writers[w]);
    }
  }

  lemma ReturnGoesOn(s: State, w: Wid)
    requires w < |s.writers| && s.writers[w].Returning?
    requires s.writers[w].ids != [] ==>
               var id := s.writers[w].ids[0]; id < |s.packets| == |s.place| && s.packets[id].opaque_ in s.reap
    ensures var s' := ReturnStep(s, w);
            w < |s'.writers| && (if s.writers[w].ids == [] then s'.writers[w].Looking?
                                 else s'.writers[w] == Returning(s.writers[w].ids[1..], s.writers[w].ok))
  {
  }

  lemma {:induction false} WriterLeaves(s: State, w: Wid) returns (schedule: seq<Action>)
    requires Closing(s) && w < s.stopping <= |s.writers|
    ensures var r := Run(s, schedule);
            Closing(r) && r.stopping == s.stopping && r.writers == s.writers[w := Exited]
    decreases |s.submit|, Phase(s.writers[w]), CallLeft(s, w).0, CallLeft(s, w).1, CallLeft(s, w).2
  {
    hide Inv, Step, Enabled, Phase, CallLeft, NextOf;
    schedule := [];
    if !s.writers[w].Exited? {
      WriterGoesOn(s, w);
      var a := NextOf(s.writers[w], w);
      var s' := Step(s, a);
      var rest := WriterLeaves(s', w);
      schedule := [a] + rest;
      RunOne(s, schedule);
    }
  }

  /** From wherever a shutdown is, all writers can leave; what is queued does not keep them. */
  lemma {:induction false} WritersCanLeave(s: State) returns (schedule: seq<Action>)
    requires Closing(s)
    ensures AllExited(Run(s, schedule))
    decreases |s.writers| - s.stopping
  {
    hide PlacesOk, OrderOk, QueueOk;
    var first: seq<Action> := [];
    if s.stopping > 0 {
      first := WriterLeaves(s, s.stopping - 1);
    }
    var s1 := Run(s, first);
    schedule := first;
    if s1.stopping < |s1.writers| {
      ClosingStep(s1, Stop);
      var rest := WritersCanLeave(Step(s1, Stop));
      schedule := first + ([Stop] + rest);
      RunConcat(s, first, [Stop] + rest);
      RunOne(s1, [Stop] + rest);
    }
  }

  // ---------------------------------------------------------------- when one writer is left

  /** Everybody but the last writer is gone. */
  ghost predicate OnlyLast(s: State) {
    Closing(s) && s.writers != [] && forall w :: 0 <= w < |s.writers| - 1 ==> s.writers[w].Exited?
  }

  /** Writer w has failed to find a bundle, or is in a call that, left alone, is going to fail. */
  ghost predicate FailsToFind(s: State, w: Wid)
    requires Inv(s) && w < |s.writers|
  {
    WriterInside(s, w);
    s.writers[w].Missed? || (s.writers[w].Dequeuing? && !Queue.Finish(s.queue, w).walks[w].found)
  }

  /** Bundles are left, and the last writer will not look again if it is told to stop now. */
  ghost predicate Stranded(s: State)
    requires Inv(s) && s.writers != []
  {
    var last := |s.writers| - 1;
    s.submit != [] && (s.writers[last].Exited? || FailsToFind(s, last))
  }

  lemma StrandedOrNot(s: State, a: Action)
    requires OnlyLast(s) && Enabled(s, a)
    ensures OnlyLast(Step(s, a)) && |Step(s, a).writers| == |s.writers|
    ensures Stranded(Step(s, a)) ==> Stranded(s)
    ensures s.stopping == |s.writers| ==> Step(s, a).stopping == s.stopping && (Stranded(s) ==> Stranded(Step(s, a)))
  {
    hide Inv, DequeueStep, ReturnStep, ReapStep, CanDequeue, Queue.StepCall, Queue.CanCall, Queue.Finish;
    ClosingStep(s, a);
    match a
    case Dequeue(w, ok) =>
      DequeueOnly(s, w, ok);
      LastDequeues(s, ok);
    case Return(w) => ReturnOnly(s, w);
    case _ =>
  }

  lemma LastDequeues(s: State, ok: bool)
    requires OnlyLast(s) && Enabled(s, Dequeue(|s.writers| - 1, ok))
    requires Closing(DequeueStep(s, |s.writers| - 1, ok))
    ensures OnlyLast(DequeueStep(s, |s.writers| - 1, ok))
    ensures Stranded(DequeueStep(s, |s.writers| - 1, ok)) <==> Stranded(s)
  {
    hide Inv, DequeueStep, CanDequeue, Queue.Inv, Queue.StepCall, Queue.CanCall, Queue.Finish, Queue.Empty,
      Queue.TookOne, Queue.SameElements, Queue.NobodyInside;
    var last := |s.writers| - 1;
    WriterInside(s, last);
    DequeueOnly(s, last, ok);
    Queue.CallEffect(s.queue, last);
    if s.writers[last].Dequeuing? {
      Queue.FinishStep(s.queue, last);
    } else {
      NobodyDequeues(s);
      EmptyQueue(s);
      Queue.AloneExact(s.queue, last);
      var s' := DequeueStep(s, last, ok);
      WriterInside(s', last);
      if s'.writers[last].Missed? {
        Queue.FinishedAlready(s'.queue, last);
      }
    }
  }

  lemma {:induction false} StrandedForGood(s: State, schedule: seq<Action>)
    requires Inv(s) && OnlyLast(s)
    ensures var r := Run(s, schedule);
            && OnlyLast(r) && |r.writers| == |s.writers| && (Stranded(r) ==> Stranded(s))
            && (s.stopping == |s.writers| && Stranded(s) ==> Stranded(r))
    decreases |schedule|
  {
    hide Inv, Stranded, Step, Enabled;
    if schedule != [] {
      if Enabled(s, schedule[0]) {
        StepKeepsInv(s, schedule[0]);
        StrandedOrNot(s, schedule[0]);
        StrandedForGood(Step(s, schedule[0]), schedule[1..]);
      } else {
        StrandedForGood(s, schedule[1..]);
      }
    }
  }

  /** A shutdown that began with no submit under way leaves an empty submit queue if and only if, when the last writer
      is told to stop, it is not the case that bundles are queued and this writer has already failed to find one, or is
      in a call of try_dequeue that is going to fail. */
  lemma ShutdownLeavesNothing(s: State, schedule: seq<Action>)
    requires Inv(s) && s.clean && s.stopping + 1 == |s.writers| && Enabled(s, Stop)
    ensures Inv(Step(s, Stop))
    ensures var r := Run(Step(s, Stop), schedule);
            AllExited(r) ==> (r.submit == [] <==> !(s.submit != [] && FailsToFind(s, s.stopping)))
  {
    StepKeepsInv(s, Stop);
    hide PlacesOk, OrderOk, QueueOk, Queue.Finish;
    var s1 := Step(s, Stop);
    assert OnlyLast(s1);
    StrandedForGood(s1, schedule);
    var r := Run(s1, schedule);
    assert AllExited(r) ==> r.writers[|r.writers| - 1].Exited?;
  }

  /** The only writer's call fails, and nothing is taken. */
  lemma {:induction false} CallFails(s: State) returns (schedule: seq<Action>)
    requires Closing(s) && |s.writers| == 1 && FailsToFind(s, 0)
    ensures var r := Run(s, schedule);
            && Closing(r) && r.writers == [Missed] && r.submit == s.submit && r.stopping == s.stopping
    decreases Phase(s.writers[0]), CallLeft(s, 0).0, CallLeft(s, 0).1, CallLeft(s, 0).2
  {
    hide Inv, Step, Enabled, DequeueStep, CanDequeue, CallLeft, Queue.StepCall, Queue.CanCall, Queue.Finish, Queue.Inv;
    schedule := [];
    WriterInside(s, 0);
    if s.writers[0].Dequeuing? {
      var a := Dequeue(0, true);
      FailsOnce(s);
      var rest := CallFails(Step(s, a));
      schedule := [a] + rest;
      RunOne(s, schedule);
    }
  }

  lemma FailsOnce(s: State)
    requires Closing(s) && |s.writers| == 1 && FailsToFind(s, 0) && s.writers[0].Dequeuing?
    ensures Enabled(s, Dequeue(0, true))
    ensures var s' := Step(s, Dequeue(0, true));
            && Closing(s') && |s'.writers| == 1 && FailsToFind(s', 0) && s'.submit == s.submit
            && s'.stopping == s.stopping && Nearer(s, s', 0)
  {
    hide Inv, DequeueStep, CanDequeue, Queue.StepCall, Queue.CanCall, Queue.Finish, Queue.Inv, CallLeft;
    WriterInside(s, 0);
    ClosingStep(s, Dequeue(0, true));
    DequeueOnly(s, 0, true);
    DequeueNearer(s, 0);
    Queue.CallEffect(s.queue, 0);
    Queue.FinishStep(s.queue, 0);
    WriterInside(DequeueStep(s, 0, true), 0);
  }

  /** With one writer, as configured by default, what decides it when the shutdown begins, wherever the writer is. */
  lemma SoleWriterEmptiesExactly(s: State)
    requires Inv(s) && s.calling == {} && !s.shuttingDown && |s.writers| == 1
    ensures Inv(Step(s, Shutdown))
    ensures AlwaysEmpties(Step(s, Shutdown)) <==> s.submit == [] || !FailsToFind(s, 0)
  {
    SoleWriterFacts(s);
    hide Inv, FailsToFind, Stranded, Step, Enabled, AlwaysEmpties;
    if s.submit == [] || !FailsToFind(s, 0) {
      NotStranded(Step(s, Shutdown));
    } else {
      LeavesBundles(Step(s, Shutdown));
    }
  }

  lemma SoleWriterFacts(s: State)
    requires Inv(s) && s.calling == {} && !s.shuttingDown && |s.writers| == 1
    ensures var s1 := Step(s, Shutdown);
            && Inv(s1) && OnlyLast(s1) && s1.submit == s.submit && s1.writers == s.writers && s1.stopping == 0
            && (FailsToFind(s1, 0) <==> FailsToFind(s, 0))
            && (Stranded(s1) <==> s.submit != [] && FailsToFind(s, 0))
  {
    StepKeepsInv(s, Shutdown);
    assert s.stopping == 0 && !s.writers[0].Exited?;
    hide PlacesOk, OrderOk, QueueOk, ShutdownOk, Queue.Finish;
  }

  lemma NotStranded(s: State)
    requires OnlyLast(s) && |s.writers| == 1 && !Stranded(s)
    ensures AlwaysEmpties(s)
  {
    hide Inv, FailsToFind;
    forall schedule ensures AllExited(Run(s, schedule)) ==> Run(s, schedule).submit == [] {
      StrandedForGood(s, schedule);
    }
  }

  lemma LeavesBundles(s: State)
    requires OnlyLast(s) && |s.writers| == 1 && s.stopping == 0 && s.submit != [] && FailsToFind(s, 0)
    ensures !AlwaysEmpties(s)
  {
    hide Inv, FailsToFind;
    var failing := CallFails(s);
    var leaving := AllLeave(Run(s, failing));
    RunConcat(s, failing, leaving);
    assert AllExited(Run(s, failing + leaving)) && Run(s, failing + leaving).submit != [];
  }
}
