/** No packet is ever stuck in the bundle layer: from every state it can get into before the shutdown, with whatever
    writers in the middle of whatever they are doing, there is a way for each packet to come back to its accessor. */
module CommsProgress {
  import opened Collections
  import opened Options
  import opened CommsRun
  import opened CommsShutdown
  import Queue = TryDequeue

  // ---------------------------------------------------------------- what the writers' steps keep

  /** From s to r only writers have moved: no packet is back in a bundle, and no bundle has been added. */
  ghost predicate Beyond(s: State, r: State) {
    && r.owner == s.owner && |r.place| == |s.place| && r.calling == s.calling && !r.shuttingDown
    && |r.writers| == |s.writers| && |r.submit| <= |s.submit| && r.reap.Keys == s.reap.Keys
    && forall id :: 0 <= id < |s.place| && r.place[id].InBundle? ==> s.place[id].InBundle?
  }

  lemma BeyondTwice(s: State, t: State, r: State)
    requires Beyond(s, t) && Beyond(t, r)
    ensures Beyond(s, r)
  {
  }

  lemma TakeBeyond(s: State, w: Wid, i: nat, ok: bool)
    requires w < |s.writers| && i < |s.submit| && !s.shuttingDown
    ensures Beyond(s, TakeStep(s, w, i, ok))
  {
  }

  lemma DequeueBeyond(s: State, w: Wid, ok: bool)
    requires w < |s.writers| && CanDequeue(s, w) && !s.shuttingDown
    ensures Beyond(s, DequeueStep(s, w, ok))
  {
    hide Queue.StepCall, Queue.CanCall, TakeStep, FirstOf;
    match Queue.ClaimsFrom(s.queue, w)
    case Some(p) => TakeBeyond(s, w, FirstOf(s.submit, s.producers[p]), ok);
    case None =>
  }

  lemma ReturnBeyond(s: State, w: Wid)
    requires w < |s.writers| && s.writers[w].Returning? && !s.shuttingDown
    requires s.writers[w].ids != [] ==>
               var id := s.writers[w].ids[0]; id < |s.packets| == |s.place| && s.packets[id].opaque_ in s.reap
    ensures Beyond(s, ReturnStep(s, w))
  {
  }

  // ---------------------------------------------------------------- a writer comes round

  /** How far a writer is from looking again. */
  function Turn(pc: WriterPc): nat {
    match pc
    case Looking => 0
    case Exited => 0
    case Missed => 1
    case Dequeuing => 2
    case Returning(ids, _) => 3 + |ids|
  }

  ghost predicate Closer(s: State, s': State, w: Wid)
    requires w < |s.writers| == |s'.writers|
  {
    var (stage, left, visit) := CallLeft(s, w);
    var (stage', left', visit') := CallLeft(s', w);
    || |s'.submit| < |s.submit|
    || (|s'.submit| == |s.submit| && Turn(s'.writers[w]) < Turn(s.writers[w]))
    || (|s'.submit| == |s.submit| && Turn(s'.writers[w]) == Turn(s.writers[w])
        && (stage' < stage || (stage' == stage && (left' < left || (left' == left && visit' < visit)))))
  }

  lemma NobodyHasLeft(s: State)
    requires Inv(s) && !s.shuttingDown
    ensures s.stopping == 0 && forall w :: 0 <= w < |s.writers| ==> !s.writers[w].Exited?
  {
    hide PlacesOk, OrderOk, QueueOk;
  }

  lemma WriterTurns(s: State, w: Wid)
    requires Inv(s) && !s.shuttingDown && w < |s.writers| && !s.writers[w].Looking?
    ensures Enabled(s, NextOf(s.writers[w], w))
    ensures var s' := Step(s, NextOf(s.writers[w], w));
            Inv(s') && Beyond(s, s') && s'.writers == s.writers[w := s'.writers[w]] && Closer(s, s', w)
  {
    hide Inv, DequeueStep, CanDequeue, ReturnStep, CallLeft, Queue.StepCall, Queue.CanCall;
    NobodyHasLeft(s);
    WriterInside(s, w);
    if s.writers[w].Returning? { CanReturn(s, w); }
    StepKeepsInv(s, NextOf(s.writers[w], w));
    match s.writers[w]
    case Returning(ids, ok) =>
      ReturnOnly(s, w);
      ReturnGoesOn(s, w);
      ReturnBeyond(s, w);
    case Missed =>
    case _ =>
      DequeueOnly(s, w, true);
      DequeueBeyond(s, w, true);
      DequeueCloser(s, w);
  }

  lemma DequeueCloser(s: State, w: Wid)
    requires Inv(s) && w < |s.writers| && s.writers[w].Dequeuing? && CanDequeue(s, w)
    ensures var s' := DequeueStep(s, w, true); |s'.writers| == |s.writers| && Closer(s, s', w)
  {
    hide Inv, DequeueStep, Queue.StepCall, Queue.CanCall, Queue.Visit, Queue.Stage, Queue.Left;
    WriterInside(s, w);
    DequeueOnly(s, w, true);
    Queue.CallEffect(s.queue, w);
    var s' := DequeueStep(s, w, true);
    if Queue.ClaimsFrom(s.queue, w).Some? {
      assert |s'.submit| < |s.submit|;
    } else if s'.writers[w].Dequeuing? {
      Queue.CallGoesOn(s.queue, w);
      assert w in s'.queue.walks;
    }
  }

  /** A writer finishes what it is at. */
  lemma {:induction false} Settle(s: State, w: Wid) returns (schedule: seq<Action>)
    requires Inv(s) && !s.shuttingDown && w < |s.writers|
    ensures var r := Run(s, schedule); Beyond(s, r) && r.writers == s.writers[w := Looking]
    decreases |s.submit|, Turn(s.writers[w]), CallLeft(s, w).0, CallLeft(s, w).1, CallLeft(s, w).2
  {
    hide Inv, Step, Enabled, Turn, CallLeft, NextOf;
    schedule := [];
    if !s.writers[w].Looking? {
      WriterTurns(s, w);
      var a := NextOf(s.writers[w], w);
      var s' := Step(s, a);
      var rest := Settle(s', w);
      schedule := [a] + rest;
      RunOne(s, schedule);
      BeyondTwice(s, s', Run(s, schedule));
    }
  }

  /** All of them do. */
  lemma {:induction false} SettleAll(s: State, n: nat) returns (schedule: seq<Action>)
    requires Inv(s) && !s.shuttingDown && n <= |s.writers|
    ensures var r := Run(s, schedule); Beyond(s, r) && forall w :: 0 <= w < n ==> r.writers[w].Looking?
  {
    hide Inv, Step, Enabled;
    schedule := [];
    if n > 0 {
      var first := SettleAll(s, n - 1);
      var s1 := Run(s, first);
      var last := Settle(s1, n - 1);
      RunConcat(s, first, last);
      schedule := first + last;
      BeyondTwice(s, s1, Run(s, schedule));
    }
  }

  // ---------------------------------------------------------------- the queue is emptied

  /** A call that is going to find a bundle takes one. */
  lemma {:induction false} CallFinds(s: State) returns (schedule: seq<Action>)
    requires Inv(s) && !s.shuttingDown && s.writers != [] && s.writers[0].Dequeuing? && !FailsToFind(s, 0)
    ensures var r := Run(s, schedule);
            Beyond(s, r) && |r.submit| < |s.submit| && r.writers == s.writers[0 := r.writers[0]]
    decreases CallLeft(s, 0).0, CallLeft(s, 0).1, CallLeft(s, 0).2
  {
    hide Inv, Step, Enabled, FailsToFind, CallLeft;
    var a := Dequeue(0, true);
    FindsOnce(s);
    var s' := Step(s, a);
    if |s'.submit| < |s.submit| {
      schedule := [a];
      RunOne(s, schedule);
      assert Run(s', []) == s';
    } else {
      var rest := CallFinds(s');
      schedule := [a] + rest;
      RunOne(s, schedule);
      BeyondTwice(s, s', Run(s, schedule));
    }
  }

  lemma FindsOnce(s: State)
    requires Inv(s) && !s.shuttingDown && s.writers != [] && s.writers[0].Dequeuing? && !FailsToFind(s, 0)
    ensures Enabled(s, Dequeue(0, true))
    ensures var s' := Step(s, Dequeue(0, true));
            && Inv(s') && Beyond(s, s') && s'.writers == s.writers[0 := s'.writers[0]]
            && (|s'.submit| < |s.submit|
                || (s'.writers[0].Dequeuing? && !FailsToFind(s', 0) && Closer(s, s', 0) && |s'.submit| == |s.submit|))
  {
    hide Inv, DequeueStep, CanDequeue, Queue.StepCall, Queue.CanCall, Queue.Finish, Queue.Inv, CallLeft;
    WriterInside(s, 0);
    WriterTurns(s, 0);
    DequeueOnly(s, 0, true);
    Queue.CallEffect(s.queue, 0);
    Queue.FinishStep(s.queue, 0);
    var s' := DequeueStep(s, 0, true);
    WriterInside(s', 0);
    if Queue.ClaimsFrom(s.queue, 0).Some? {
      ClaimShortens(s, 0);
    }
  }

  lemma ClaimShortens(s: State, w: Wid)
    requires w < |s.writers| && CanDequeue(s, w) && Queue.ClaimsFrom(s.queue, w).Some?
    ensures |DequeueStep(s, w, true).submit| < |s.submit|
  {
    hide DequeueStep, Queue.CanCall;
    DequeueOnly(s, w, true);
  }

  /** With all writers about to look, the next call takes a bundle, if there is one. */
  lemma TakeOne(s: State) returns (schedule: seq<Action>)
    requires Inv(s) && !s.shuttingDown && s.writers != [] && s.submit != []
    requires forall w :: 0 <= w < |s.writers| ==> s.writers[w].Looking?
    ensures var r := Run(s, schedule);
            && Beyond(s, r) && |r.submit| < |s.submit| && forall w :: 0 <= w < |s.writers| ==> r.writers[w].Looking?
  {
    hide Inv, Step, Enabled, FailsToFind;
    var a := Dequeue(0, true);
    LooksAndFinds(s);
    var s1 := Step(s, a);
    var finds := CallFinds(s1);
    var s2 := Run(s1, finds);
    var last := Settle(s2, 0);
    RunConcat(s1, finds, last);
    schedule := [a] + (finds + last);
    RunOne(s, schedule);
    BeyondTwice(s, s1, s2);
    BeyondTwice(s, s2, Run(s, schedule));
  }

  lemma LooksAndFinds(s: State)
    requires Inv(s) && !s.shuttingDown && s.writers != [] && s.submit != []
    requires forall w :: 0 <= w < |s.writers| ==> s.writers[w].Looking?
    ensures Enabled(s, Dequeue(0, true))
    ensures var s' := Step(s, Dequeue(0, true));
            && Inv(s') && Beyond(s, s') && s'.writers == s.writers[0 := Dequeuing] && !FailsToFind(s', 0)
            && |s'.submit| == |s.submit|
  {
    hide Inv, DequeueStep, CanDequeue, Queue.Inv, Queue.StepCall, Queue.CanCall, Queue.Finish, Queue.Empty,
      Queue.TookOne, Queue.SameElements, Queue.NobodyInside;
    WriterInside(s, 0);
    NobodyDequeues(s);
    EmptyQueue(s);
    Queue.AloneExact(s.queue, 0);
    Queue.CallEffect(s.queue, 0);
    DequeueOnly(s, 0, true);
    DequeueBeyond(s, 0, true);
    StepKeepsInv(s, Dequeue(0, true));
    var s' := DequeueStep(s, 0, true);
    WriterInside(s', 0);
    if s'.writers[0].Missed? {
      Queue.FinishedAlready(s'.queue, 0);
    }
    NothingClaimedYet(s);
  }

  lemma NothingClaimedYet(s: State)
    requires Inv(s) && s.writers != [] && s.writers[0].Looking?
    ensures Queue.CanCall(s.queue, 0) && Queue.ClaimsFrom(s.queue, 0) == None
  {
    hide Inv;
    WriterInside(s, 0);
  }

  lemma {:induction false} Drain(s: State) returns (schedule: seq<Action>)
    requires Inv(s) && !s.shuttingDown && s.writers != []
    requires forall w :: 0 <= w < |s.writers| ==> s.writers[w].Looking?
    ensures var r := Run(s, schedule);
            Beyond(s, r) && r.submit == [] && forall w :: 0 <= w < |s.writers| ==> r.writers[w].Looking?
    decreases |s.submit|
  {
    hide Inv, Step, Enabled;
    schedule := [];
    if s.submit != [] {
      var first := TakeOne(s);
      var s1 := Run(s, first);
      var rest := Drain(s1);
      RunConcat(s, first, rest);
      schedule := first + rest;
      BeyondTwice(s, s1, Run(s, schedule));
    }
  }

  // ---------------------------------------------------------------- every packet can come back

  /** The accessor flushes the bundle that the packet is in. */
  lemma Flushed(s: State, id: Id) returns (schedule: seq<Action>)
    requires Inv(s) && !s.shuttingDown && id < |s.place|
    ensures var r := Run(s, schedule);
            && r.owner == s.owner && |r.place| == |s.place| && !r.shuttingDown && |r.writers| == |s.writers|
            && !r.place[id].InBundle?
  {
    hide Inv, Step, Enabled;
    schedule := [];
    if s.place[id].InBundle? {
      var key := s.place[id].key;
      FlushMoves(s, id);
      if key.a in s.calling {
        schedule := [Flush(key.a, key.dst, true)];
        RunOne(s, schedule);
        assert Run(Step(s, schedule[0]), []) == Step(s, schedule[0]);
      } else {
        var s1 := Step(s, Begin(key.a));
        FlushMoves(s1, id);
        schedule := [Begin(key.a), Flush(key.a, key.dst, true)];
        RunOne(s, schedule);
        assert schedule[1..] == [Flush(key.a, key.dst, true)];
        RunOne(s1, schedule[1..]);
        assert Run(Step(s1, schedule[1]), []) == Step(s1, schedule[1]);
      }
    }
  }

  lemma FlushMoves(s: State, id: Id)
    requires Inv(s) && !s.shuttingDown && id < |s.place| && s.place[id].InBundle?
    ensures var key := s.place[id].key;
            if key.a in s.calling then
              && Enabled(s, Flush(key.a, key.dst, true))
              && var r := Step(s, Flush(key.a, key.dst, true));
              && r.owner == s.owner && |r.place| == |s.place| && !r.shuttingDown && |r.writers| == |s.writers|
              && !r.place[id].InBundle?
            else
              && Enabled(s, Begin(key.a))
              && var r := Step(s, Begin(key.a));
              && Inv(r) && r.owner == s.owner && r.place == s.place && !r.shuttingDown && r.writers == s.writers
              && key.a in r.calling
  {
    var key := s.place[id].key;
    assert PlaceExists(s, s.place[id]) && KeyOk(s, key);
    assert id in s.bundles[key];
    if key.a !in s.calling {
      StepKeepsInv(s, Begin(key.a));
    }
    hide Inv, PlacesOk, Enqueued, Entered, Address;
  }

  /** From every state the bundle layer can get into before the shutdown, with at least one writer, every packet that
      was passed to submit_n can still be reaped by the accessor that submitted it. */
  lemma EveryPacketCanComeBack(s: State, id: Id)
    requires Inv(s) && !s.shuttingDown && s.writers != [] && id < |s.place|
    ensures id < |s.owner|
    ensures exists schedule :: var r := Run(s, schedule); id < |r.place| && r.place[id] == Reaped(s.owner[id])
  {
    hide Inv, Step, Enabled;
    var first := Flushed(s, id);
    var s1 := Run(s, first);
    var settling := SettleAll(s1, |s1.writers|);
    var s2 := Run(s1, settling);
    var draining := Drain(s2);
    var s3 := Run(s2, draining);
    BackAtLast(s3, id);
    var last := if s3.place[id].Reapable? then [Reap(s3.owner[id], {id})] else [];
    if s3.place[id].Reapable? {
      RunOne(s3, last);
      assert Run(Step(s3, last[0]), []) == Step(s3, last[0]);
    }
    RunConcat(s2, draining, last);
    RunConcat(s1, settling, draining + last);
    RunConcat(s, first, settling + (draining + last));
    var schedule := first + (settling + (draining + last));
    assert Run(s, schedule).place[id] == Reaped(s.owner[id]);
  }

  lemma BackAtLast(s: State, id: Id)
    requires Inv(s) && id < |s.place| && !s.place[id].InBundle? && s.submit == []
    requires forall w :: 0 <= w < |s.writers| ==> s.writers[w].Looking?
    ensures |s.owner| == |s.place| && (s.place[id].Reapable? || s.place[id].Reaped?) && s.place[id].a == s.owner[id]
    ensures s.place[id].Reapable? ==>
              && Enabled(s, Reap(s.owner[id], {id}))
              && var r := Step(s, Reap(s.owner[id], {id})); id < |r.place| && r.place[id] == Reaped(s.owner[id])
  {
    assert PlaceExists(s, s.place[id]) && PacketOk(s, id);
    if s.place[id].Reapable? {
      assert AccessorOk(s, s.place[id].a);
      assert id in s.reap[s.place[id].a];
    }
    hide OrderOk, QueueOk;
  }
}
