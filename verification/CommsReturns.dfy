/** What comes back to the accessors over whole runs of the bundle layer: every packet with the return code that its
    transmission earned it (comms_writer.cc:48-55, comms_accessor.cc:29-36). */
module CommsReturns {
  import opened Collections
  import opened Options
  import opened Bundles
  import opened CommsRun
  import Queue = TryDequeue

  /** The packets of the bundle that this step takes, if they are going to be transmitted. */
  ghost function SentBy(s: State, a: Action): set<Id>
    requires Enabled(s, a)
  {
    if a.Dequeue? && a.ok && Queue.ClaimsFrom(s.queue, a.w).Some?
    then Ids(s.submit[FirstOf(s.submit, s.producers[Queue.ClaimsFrom(s.queue, a.w).value])].ids)
    else {}
  }

  /** The packets in bundles that were taken with a transmission that succeeded. */
  ghost function Sent(s: State, schedule: seq<Action>): set<Id>
    requires Inv(s)
    decreases |schedule|
  {
    if schedule == [] then {}
    else if Enabled(s, schedule[0]) then
      StepKeepsInv(s, schedule[0]);
      SentBy(s, schedule[0]) + Sent(Step(s, schedule[0]), schedule[1..])
    else
      Sent(s, schedule[1..])
  }

  /** A packet has its return code as soon as it is with its accessor; until then it is known whether it is among those
      transmitted. */
  ghost predicate RcAt(s: State, sent: set<Id>, id: Id)
    requires id < |s.place| && id < |s.packets|
  {
    match s.place[id]
    case InBundle(_) => id !in sent
    case Submitted(_) => id !in sent
    case AtWriter(w) => w < |s.writers| && s.writers[w].Returning? && (id in sent <==> s.writers[w].ok)
    case Reapable(_) => s.packets[id].dstOrRc == if id in sent then 0 else 1
    case Reaped(_) => s.packets[id].dstOrRc == if id in sent then 0 else 1
  }

  ghost predicate RcOk(s: State, sent: set<Id>) {
    && |s.packets| == |s.place|
    && (forall id :: id in sent ==> id < |s.place|)
    && (forall id :: 0 <= id < |s.place| ==> RcAt(s, sent, id))
  }

  lemma AddRc(s: State, sent: set<Id>, key: Key, packet: Packet)
    requires RcOk(s, sent) && key in s.bundles && key in s.passed
    ensures RcOk(AddStep(s, key, packet), sent)
  {
    var s' := AddStep(s, key, packet);
    forall id | 0 <= id < |s'.place| ensures RcAt(s', sent, id) {
      assert id < |s.place| ==> RcAt(s, sent, id);
    }
  }

  lemma DepositRc(s: State, sent: set<Id>, key: Key, ok: bool)
    requires RcOk(s, sent) && HasEndPoint(s, key) && Lists(s.place, s.bundles[key], InBundle(key))
    ensures RcOk(DepositStep(s, key, ok), sent)
  {
    hide RcOk, Lists, Enqueued, Entered, Relocate, Address, Ids, DepositLoads;
    FromList(s.place, s.bundles[key], InBundle(key));
    var s', ids := DepositStep(s, key, ok), Ids(s.bundles[key]);
    assert s'.writers == s.writers;
    MovedRc(s, s', sent, ids, key, if ok then Submitted(s.serials) else Reapable(key.a), ok);
  }

  lemma MovedRc(s: State, s': State, sent: set<Id>, ids: set<Id>, key: Key, q: Place, ok: bool)
    requires RcOk(s, sent) && s'.writers == s.writers && forall id :: id in ids ==>
               id < |s.place| && s.place[id] == InBundle(key)
    requires s'.place == Relocate(s.place, ids, q) && s'.packets == Address(s.packets, ids, key.a, ok)
    requires if ok then q.Submitted? else q.Reapable?
    ensures RcOk(s', sent)
  {
    forall id | 0 <= id < |s'.place| ensures RcAt(s', sent, id) {
      assert RcAt(s, sent, id);
    }
  }

  lemma TakeRc(s: State, sent: set<Id>, w: Wid, i: nat, ok: bool)
    requires RcOk(s, sent) && PlacesOk(s) && w < |s.writers| && !s.writers[w].Returning? && i < |s.submit|
    ensures RcOk(TakeStep(s, w, i, ok), sent + if ok then Ids(s.submit[i].ids) else {})
  {
    var s', sent' := TakeStep(s, w, i, ok), sent + if ok then Ids(s.submit[i].ids) else {};
    assert LoadOk(s, i);
    FromList(s.place, s.submit[i].ids, Submitted(s.submit[i].serial));
    NobodyAtWriter(s, w);
    hide PlacesOk;
    forall id | 0 <= id < |s'.place| ensures RcAt(s', sent', id) {
      assert RcAt(s, sent, id);
    }
  }

  lemma ReturnRc(s: State, sent: set<Id>, w: Wid)
    requires RcOk(s, sent) && PlacesOk(s) && Enabled(s, Return(w))
    ensures RcOk(ReturnStep(s, w), sent)
  {
    hide PlacesOk, RcOk, ReturnStep;
    if s.writers[w].ids == [] {
      NothingToReturn(s, w);
      DoneRc(s, sent, w);
    } else {
      ReturnMoves(s, w);
      ReturnOneRc(s, sent, w);
    }
  }

  lemma NothingToReturn(s: State, w: Wid)
    requires PlacesOk(s) && w < |s.writers| && s.writers[w].Returning? && s.writers[w].ids == []
    ensures forall id :: 0 <= id < |s.place| ==> s.place[id] != AtWriter(w)
  {
    assert WriterOk(s, w);
  }

  lemma DoneRc(s: State, sent: set<Id>, w: Wid)
    requires RcOk(s, sent) && w < |s.writers| && s.writers[w].Returning? && s.writers[w].ids == []
    requires forall id :: 0 <= id < |s.place| ==> s.place[id] != AtWriter(w)
    ensures RcOk(ReturnStep(s, w), sent)
  {
    var s' := ReturnStep(s, w);
    forall id | 0 <= id < |s'.place| ensures RcAt(s', sent, id) {
      assert RcAt(s, sent, id);
    }
  }

  lemma ReturnOneRc(s: State, sent: set<Id>, w: Wid)
    requires RcOk(s, sent) && Enabled(s, Return(w)) && s.writers[w].ids != []
    requires s.place[s.writers[w].ids[0]] == AtWriter(w)
    ensures RcOk(ReturnStep(s, w), sent)
  {
    var s' := ReturnStep(s, w);
    forall id | 0 <= id < |s'.place| ensures RcAt(s', sent, id) {
      assert RcAt(s, sent, id);
    }
  }

  lemma ReapRc(s: State, sent: set<Id>, a: Aid, ids: set<Id>)
    requires RcOk(s, sent) && PlacesOk(s) && a in s.reap && a in s.reaped && ids <= s.reap[a]
    ensures RcOk(ReapStep(s, a, ids), sent)
  {
    assert AccessorOk(s, a);
    hide PlacesOk;
    var s' := ReapStep(s, a, ids);
    forall id | 0 <= id < |s'.place| ensures RcAt(s', sent, id) {
      assert RcAt(s, sent, id);
    }
  }

  /** A step that moves no packet and leaves the writers that return packets alone. */
  lemma OtherRc(s: State, s': State, sent: set<Id>)
    requires RcOk(s, sent) && s'.place == s.place && s'.packets == s.packets && |s'.writers| == |s.writers|
    requires forall w :: 0 <= w < |s.writers| && s.writers[w].Returning? ==> s'.writers[w] == s.writers[w]
    ensures RcOk(s', sent)
  {
    forall id | 0 <= id < |s'.place| ensures RcAt(s', sent, id) {
      assert RcAt(s, sent, id);
    }
  }

  lemma SubmitRc(s: State, sent: set<Id>, key: Key, packet: Packet, ok: bool)
    requires RcOk(s, sent) && PlacesOk(s) && HasEndPoint(s, key) && key.dst == packet.dstOrRc
    ensures RcOk(SubmitStep(s, key, packet, ok), sent)
  {
    hide RcOk, DepositStep, AddStep, KeyOk, RestOk;
    AddRc(s, sent, key, packet);
    AddKeepsPlaces(s, key, packet);
    hide PlacesOk;
    var s1 := AddStep(s, key, packet);
    if |s1.bundles[key]| == COMMS_BUNDLE_SIZE {
      DepositRc(s1, sent, key, ok);
    }
  }

  lemma FlushRc(s: State, sent: set<Id>, key: Key, ok: bool)
    requires RcOk(s, sent) && PlacesOk(s) && HasEndPoint(s, key)
    ensures RcOk(DepositStep(s, key, ok), sent)
  {
    hide RcOk, DepositStep;
    assert KeyOk(s, key);
    DepositRc(s, sent, key, ok);
  }

  lemma DequeueRc(s: State, sent: set<Id>, w: Wid, ok: bool)
    requires RcOk(s, sent) && PlacesOk(s) && Enabled(s, Dequeue(w, ok))
    ensures RcOk(DequeueStep(s, w, ok), sent + SentBy(s, Dequeue(w, ok)))
  {
    hide PlacesOk, TakeStep, Queue.StepCall, Queue.CanCall, RcOk;
    match Queue.ClaimsFrom(s.queue, w)
    case Some(p) =>
      var i := FirstOf(s.submit, s.producers[p]);
      var more := if ok then Ids(s.submit[i].ids) else {};
      TakeRc(s, sent, w, i, ok);
      OtherRc(TakeStep(s, w, i, ok), DequeueStep(s, w, ok), sent + more);
    case None =>
      OtherRc(s, DequeueStep(s, w, ok), sent);
      assert sent + SentBy(s, Dequeue(w, ok)) == sent;
  }

  lemma StepRc(s: State, sent: set<Id>, a: Action)
    requires RcOk(s, sent) && PlacesOk(s) && Enabled(s, a)
    ensures RcOk(Step(s, a), sent + SentBy(s, a))
  {
    hide RcOk, PlacesOk, SubmitStep, DepositStep, DequeueStep, CanDequeue, ReturnStep, ReapStep;
    assert !a.Dequeue? ==> sent + SentBy(s, a) == sent;
    match a
    case Submit(a, packet, ok) => SubmitRc(s, sent, Key(a, packet.dstOrRc), packet, ok);
    case Flush(a, dst, ok) => FlushRc(s, sent, Key(a, dst), ok);
    case Dequeue(w, ok) => DequeueRc(s, sent, w, ok);
    case Return(w) => ReturnRc(s, sent, w);
    case Reap(a, ids) => ReapRc(s, sent, a, ids);
    case _ => OtherRc(s, Step(s, a), sent);
  }

  lemma {:induction false} RunRc(s: State, sent: set<Id>, schedule: seq<Action>)
    requires Inv(s) && RcOk(s, sent)
    ensures RcOk(Run(s, schedule), sent + Sent(s, schedule))
    decreases |schedule|
  {
    hide RcOk, PlacesOk, ShutdownOk, OrderOk, QueueOk, Step, Enabled, SentBy;
    if schedule == [] {
      assert sent + {} == sent;
    } else if Enabled(s, schedule[0]) {
      StepKeepsInv(s, schedule[0]);
      StepRc(s, sent, schedule[0]);
      RunRc(Step(s, schedule[0]), sent + SentBy(s, schedule[0]), schedule[1..]);
      assert sent + SentBy(s, schedule[0]) + Sent(Step(s, schedule[0]), schedule[1..]) == sent + Sent(s, schedule);
    } else {
      RunRc(s, sent, schedule[1..]);
    }
  }

  /** Over any run, a packet that its accessor finds in its reap queue or has reaped has return code 0 if and only if it
      was in a bundle whose transmission succeeded; otherwise, also if its bundle was not accepted, it has 1. */
  lemma ReturnCodes(aids: set<Aid>, endPoints: nat, writers: nat, schedule: seq<Action>, a: Aid, id: Id)
    ensures Inv(Init(aids, endPoints, writers))
    ensures var s := Run(Init(aids, endPoints, writers), schedule);
            a in s.reap && a in s.reaped && id in s.reap[a] + s.reaped[a] ==>
              && id < |s.packets|
              && s.packets[id].dstOrRc == if id in Sent(Init(aids, endPoints, writers), schedule) then 0 else 1
  {
    InitInv(aids, endPoints, writers);
    var s0 := Init(aids, endPoints, writers);
    assert RcOk(s0, {});
    RunRc(s0, {}, schedule);
    assert {} + Sent(s0, schedule) == Sent(s0, schedule);
    var s := Run(s0, schedule);
    hide PlacesOk, ShutdownOk, OrderOk, QueueOk, Run, Sent;
    if a in s.reap && a in s.reaped && id in s.reap[a] + s.reaped[a] {
      HeldIsThere(s, if id in s.reap[a] then Reapable(a) else Reaped(a), id);
      assert RcAt(s, Sent(s0, schedule), id);
    }
  }
}
