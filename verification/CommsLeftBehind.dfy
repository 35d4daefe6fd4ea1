/** Two runs in which the shutdown leaves a packet in the submit queue for good, although all writers have left. */
module CommsLeftBehind {
  import opened Collections
  import opened Options
  import opened Bundles
  import opened CommsRun
  import opened CommsShutdown
  import Sub = DequeueProtocol
  import Queue = TryDequeue

  const KEY := Key(0, 0)

  /** Accessor 0 submits one packet for end point 0 and flushes. */
  function Deposit(packet: Packet): seq<Action> { [Begin(0), Submit(0, packet, true), Flush(0, 0, true), End(0)] }

  /** Accessor 0 may submit, and its bundle for end point 0 is empty. */
  ghost predicate Open(s: State) {
    Inv(s) && s.calling == {} && !s.shuttingDown && s.stopping == 0 && HasEndPoint(s, KEY) && s.bundles[KEY] == []
  }

  lemma DepositOne(s: State, packet: Packet)
    requires Open(s) && packet.dstOrRc == 0
    ensures var r, load := Run(s, Deposit(packet)), Load(s.serials, 0, 0, [|s.given|]);
            && Open(r) && r.writers == s.writers && r.submit == s.submit + [load]
            && r.queue == Enqueued(s.queue, s.producers, 0, [load]) && r.producers == Entered(s.producers, 0)
  {
    hide Inv, TakeStep, ReturnStep, ReapStep, DequeueStep, Enqueued, Entered, AddStep, DepositStep;
    var run := Deposit(packet);
    RunOne(s, run);
    var s1 := Step(s, Begin(0));
    RunOne(s1, run[1..]);
    AddedOne(s1, packet);
    var s2 := Step(s1, Submit(0, packet, true));
    RunOne(s2, run[2..]);
    DepositedOne(s2);
    DepositOnly(s2, KEY, true);
    var s3 := Step(s2, Flush(0, 0, true));
    RunOne(s3, run[3..]);
    var s4 := Step(s3, End(0));
    assert run[1..][1..] == run[2..] && run[2..][1..] == run[3..] && run[3..][1..] == [];
    assert Run(s4, []) == s4;
  }

  lemma AddedOne(s: State, packet: Packet)
    requires HasEndPoint(s, KEY) && s.bundles[KEY] == [] && packet.dstOrRc == 0
    ensures var s' := SubmitStep(s, KEY, packet, true);
            && s'.bundles == s.bundles[KEY := [|s.given|]] && HasEndPoint(s', KEY)
            && s'.calling == s.calling && s'.shuttingDown == s.shuttingDown && s'.stopping == s.stopping
            && s'.writers == s.writers && s'.submit == s.submit && s'.queue == s.queue && s'.producers == s.producers
            && s'.serials == s.serials
  {
    hide DepositStep;
    assert s.bundles[KEY] + [|s.given|] == [|s.given|];
  }

  lemma DepositedOne(s: State)
    requires HasEndPoint(s, KEY)
    ensures var s', load := DepositStep(s, KEY, true), Load(s.serials, 0, 0, s.bundles[KEY]);
            && s'.bundles == s.bundles[KEY := []] && HasEndPoint(s', KEY)
            && s'.submit == s.submit + [load] && s'.queue == Enqueued(s.queue, s.producers, 0, [load])
            && s'.producers == Entered(s.producers, 0)
  {
    hide Enqueued, Entered, Relocate, Address;
  }

  /** With one accessor and one end point, Init is such a state. */
  lemma StartsOpen(writers: nat)
    ensures Open(Init({0}, 1, writers)) && Init({0}, 1, writers).writers == seq(writers, _ => Looking)
  {
    hide Inv;
    InitInv({0}, 1, writers);
    assert 0 in {0};
  }

  /** What is in a bundle in the submit queue is in the submit queue. */
  lemma LoadIsThere(s: State, i: nat, j: nat)
    requires Inv(s) && i < |s.submit| && j < |s.submit[i].ids|
    ensures s.submit[i].ids[j] < |s.place| && s.place[s.submit[i].ids[j]].Submitted?
  {
    assert LoadOk(s, i);
    hide OrderOk, QueueOk;
  }

  // ---------------------------------------------------------------- a writer that has just looked

  /** The only writer looks at the empty queue and finds nothing. */
  lemma FirstMiss(s: State)
    requires s == Init({0}, 1, 1)
    ensures Inv(s)
    ensures var s1 := Run(s, [Dequeue(0, true)]); Open(s1) && s1.writers == [Missed] && s1.submit == []
  {
    hide Inv, SubmitStep, DepositStep, TakeStep, ReturnStep, ReapStep;
    StartsOpen(1);
    WriterInside(s, 0);
    RunOne(s, [Dequeue(0, true)]);
    assert [Dequeue(0, true)][1..] == [];
  }

  /** A writer finds nothing, then a bundle is accepted, the shutdown begins, and the writer sees that it is to stop. */
  lemma PacketLeftBehind(packet: Packet)
    requires packet.dstOrRc == 0
    ensures Inv(Init({0}, 1, 1))
    ensures var r := Run(Init({0}, 1, 1), [Dequeue(0, true)] + Deposit(packet) + [Shutdown, Stop, Check(0)]);
            r.shuttingDown && r.clean && AllExited(r) && |r.submit| == 1 && |r.submit[0].ids| == 1
            && r.submit[0].ids[0] < |r.place| && r.place[r.submit[0].ids[0]].Submitted?
  {
    hide Inv, Step, Enabled, Enqueued, Entered, AllExited;
    var s, first := Init({0}, 1, 1), [Dequeue(0, true)];
    FirstMiss(s);
    var s1 := Run(s, first);
    DepositOne(s1, packet);
    var s2 := Run(s1, Deposit(packet));
    LateExit(s2);
    RunConcat(s, first, Deposit(packet));
    RunConcat(s, first + Deposit(packet), [Shutdown, Stop, Check(0)]);
    LoadIsThere(Run(s2, [Shutdown, Stop, Check(0)]), 0, 0);
  }

  lemma LateExit(s: State)
    requires Open(s) && s.writers == [Missed]
    ensures var r := Run(s, [Shutdown, Stop, Check(0)]);
            r.shuttingDown && r.clean && AllExited(r) && r.submit == s.submit
  {
    hide Inv, Run, HasEndPoint;
    RunOne(s, [Shutdown, Stop, Check(0)]);
    SoleWriterLeaves(Step(s, Shutdown));
    assert [Shutdown, Stop, Check(0)][1..] == [Stop, Check(0)];
  }

  lemma SoleWriterLeaves(s: State)
    requires Inv(s) && s.shuttingDown && s.clean && s.stopping == 0 && s.writers == [Missed]
    ensures var r := Run(s, [Stop, Check(0)]);
            r.shuttingDown && r.clean && AllExited(r) && r.submit == s.submit
  {
    hide Inv, Run;
    RunOne(s, [Stop, Check(0)]);
    var s1 := Step(s, Stop);
    assert [Stop, Check(0)][1..] == [Check(0)];
    RunOne(s1, [Check(0)]);
    RunNone(Step(s1, Check(0)));
    assert [Check(0)][1..] == [];
  }

  lemma RunNone(s: State)
    requires Inv(s)
    ensures Run(s, []) == s
  {
  }

  // ---------------------------------------------------------------- a writer in the middle of a call

  /** Where two writers are, what one sub-queue's counters are, and what is in the submit queue. */
  datatype View = View(pcs: seq<WriterPc>, walks: seq<Queue.Walk>, sub: Sub.View, submit: seq<Load>)

  ghost predicate Shows(s: State, v: View) {
    && Inv(s) && |v.pcs| == |v.walks| == 2 && s.writers == v.pcs
    && 0 in s.queue.walks && s.queue.walks[0] == v.walks[0] && 1 in s.queue.walks && s.queue.walks[1] == v.walks[1]
    && |s.queue.subs| == 1 && Sub.Shows(s.queue.subs[0], v.sub) && s.producers == [0]
    && s.submit == v.submit && forall i :: 0 <= i < |v.submit| ==> v.submit[i].owner == 0
  }

  function Inner(v: View, w: Wid): Sub.Pc { if w == 0 then v.sub.p0 else v.sub.p1 }

  /** Writer w is in the dequeue of the only sub-queue. */
  predicate InSub(v: View, w: Wid)
    requires w < |v.walks|
  {
    Queue.Visiting(v.walks[w]).Some?
  }

  /** Where writer w's walk goes next, if it does not claim. */
  function NextWalk(v: View, w: Wid): Queue.Walk
    requires w < |v.walks|
  {
    match v.walks[w]
    case Out(_) => Queue.Scored(1, 0, 0, 0)
    case LoadTail(left, n, best, size) => Queue.LoadHead(left, n, best, size, v.sub.tail)
    case LoadHead(left, n, best, size, tail) =>
      if left == 0 then v.walks[w] else Queue.Score(left, n, best, size, v.sub.head, tail)
    case Again(best) => Queue.Others(1, best)
    case First(_) => if NothingFor(v, w) then Queue.Again(0) else v.walks[w]
    case Rest(_, _) => if NothingFor(v, w) then Queue.Out(false) else v.walks[w]
  }

  /** Writer w's dequeue of the sub-queue ends without an element. */
  predicate NothingFor(v: View, w: Wid) {
    match Inner(v, w)
    case GiveUp(_, _) => true
    case LoadOptimistic(_, tail, over) => tail - (v.sub.optimistic - over) <= 0
    case _ => false
  }

  /** What shows after writer w's next step. */
  function Shown(v: View, w: Wid): View
    requires w < |v.pcs| == |v.walks| == 2
  {
    match v.pcs[w]
    case Returning(ids, ok) => v.(pcs := v.pcs[w := if ids == [] then Looking else Returning(ids[1..], ok)])
    case _ =>
      var sub := if InSub(v, w) then Sub.Shown(v.sub, w) else v.sub;
      if InSub(v, w) && Inner(v, w).Claim? && v.submit != [] then
        View(v.pcs[w := Returning(v.submit[0].ids, true)], v.walks[w := Queue.Out(true)], sub, v.submit[1..])
      else
        var walk := NextWalk(v, w);
        View(v.pcs[w := if walk.Out? then Missed else Dequeuing], v.walks[w := walk], sub, v.submit)
  }

  predicate Active(pc: WriterPc) { pc.Looking? || pc.Dequeuing? || pc.Returning? }

  /** Nothing else has changed. */
  predicate Beside(s: State, s': State) {
    && s'.calling == s.calling && s'.shuttingDown == s.shuttingDown && s'.stopping == s.stopping
    && s'.bundles == s.bundles && s'.passed == s.passed && s'.deposited == s.deposited && s'.reap.Keys == s.reap.Keys
  }

  lemma StepShows(s: State, v: View, w: Wid)
    requires Shows(s, v) && w < 2 && Active(v.pcs[w])
    ensures Enabled(s, NextOf(v.pcs[w], w))
    ensures Shows(Step(s, NextOf(v.pcs[w], w)), Shown(v, w)) && Beside(s, Step(s, NextOf(v.pcs[w], w)))
  {
    hide Inv, DequeueStep, ReturnStep, CanDequeue, Sub.Shows, Queue.StepCall, Queue.CanCall, NextWalk;
    WriterInside(s, w);
    if v.pcs[w].Returning? {
      CanReturn(s, w);
      ReturnOnly(s, w);
      ReturnGoesOn(s, w);
      ReturnBeside(s, w);
      StepKeepsInv(s, Return(w));
    } else {
      StepKeepsInv(s, Dequeue(w, true));
      DequeueShows(s, v, w);
    }
  }

  lemma ReturnBeside(s: State, w: Wid)
    requires w < |s.writers| && s.writers[w].Returning?
    requires s.writers[w].ids != [] ==>
               var id := s.writers[w].ids[0]; id < |s.packets| == |s.place| && s.packets[id].opaque_ in s.reap
    ensures Beside(s, ReturnStep(s, w))
  {
    hide Relocate;
  }

  lemma DequeueBeside(s: State, w: Wid, ok: bool)
    requires w < |s.writers| && CanDequeue(s, w)
    ensures Beside(s, DequeueStep(s, w, ok))
  {
    hide Queue.StepCall, Queue.CanCall, TakeStep, FirstOf;
    match Queue.ClaimsFrom(s.queue, w)
    case Some(p) => TakeBeside(s, w, FirstOf(s.submit, s.producers[p]), ok);
    case None =>
  }

  lemma TakeBeside(s: State, w: Wid, i: nat, ok: bool)
    requires w < |s.writers| && i < |s.submit|
    ensures Beside(s, TakeStep(s, w, i, ok))
  {
  }

  /** An operation inside the dequeue of the sub-queue. */
  lemma VisitShows(s: State, v: View, w: Wid)
    requires Shows(s, v) && w < 2 && !v.pcs[w].Returning? && Queue.CanCall(s.queue, w)
    requires Queue.Visiting(v.walks[w]) == Some(0)
    ensures var queue := Queue.StepCall(s.queue, w);
            && |queue.subs| == 1 && Sub.Shows(queue.subs[0], Sub.Shown(v.sub, w)) && w in queue.walks
            && queue.walks[w] == if Inner(v, w).Claim? then Queue.Out(true) else NextWalk(v, w)
  {
    hide Inv, Sub.Inv, Sub.Shown, Sub.StepConsumer, Sub.PcOk;
    Sub.StepShows(s.queue.subs[0], v.sub, w);
    assert Sub.Step(s.queue.subs[0], Sub.Consume(w, 1)) == Sub.StepConsumer(s.queue.subs[0], w, 1);
  }

  lemma WalkShows(s: State, v: View, w: Wid)
    requires Shows(s, v) && w < 2 && (v.pcs[w].Looking? || v.pcs[w].Dequeuing?) && Queue.CanCall(s.queue, w)
    ensures Queue.ClaimsFrom(s.queue, w) == if InSub(v, w) && Inner(v, w).Claim? then Some(0) else None
    ensures var queue := Queue.StepCall(s.queue, w);
            && |queue.subs| == 1 && Sub.Shows(queue.subs[0], if InSub(v, w) then Sub.Shown(v.sub, w) else v.sub)
            && w in queue.walks
            && queue.walks[w] == if InSub(v, w) && Inner(v, w).Claim? then Queue.Out(true) else NextWalk(v, w)
  {
    hide Inv, Sub.Inv, Sub.Shown, Sub.StepConsumer, Sub.PcOk, Sub.Misses;
    if InSub(v, w) { VisitShows(s, v, w); }
  }

  lemma DequeueShows(s: State, v: View, w: Wid)
    requires Shows(s, v) && w < 2 && (v.pcs[w].Looking? || v.pcs[w].Dequeuing?) && CanDequeue(s, w)
    requires Inv(DequeueStep(s, w, true))
    ensures Shows(DequeueStep(s, w, true), Shown(v, w)) && Beside(s, DequeueStep(s, w, true))
  {
    hide Inv, DequeueStep, Sub.Shows, Sub.Shown, NextWalk, Queue.StepCall, Queue.CanCall, Queue.ClaimsFrom, InSub,
      FirstOf;
    WriterInside(s, w);
    DequeueBeside(s, w, true);
    DequeueOnly(s, w, true);
    Queue.CallEffect(s.queue, w);
    WalkShows(s, v, w);
    if Queue.ClaimsFrom(s.queue, w).Some? {
      OnlyOwner(s.submit);
      assert s.submit[..0] + s.submit[1..] == s.submit[1..];
    }
  }

  lemma OnlyOwner(submit: seq<Load>)
    requires forall i :: 0 <= i < |submit| ==> submit[i].owner == 0
    ensures FirstOf(submit, 0) == 0
  {
  }

  // ---------------------------------------------------------------- the run

  function ShownAfter(v: View, w: Wid, n: nat): (r: View)
    requires w < |v.pcs| == |v.walks| == 2
    ensures |r.pcs| == |r.walks| == 2
    decreases n
  {
    if n == 0 || !Active(v.pcs[w]) then v else ShownAfter(Shown(v, w), w, n - 1)
  }

  /** Writer w takes its next n steps. */
  lemma {:induction false} GoesOn(s: State, v: View, w: Wid, n: nat) returns (run: seq<Action>)
    requires Shows(s, v) && w < 2
    ensures Inv(s) && Shows(Run(s, run), ShownAfter(v, w, n)) && Beside(s, Run(s, run))
    decreases n
  {
    hide Inv, Step, Enabled, Shown, NextOf, Sub.Shows;
    run := [];
    if n > 0 && Active(v.pcs[w]) {
      var a := NextOf(v.pcs[w], w);
      StepShows(s, v, w);
      var rest := GoesOn(Step(s, a), Shown(v, w), w, n - 1);
      run := [a] + rest;
      RunOne(s, run);
    }
  }

  lemma StillOpen(s: State, s': State)
    requires Open(s) && Inv(s') && Beside(s, s')
    ensures Open(s')
  {
    hide Inv;
  }

  lemma EnqueueShows(queue: Queue.State<Load>, load: Load, v: Sub.View)
    requires |queue.subs| == 1 && Sub.Shows(queue.subs[0], v)
    ensures var q := Enqueued(queue, [0], 0, [load]);
            |q.subs| == 1 && q.walks == queue.walks && Sub.Shows(q.subs[0], v.(tail := v.tail + 1))
  {
    hide Sub.Inv;
    Sub.StepKeepsInv(queue.subs[0], Sub.Enqueue([load]));
  }

  lemma DepositShows(s: State, v: View, packet: Packet)
    requires Open(s) && Shows(s, v) && packet.dstOrRc == 0
    ensures var r := Run(s, Deposit(packet));
            Open(r) && Shows(r, v.(sub := v.sub.(tail := v.sub.tail + 1),
                                   submit := v.submit + [Load(s.serials, 0, 0, [|s.given|])]))
  {
    hide Inv, Sub.Shows, Enqueued;
    DepositOne(s, packet);
    EnqueueShows(s.queue, Load(s.serials, 0, 0, [|s.given|]), v.sub);
  }

  const LOAD := Load(0, 0, 0, [0])
  const NOWHERE := Queue.Out(true)

  lemma FirstDeposit(s: State, packet: Packet)
    requires s == Init({0}, 1, 2) && packet.dstOrRc == 0
    ensures Open(s)
    ensures var r := Run(s, Deposit(packet));
            && Open(r)
            && Shows(r, View([Looking, Looking], [NOWHERE, NOWHERE], Sub.View(1, 0, 0, 0, Sub.Idle, Sub.Idle), [LOAD]))
  {
    hide Inv, Sub.Shows, Enqueued, Run;
    StartsOpen(2);
    DepositOne(s, packet);
    assert 0 in Below(2) && 1 in Below(2);
    FirstEnqueue(s.queue);
  }

  lemma FirstEnqueue(queue: Queue.State<Load>)
    requires queue.subs == [] && 0 in queue.walks && 1 in queue.walks
    ensures var q := Enqueued(queue, [], 0, [LOAD]);
            && |q.subs| == 1 && q.walks == queue.walks
            && Sub.Shows(q.subs[0], Sub.View(1, 0, 0, 0, Sub.Idle, Sub.Idle))
  {
    hide Sub.Inv;
    var sub := Sub.Init<Load>(queue.walks.Keys);
    Sub.InitInv<Load>(queue.walks.Keys);
    assert Sub.Shows(sub, Sub.View(0, 0, 0, 0, Sub.Idle, Sub.Idle));
    EnqueueShows(queue.(subs := [sub]), LOAD, Sub.View(0, 0, 0, 0, Sub.Idle, Sub.Idle));
    assert Enqueued(queue, [], 0, [LOAD]) == Enqueued(queue.(subs := [sub]), [0], 0, [LOAD]);
  }

  function Both(w0: WriterPc, w1: WriterPc, walk0: Queue.Walk, walk1: Queue.Walk, sub: Sub.View,
                submit: seq<Load>): View {
    View([w0, w1], [walk0, walk1], sub, submit)
  }

  /** A writer's way to the point where it has decided to reserve, and two that compete there for the only bundle. */
  lemma Competing(v: View)
    requires v == Both(Looking, Looking, NOWHERE, NOWHERE, Sub.View(1, 0, 0, 0, Sub.Idle, Sub.Idle), [LOAD])
    ensures ShownAfter(ShownAfter(v, 0, 6), 1, 6)
            == Both(Dequeuing, Dequeuing, Queue.First(0), Queue.First(0),
                    Sub.View(1, 0, 0, 0, Sub.Reserve(0, 1), Sub.Reserve(0, 1)), [LOAD])
  {
    var v1 := ShownAfter(v, 0, 3);
    assert v1 == Both(Dequeuing, Looking, Queue.First(0), NOWHERE, v.sub, [LOAD]);
    assert ShownAfter(v, 0, 6) == ShownAfter(v1, 0, 3);
    var v2 := ShownAfter(v1, 0, 3);
    assert v2 == Both(Dequeuing, Looking, Queue.First(0), NOWHERE, Sub.View(1, 0, 0, 0, Sub.Reserve(0, 1), Sub.Idle),
                      [LOAD]);
    var v3 := ShownAfter(v2, 1, 3);
    assert v3 == Both(Dequeuing, Dequeuing, Queue.First(0), Queue.First(0), v2.sub, [LOAD]);
    assert ShownAfter(v2, 1, 6) == ShownAfter(v3, 1, 3);
  }

  /** Writer 0 gets it and returns its packet; writer 1 is about to give its reservation back. */
  lemma OneLoses(v: View)
    requires v == Both(Dequeuing, Dequeuing, Queue.First(0), Queue.First(0),
                       Sub.View(1, 0, 0, 0, Sub.Reserve(0, 1), Sub.Reserve(0, 1)), [LOAD])
    ensures ShownAfter(ShownAfter(ShownAfter(v, 0, 1), 1, 2), 0, 4)
            == Both(Looking, Dequeuing, NOWHERE, Queue.First(0), Sub.View(1, 1, 2, 0, Sub.Idle, Sub.GiveUp(1, 1)), [])
  {
    var v1 := ShownAfter(v, 0, 1);
    assert v1 == v.(sub := Sub.View(1, 0, 1, 0, Sub.ReloadTail(0, 1, 0), Sub.Reserve(0, 1)));
    var v2 := ShownAfter(v1, 1, 2);
    assert v2 == v.(sub := Sub.View(1, 0, 2, 0, Sub.ReloadTail(0, 1, 0), Sub.GiveUp(1, 1)));
    var v3 := ShownAfter(v2, 0, 2);
    assert v3 == Both(Returning([0], true), Dequeuing, NOWHERE, Queue.First(0),
                      Sub.View(1, 1, 2, 0, Sub.Idle, Sub.GiveUp(1, 1)), []);
    assert ShownAfter(v2, 0, 4) == ShownAfter(v3, 0, 2);
  }

  /** A new bundle is there, but writer 0 sees as many reservations as there are elements. Then writer 1 finds nothing
      else. */
  lemma BothMiss(v: View, load: Load)
    requires v == Both(Looking, Dequeuing, NOWHERE, Queue.First(0), Sub.View(2, 1, 2, 0, Sub.Idle, Sub.GiveUp(1, 1)),
                       [load])
    ensures var r := ShownAfter(ShownAfter(v, 0, 7), 1, 2); r.pcs == [Missed, Missed] && r.submit == [load]
  {
    var v1 := ShownAfter(v, 0, 3);
    assert v1 == v.(pcs := [Dequeuing, Dequeuing], walks := [Queue.First(0), Queue.First(0)]);
    var v2 := ShownAfter(v1, 0, 4);
    assert v2 == v.(pcs := [Missed, Dequeuing], walks := [Queue.Out(false), Queue.First(0)]);
    assert ShownAfter(v, 0, 7) == v2;
  }

  /** Two writers have competed for a bundle; the other one has returned its packet and looks again, this one has not
      given its reservation back yet; and there is one new bundle. */
  ghost predicate Overlooked(s: State, load: Load) {
    && Open(s) && |load.ids| == 1 && load.owner == 0
    && Shows(s, Both(Looking, Dequeuing, NOWHERE, Queue.First(0), Sub.View(2, 1, 2, 0, Sub.Idle, Sub.GiveUp(1, 1)),
                     [load]))
  }

  lemma BeforeTheShutdown(first: Packet, second: Packet) returns (run: seq<Action>, load: Load)
    requires first.dstOrRc == 0 && second.dstOrRc == 0
    ensures Inv(Init({0}, 1, 2)) && Overlooked(Run(Init({0}, 1, 2), run), load)
  {
    hide Inv, Shows, ShownAfter, Beside, HasEndPoint, Open;
    var s0 := Init({0}, 1, 2);
    FirstDeposit(s0, first);
    var v1 := Both(Looking, Looking, NOWHERE, NOWHERE, Sub.View(1, 0, 0, 0, Sub.Idle, Sub.Idle), [LOAD]);
    OpenInv(s0);
    run := Deposit(first);
    Competing(v1);
    run := Proceed(s0, run, v1, 0, 6);
    run := Proceed(s0, run, ShownAfter(v1, 0, 6), 1, 6);
    var v2 := ShownAfter(ShownAfter(v1, 0, 6), 1, 6);
    OneLoses(v2);
    run := Proceed(s0, run, v2, 0, 1);
    run := Proceed(s0, run, ShownAfter(v2, 0, 1), 1, 2);
    run := Proceed(s0, run, ShownAfter(ShownAfter(v2, 0, 1), 1, 2), 0, 4);
    var s1 := Run(s0, run);
    load := Load(s1.serials, 0, 0, [|s1.given|]);
    DepositShows(s1, ShownAfter(ShownAfter(ShownAfter(v2, 0, 1), 1, 2), 0, 4), second);
    RunConcat(s0, run, Deposit(second));
    run := run + Deposit(second);
    assert [] + [load] == [load];
    assert |load.ids| == 1 && load.owner == 0;
  }

  lemma OpenInv(s: State)
    requires Open(s)
    ensures Inv(s)
  {
  }

  /** The run goes on with n steps of writer w. */
  lemma Proceed(s0: State, run: seq<Action>, v: View, w: Wid, n: nat) returns (run': seq<Action>)
    requires Inv(s0) && Open(Run(s0, run)) && Shows(Run(s0, run), v) && w < 2
    ensures Open(Run(s0, run')) && Shows(Run(s0, run'), ShownAfter(v, w, n))
  {
    hide Inv, Shows, ShownAfter, Beside, Open;
    var rest := GoesOn(Run(s0, run), v, w, n);
    RunConcat(s0, run, rest);
    run' := run + rest;
    StillOpen(Run(s0, run), Run(s0, run'));
  }

  /** From there all writers can leave without the bundle. */
  lemma AllLeaveIt(s: State, load: Load) returns (schedule: seq<Action>)
    requires Overlooked(s, load)
    ensures Enabled(s, Shutdown) && Inv(Step(s, Shutdown))
    ensures var r := Run(Step(s, Shutdown), schedule); AllExited(r) && r.submit == [load]
  {
    hide Inv, Shown, ShownAfter, NextOf, Sub.Shows;
    var v := Both(Looking, Dequeuing, NOWHERE, Queue.First(0), Sub.View(2, 1, 2, 0, Sub.Idle, Sub.GiveUp(1, 1)),
                  [load]);
    StepKeepsInv(s, Shutdown);
    var s1 := Step(s, Shutdown);
    BothMiss(v, load);
    var go0 := GoesOn(s1, v, 0, 7);
    var s2 := Run(s1, go0);
    var go1 := GoesOn(s2, ShownAfter(v, 0, 7), 1, 2);
    var s3 := Run(s2, go1);
    var leave := AllLeave(s3);
    RunConcat(s1, go0, go1);
    RunConcat(s1, go0 + go1, leave);
    schedule := go0 + go1 + leave;
  }

  /** With a writer in the middle of try_dequeue when the shutdown begins, a bundle can be left behind even though
      another writer has not looked yet: a reservation that has not been given back hides it from everybody. */
  lemma MissedFromInside(first: Packet, second: Packet)
    requires first.dstOrRc == 0 && second.dstOrRc == 0
    ensures Inv(Init({0}, 1, 2))
    ensures exists run, schedule ::
              var s := Run(Init({0}, 1, 2), run);
              && s.calling == {} && !s.shuttingDown && s.writers == [Looking, Dequeuing] && |s.submit| == 1
              && Enabled(s, Shutdown) && Inv(Step(s, Shutdown))
              && var r := Run(Step(s, Shutdown), schedule);
                 AllExited(r) && r.submit == s.submit && |r.submit[0].ids| == 1
  {
    hide Inv, Sub.Shows, Step, Enabled, AllExited, HasEndPoint;
    var run, load := BeforeTheShutdown(first, second);
    var s := Run(Init({0}, 1, 2), run);
    var schedule := AllLeaveIt(s, load);
    assert s.submit == [load];
  }
}
