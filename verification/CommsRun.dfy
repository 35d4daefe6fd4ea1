/** Whole runs of the bundle layer: any number of accessors, each used by its own thread, any number of writers, and
    the shutdown, in any interleaving. A writer's try_dequeue goes by atomic operations (module TryDequeue); everything
    else by queue operations. Packets are named by the order in which they were passed to submit_n; `packets` holds what
    each of them contains now. A writer that finds the submit queue empty looks at its flag in a step of its own. Its
    try_enqueue into a reap queue is taken to succeed: the source ignores the result (comms_writer.cc:54). */
module CommsRun {
  import opened Collections
  import opened Options
  import opened ModArith
  import opened Bundles
  import Sub = DequeueProtocol
  import Queue = TryDequeue

  type Aid = nat
  type Wid = nat
  type Id = nat

  /** An accessor's bundle for one end point. */
  datatype Key = Key(a: Aid, dst: nat)

  /** A bundle in the submit queue; `serial` numbers the accepted bundles, `dst` is the end point it is for
      (auxiliary). */
  datatype Load = Load(serial: nat, owner: Aid, dst: nat, ids: seq<Id>)

  /** A writer that is about to call try_dequeue, is inside it, is returning a bundle's packets, has found nothing and
      is about to look at its shutting_down_ flag, or has left its loop. */
  datatype WriterPc = Looking | Dequeuing | Returning(ids: seq<Id>, ok: bool) | Missed | Exited

  /** Where a packet is (auxiliary). */
  datatype Place = InBundle(key: Key) | Submitted(serial: nat) | AtWriter(w: Wid) | Reapable(a: Aid) | Reaped(a: Aid)

  datatype State = State(
    bundles: map<Key, seq<Id>>,
    queue: Queue.State<Load>,          // submit_queue_: its sub-queues, and where the writers are in try_dequeue
    producers: seq<Aid>,               // whose sub-queues they are
    submit: seq<Load>,                 // auxiliary: what is in the submit queue, in the order of deposits
    writers: seq<WriterPc>,            // in the order in which shutdown() visits them
    stopping: nat,                     // writers before this one have been told to stop
    reap: map<Aid, set<Id>>,           // reap queues
    reaped: map<Aid, set<Id>>,         // what their owners took from them
    calling: set<Aid>,                 // accessors in the middle of submit_n or submit_flush
    shuttingDown: bool,
    packets: seq<Packet>,
    given: seq<Packet>,                // auxiliary: the packets as submitted
    owner: seq<Aid>,                   // auxiliary: who submitted them
    place: seq<Place>,                 // auxiliary
    serials: nat,                      // auxiliary: how many bundles were accepted
    passed: map<Key, seq<Id>>,         // auxiliary: the packets submitted for each end point, in order
    deposited: map<Key, seq<Id>>,      // auxiliary: those of them deposited, in order
    clean: bool                        // auxiliary: no call was under way when shutdown began
  )

  datatype Action =
    | Begin(a: Aid)
    | Submit(a: Aid, packet: Packet, ok: bool)     // submit_n's loop body; ok: would a full bundle be accepted
    | Flush(a: Aid, dst: nat, ok: bool)            // submit_flush's loop body
    | End(a: Aid)
    | Dequeue(w: Wid, ok: bool)                    // an operation of try_dequeue; ok: what transmit_n is to return
    | Return(w: Wid)                               // one packet back to its accessor
    | Check(w: Wid)                                // nothing found: has this writer been told to stop?
    | Reap(a: Aid, ids: set<Id>)
    | Shutdown
    | Stop                                         // the next writer is told to stop

  // ---------------------------------------------------------------- steps

  function Ids(ids: seq<Id>): set<Id> { set id | id in ids }

  /** These packets are at q now. */
  function Relocate(place: seq<Place>, ids: set<Id>, q: Place): (r: seq<Place>)
    ensures |r| == |place| && forall i :: 0 <= i < |place| ==> r[i] == if i in ids then q else place[i]
  {
    seq(|place|, i requires 0 <= i < |place| => if i in ids then q else place[i])
  }

  /** Their opaque pointers are set; refused packets get their return code as well. */
  function Address(packets: seq<Packet>, ids: set<Id>, a: Aid, ok: bool): (r: seq<Packet>)
    ensures |r| == |packets| && forall i :: 0 <= i < |packets| ==>
              r[i] == if i in ids then Addressed(packets[i], a, ok) else packets[i]
  {
    seq(|packets|, i requires 0 <= i < |packets| => if i in ids then Addressed(packets[i], a, ok) else packets[i])
  }

  function Addressed(p: Packet, a: Aid, ok: bool): Packet {
    if ok then p.(opaque_ := a) else p.(opaque_ := a, dstOrRc := COMMS_NOT_SCHEDULED)
  }

  /** The position of a in the list, or its length. */
  function IndexOf(producers: seq<Aid>, a: Aid): (p: nat)
    ensures p < |producers| ==> producers[p] == a
    ensures a in producers ==> p < |producers|
  {
    if producers == [] then 0 else if producers[0] == a then 0 else 1 + IndexOf(producers[1..], a)
  }

  /** A thread's first enqueue makes it a producer. */
  function Entered(producers: seq<Aid>, a: Aid): (r: seq<Aid>)
    ensures a in r
  {
    if a in producers then producers else producers + [a]
  }

  /** try_enqueue by the thread of accessor a; `loads` is empty if it fails. */
  function Enqueued(queue: Queue.State<Load>, producers: seq<Aid>, a: Aid, loads: seq<Load>): Queue.State<Load> {
    var entered := if a in producers then queue else Queue.Step(queue, Queue.AddProducer);
    var p := IndexOf(Entered(producers, a), a);
    if p < |entered.subs| then Queue.Step(entered, Queue.Enqueue(p, loads)) else entered
  }

  /** comms_accessor_submit_bundle */
  function DepositStep(s: State, key: Key, ok: bool): State
    requires key in s.bundles && key in s.deposited && key.a in s.reap
  {
    var ids := s.bundles[key];
    var s1 := s.(bundles := s.bundles[key := []], deposited := s.deposited[key := s.deposited[key] + ids],
                 packets := Address(s.packets, Ids(ids), key.a, ok), producers := Entered(s.producers, key.a),
                 queue := Enqueued(s.queue, s.producers, key.a, DepositLoads(s, key, ok)));
    if ok then
      s1.(submit := s.submit + DepositLoads(s, key, ok), serials := s.serials + 1,
          place := Relocate(s.place, Ids(ids), Submitted(s.serials)))
    else
      s1.(reap := s.reap[key.a := s.reap[key.a] + Ids(ids)], place := Relocate(s.place, Ids(ids), Reapable(key.a)))
  }

  function DepositLoads(s: State, key: Key, ok: bool): seq<Load>
    requires key in s.bundles
  {
    if ok then [Load(s.serials, key.a, key.dst, s.bundles[key])] else []
  }

  function AddStep(s: State, key: Key, packet: Packet): State
    requires key in s.bundles && key in s.passed
  {
    var id := |s.given|;
    s.(bundles := s.bundles[key := s.bundles[key] + [id]], passed := s.passed[key := s.passed[key] + [id]],
       packets := s.packets + [packet], given := s.given + [packet], owner := s.owner + [key.a],
       place := s.place + [InBundle(key)])
  }

  function SubmitStep(s: State, key: Key, packet: Packet, ok: bool): State
    requires key in s.bundles && key in s.passed && key in s.deposited && key.a in s.reap
  {
    var s1 := AddStep(s, key, packet);
    if |s1.bundles[key]| == COMMS_BUNDLE_SIZE then DepositStep(s1, key, ok) else s1
  }

  function TakeStep(s: State, w: Wid, i: nat, ok: bool): State
    requires w < |s.writers| && i < |s.submit|
  {
    var ids := s.submit[i].ids;
    s.(submit := s.submit[..i] + s.submit[i + 1..], writers := s.writers[w := Returning(ids, ok)],
       place := Relocate(s.place, Ids(ids), AtWriter(w)))
  }

  /** The oldest of a's bundles in the submit queue. */
  function FirstOf(submit: seq<Load>, a: Aid): (i: nat)
    ensures i < |submit| ==> submit[i].owner == a
    ensures i <= |submit| && forall j :: 0 <= j < i ==> submit[j].owner != a
  {
    if submit == [] then 0 else if submit[0].owner == a then 0 else 1 + FirstOf(submit[1..], a)
  }

  /** The next operation of the writer's try_dequeue; the fetch_add on a sub-queue's head takes the bundle. */
  function DequeueStep(s: State, w: Wid, ok: bool): State
    requires w < |s.writers| && CanDequeue(s, w)
  {
    var queue := Queue.StepCall(s.queue, w);
    match Queue.ClaimsFrom(s.queue, w)
    case Some(p) => TakeStep(s, w, FirstOf(s.submit, s.producers[p]), ok).(queue := queue)
    case None =>
      s.(queue := queue, writers := s.writers[w := if queue.walks[w].Out? then Missed else Dequeuing])
  }

  predicate CanDequeue(s: State, w: Wid) {
    && Queue.CanCall(s.queue, w)
    && var from := Queue.ClaimsFrom(s.queue, w);
       from.Some? ==> from.value < |s.producers| && FirstOf(s.submit, s.producers[from.value]) < |s.submit|
  }

  /** The packet goes where its opaque pointer says. */
  function ReturnStep(s: State, w: Wid): State
    requires w < |s.writers| && s.writers[w].Returning?
    requires s.writers[w].ids != [] ==>
               var id := s.writers[w].ids[0]; id < |s.packets| == |s.place| && s.packets[id].opaque_ in s.reap
  {
    var Returning(ids, ok) := s.writers[w];
    if ids == [] then s.(writers := s.writers[w := Looking])
    else
      var id := ids[0];
      var a := s.packets[id].opaque_;
      s.(writers := s.writers[w := Returning(ids[1..], ok)], reap := s.reap[a := s.reap[a] + {id}],
         packets := s.packets[id := s.packets[id].(dstOrRc := if ok then 0 else 1)],
         place := Relocate(s.place, {id}, Reapable(a)))
  }

  function ReapStep(s: State, a: Aid, ids: set<Id>): State
    requires a in s.reap && a in s.reaped
  {
    s.(reap := s.reap[a := s.reap[a] - ids], reaped := s.reaped[a := s.reaped[a] + ids],
       place := Relocate(s.place, ids, Reaped(a)))
  }

  predicate HasEndPoint(s: State, key: Key) {
    key in s.bundles && key in s.passed && key in s.deposited && key.a in s.reap
  }

  predicate Enabled(s: State, a: Action) {
    match a
    case Begin(a) => !s.shuttingDown && a !in s.calling && a in s.reap          // comms_submit's gate
    case Submit(a, packet, ok) => a in s.calling && HasEndPoint(s, Key(a, packet.dstOrRc))
    case Flush(a, dst, ok) => a in s.calling && HasEndPoint(s, Key(a, dst))
    case End(a) => a in s.calling
    case Dequeue(w, ok) => w < |s.writers| && (s.writers[w].Looking? || s.writers[w].Dequeuing?) && CanDequeue(s, w)
    case Return(w) =>
      && w < |s.writers| && s.writers[w].Returning?
      && (s.writers[w].ids != [] ==>
            s.writers[w].ids[0] < |s.packets| == |s.place| && s.packets[s.writers[w].ids[0]].opaque_ in s.reap)
    case Check(w) => w < |s.writers| && s.writers[w].Missed?
    case Reap(a, ids) => a in s.reap && a in s.reaped && ids <= s.reap[a]
    case Shutdown => !s.shuttingDown
    case Stop => s.shuttingDown && s.stopping < |s.writers| && (s.stopping > 0 ==> s.writers[s.stopping - 1].Exited?)
  }

  function Step(s: State, a: Action): State
    requires Enabled(s, a)
  {
    match a
    case Begin(a) => s.(calling := s.calling + {a})
    case Submit(a, packet, ok) => SubmitStep(s, Key(a, packet.dstOrRc), packet, ok)
    case Flush(a, dst, ok) => DepositStep(s, Key(a, dst), ok)
    case End(a) => s.(calling := s.calling - {a})
    case Dequeue(w, ok) => DequeueStep(s, w, ok)
    case Return(w) => ReturnStep(s, w)
    case Check(w) => s.(writers := s.writers[w := if w < s.stopping then Exited else Looking])
    case Reap(a, ids) => ReapStep(s, a, ids)
    case Shutdown => s.(shuttingDown := true, clean := s.calling == {})
    case Stop => s.(stopping := s.stopping + 1)
  }

  // ---------------------------------------------------------------- invariant

  predicate Distinct(ids: seq<Id>) { forall i, j :: 0 <= i < j < |ids| ==> ids[i] != ids[j] }

  /** This list holds, once each, just the packets that are at p. */
  predicate Lists(place: seq<Place>, ids: seq<Id>, p: Place) {
    && Distinct(ids)
    && (forall i :: 0 <= i < |ids| ==> ids[i] < |place| && place[ids[i]] == p)
    && (forall id :: 0 <= id < |place| && place[id] == p ==> id in ids)
  }

  ghost predicate Gathers(place: seq<Place>, ids: set<Id>, p: Place) {
    forall id: Id :: id in ids <==> id < |place| && place[id] == p
  }

  /** The place a packet is said to be at exists. */
  predicate PlaceExists(s: State, p: Place) {
    match p
    case InBundle(key) => key in s.bundles
    case Submitted(k) => exists i :: 0 <= i < |s.submit| && s.submit[i].serial == k
    case AtWriter(w) => w < |s.writers| && s.writers[w].Returning?
    case Reapable(a) => a in s.reap
    case Reaped(a) => a in s.reaped
  }

  /** A packet keeps its contents and comes back to the accessor that submitted it. */
  predicate PacketOk(s: State, id: Id)
    requires id < |s.packets| && id < |s.given| && id < |s.owner| && id < |s.place|
  {
    var p, g := s.packets[id], s.given[id];
    && p.size == g.size && p.tag == g.tag && p.payload == g.payload
    && match s.place[id] {
         case InBundle(key) => key.a == s.owner[id] && key.dst == g.dstOrRc && p == g
         case Submitted(_) => p.opaque_ == s.owner[id] && s.owner[id] in s.reap
         case AtWriter(_) => p.opaque_ == s.owner[id] && s.owner[id] in s.reap
         case Reapable(a) => a == s.owner[id] && p.dstOrRc in {0, 1}
         case Reaped(a) => a == s.owner[id] && p.dstOrRc in {0, 1}
       }
  }

  predicate LoadOk(s: State, i: nat)
    requires i < |s.submit|
  {
    Lists(s.place, s.submit[i].ids, Submitted(s.submit[i].serial)) && s.submit[i].serial < s.serials
  }

  predicate WriterOk(s: State, w: Wid)
    requires w < |s.writers|
  {
    s.writers[w].Returning? ==> Lists(s.place, s.writers[w].ids, AtWriter(w))
  }

  predicate KeyOk(s: State, key: Key)
    requires key in s.bundles
  {
    && HasEndPoint(s, key)
    && Lists(s.place, s.bundles[key], InBundle(key)) && |s.bundles[key]| < COMMS_BUNDLE_SIZE
    && s.deposited[key] + s.bundles[key] == s.passed[key]
  }

  ghost predicate AccessorOk(s: State, a: Aid)
    requires a in s.reap
  {
    a in s.reaped && Gathers(s.place, s.reap[a], Reapable(a)) && Gathers(s.place, s.reaped[a], Reaped(a))
  }

  /** Every packet is in one place, and that place holds it. */
  ghost predicate PlacesOk(s: State) {
    && |s.packets| == |s.given| == |s.owner| == |s.place|
    && (forall key :: key in s.bundles ==> KeyOk(s, key))
    && (forall i :: 0 <= i < |s.submit| ==> LoadOk(s, i))
    && (forall i, j :: 0 <= i < j < |s.submit| ==> s.submit[i].serial != s.submit[j].serial)
    && (forall w :: 0 <= w < |s.writers| ==> WriterOk(s, w))
    && (forall a :: a in s.reap <==> a in s.reaped)
    && (forall a :: a in s.reap ==> AccessorOk(s, a))
    && (forall id :: 0 <= id < |s.place| ==> PlaceExists(s, s.place[id]) && PacketOk(s, id))
  }

  ghost predicate ShutdownOk(s: State) {
    && (forall w :: 0 <= w < |s.writers| && s.writers[w].Exited? ==> w < s.stopping)
    && (s.stopping > 0 ==> s.shuttingDown) && s.stopping <= |s.writers|
    && (forall w :: 0 <= w < s.stopping - 1 ==> s.writers[w].Exited?)
    && (s.shuttingDown && s.clean ==> s.calling == {})
  }

  predicate Ascending(ids: seq<Id>) { forall i, j :: 0 <= i < j < |ids| ==> ids[i] < ids[j] }

  predicate Before(a: seq<Id>, b: seq<Id>) { forall i, j :: 0 <= i < |a| && 0 <= j < |b| ==> a[i] < b[j] }

  function KeyOf(load: Load): Key { Key(load.owner, load.dst) }

  /** The packets of one accessor for one end point are in the order in which they were submitted: within each bundle,
      from one bundle in the submit queue to the next, and from there to the bundle being filled. */
  predicate OrderOk(s: State) {
    && (forall key :: key in s.bundles ==> Ascending(s.bundles[key]))
    && (forall i :: 0 <= i < |s.submit| ==> Ascending(s.submit[i].ids))
    && (forall i, j :: 0 <= i < j < |s.submit| && KeyOf(s.submit[i]) == KeyOf(s.submit[j]) ==>
          Before(s.submit[i].ids, s.submit[j].ids))
    && (forall i :: 0 <= i < |s.submit| && KeyOf(s.submit[i]) in s.bundles ==>
          Before(s.submit[i].ids, s.bundles[KeyOf(s.submit[i])]))
    && (forall i, j :: 0 <= i < |s.submit| && 0 <= j < |s.submit[i].ids| ==> s.submit[i].ids[j] < |s.given|)
    && (forall key, j :: key in s.bundles && 0 <= j < |s.bundles[key]| ==> s.bundles[key][j] < |s.given|)
  }

  /** Accessor a's bundles in the submit queue. */
  function Of(submit: seq<Load>, a: Aid): seq<Load> {
    if submit == [] then []
    else (if submit[0].owner == a then [submit[0]] else []) + Of(submit[1..], a)
  }

  /** What has been enqueued in a sub-queue and not been claimed. */
  function Unclaimed(sub: Sub.State<Load>): seq<Load> {
    if sub.head <= |sub.items| then sub.items[sub.head..] else []
  }

  /** Accessor producers[p]'s bundles are what the p-th sub-queue of the submit queue holds. */
  predicate SubQueueOk(s: State, p: nat)
    requires p < |s.producers| && p < |s.queue.subs|
  {
    Unclaimed(s.queue.subs[p]) == Of(s.submit, s.producers[p])
  }

  predicate DistinctProducers(producers: seq<Aid>) {
    forall p, q :: 0 <= p < q < |producers| ==> producers[p] != producers[q]
  }

  /** The writers dequeue from what the accessors have deposited. */
  ghost predicate QueueOk(s: State) {
    && Queue.Inv(s.queue) && |s.producers| == |s.queue.subs| && DistinctProducers(s.producers)
    && (forall w :: w in s.queue.walks <==> 0 <= w < |s.writers|)
    && (forall w :: 0 <= w < |s.writers| ==> (s.writers[w].Dequeuing? <==> !s.queue.walks[w].Out?))
    && (forall i :: 0 <= i < |s.submit| ==> s.submit[i].owner in s.producers)
    && (forall p :: 0 <= p < |s.producers| ==> SubQueueOk(s, p))
  }

  ghost predicate Inv(s: State) { PlacesOk(s) && ShutdownOk(s) && OrderOk(s) && QueueOk(s) }

  predicate AllExited(s: State) { forall w :: 0 <= w < |s.writers| ==> s.writers[w].Exited? }

  // ---------------------------------------------------------------- preservation

  lemma ListStays(place: seq<Place>, moved: set<Id>, q: Place, ids: seq<Id>, p: Place)
    requires Lists(place, ids, p) && p != q && forall id :: id in moved && id < |place| ==> place[id] != p
    ensures Lists(Relocate(place, moved, q), ids, p)
  {
  }

  lemma GatherStays(place: seq<Place>, moved: set<Id>, q: Place, ids: set<Id>, p: Place)
    requires Gathers(place, ids, p) && p != q && forall id :: id in moved && id < |place| ==> place[id] != p
    ensures Gathers(Relocate(place, moved, q), ids, p)
  {
  }

  /** The packets of a list move, all of them, to where no packet was. */
  lemma ListMoves(place: seq<Place>, ids: seq<Id>, p: Place, q: Place)
    requires Lists(place, ids, p) && p != q
    ensures Lists(Relocate(place, Ids(ids), q), [], p)
    ensures (forall id :: 0 <= id < |place| ==> place[id] != q) ==> Lists(Relocate(place, Ids(ids), q), ids, q)
  {
  }

  lemma GatherGrows(place: seq<Place>, moved: set<Id>, q: Place, ids: set<Id>)
    requires Gathers(place, ids, q) && forall id :: id in moved ==> id < |place|
    ensures Gathers(Relocate(place, moved, q), ids + moved, q)
  {
  }

  lemma GatherShrinks(place: seq<Place>, moved: set<Id>, q: Place, ids: set<Id>, p: Place)
    requires Gathers(place, ids, p) && moved <= ids && p != q
    ensures Gathers(Relocate(place, moved, q), ids - moved, p)
  {
  }

  /** Packets move from place p to q, where nothing else is listed. What is left for a step to show is what it
      does to the components at p and q. */
  ghost predicate Moves(s: State, s': State, moved: set<Id>, p: Place, q: Place) {
    && p != q && s'.place == Relocate(s.place, moved, q)
    && |s'.packets| == |s.packets| && s'.given == s.given && s'.owner == s.owner
    && (forall id :: id in moved ==> id < |s.place| && s.place[id] == p)
    && (forall id :: 0 <= id < |s.packets| && id !in moved ==> s'.packets[id] == s.packets[id])
    && s'.bundles.Keys == s.bundles.Keys && s'.passed == s.passed && s'.deposited.Keys == s.deposited.Keys
    && s'.reap.Keys == s.reap.Keys && s'.reaped.Keys == s.reaped.Keys
    && |s'.writers| == |s.writers|
  }

  lemma KeyKept(s: State, s': State, moved: set<Id>, p: Place, q: Place, key: Key)
    requires Moves(s, s', moved, p, q) && key in s.bundles && KeyOk(s, key) && p != InBundle(key) && q != InBundle(key)
    requires s'.bundles[key] == s.bundles[key] && s'.deposited[key] == s.deposited[key]
    ensures key in s'.bundles && KeyOk(s', key)
  {
    ListStays(s.place, moved, q, s.bundles[key], InBundle(key));
  }

  lemma LoadKept(s: State, s': State, moved: set<Id>, p: Place, q: Place, i: nat, i': nat)
    requires Moves(s, s', moved, p, q) && i < |s.submit| && LoadOk(s, i)
    requires p != Submitted(s.submit[i].serial) && q != Submitted(s.submit[i].serial)
    requires i' < |s'.submit| && s'.submit[i'] == s.submit[i] && s.serials <= s'.serials
    ensures LoadOk(s', i')
  {
    ListStays(s.place, moved, q, s.submit[i].ids, Submitted(s.submit[i].serial));
  }

  lemma WriterKept(s: State, s': State, moved: set<Id>, p: Place, q: Place, w: Wid)
    requires Moves(s, s', moved, p, q) && w < |s.writers| && WriterOk(s, w) && p != AtWriter(w) && q != AtWriter(w)
    requires s'.writers[w] == s.writers[w]
    ensures WriterOk(s', w)
  {
    if s.writers[w].Returning? {
      ListStays(s.place, moved, q, s.writers[w].ids, AtWriter(w));
    }
  }

  lemma AccessorKept(s: State, s': State, moved: set<Id>, p: Place, q: Place, a: Aid)
    requires Moves(s, s', moved, p, q) && a in s.reap && AccessorOk(s, a)
    requires p != Reapable(a) && q != Reapable(a) && p != Reaped(a) && q != Reaped(a)
    requires s'.reap[a] == s.reap[a] && a in s.reaped && s'.reaped[a] == s.reaped[a]
    ensures a in s'.reap && AccessorOk(s', a)
  {
    GatherStays(s.place, moved, q, s.reap[a], Reapable(a));
    GatherStays(s.place, moved, q, s.reaped[a], Reaped(a));
  }

  /** Passing a packet to submit_n. */
  lemma AddKeepsPlaces(s: State, key: Key, packet: Packet)
    requires PlacesOk(s) && key in s.bundles && key.dst == packet.dstOrRc && key.a in s.reap
    ensures HasEndPoint(s, key)
    ensures var s' := AddStep(s, key, packet);
            && (forall k :: k in s'.bundles && k != key ==> KeyOk(s', k))
            && HasEndPoint(s', key) && Lists(s'.place, s'.bundles[key], InBundle(key))
            && |s'.bundles[key]| <= COMMS_BUNDLE_SIZE && s'.deposited[key] + s'.bundles[key] == s'.passed[key]
            && (|s'.bundles[key]| < COMMS_BUNDLE_SIZE ==> PlacesOk(s'))
            && RestOk(s')
  {
    assert KeyOk(s, key);
    var s' := AddStep(s, key, packet);
    AddedBundles(s, s', key, packet);
    AddedOthers(s, s', key, packet);
  }

  /** Everything but the bundles. */
  ghost predicate RestOk(s: State) {
    && |s.packets| == |s.given| == |s.owner| == |s.place|
    && (forall i :: 0 <= i < |s.submit| ==> LoadOk(s, i))
    && (forall i, j :: 0 <= i < j < |s.submit| ==> s.submit[i].serial != s.submit[j].serial)
    && (forall w :: 0 <= w < |s.writers| ==> WriterOk(s, w))
    && (forall a :: a in s.reap <==> a in s.reaped)
    && (forall a :: a in s.reap ==> AccessorOk(s, a))
    && (forall id :: 0 <= id < |s.place| ==> PlaceExists(s, s.place[id]) && PacketOk(s, id))
  }

  lemma AddedBundles(s: State, s': State, key: Key, packet: Packet)
    requires PlacesOk(s) && key in s.bundles && KeyOk(s, key) && s' == AddStep(s, key, packet)
    ensures forall k :: k in s'.bundles && k != key ==> KeyOk(s', k)
    ensures HasEndPoint(s', key) && Lists(s'.place, s'.bundles[key], InBundle(key))
    ensures |s'.bundles[key]| <= COMMS_BUNDLE_SIZE && s'.deposited[key] + s'.bundles[key] == s'.passed[key]
  {
    forall k | k in s'.bundles && k != key ensures KeyOk(s', k) {
      assert KeyOk(s, k);
      ListBeside(s.place, s.bundles[k], InBundle(k), InBundle(key));
    }
    ListAdds(s.place, s.bundles[key], InBundle(key));
  }

  lemma ListBeside(place: seq<Place>, ids: seq<Id>, p: Place, q: Place)
    requires Lists(place, ids, p) && p != q
    ensures Lists(place + [q], ids, p)
  {
  }

  lemma ListAdds(place: seq<Place>, ids: seq<Id>, p: Place)
    requires Lists(place, ids, p)
    ensures Lists(place + [p], ids + [|place|], p)
  {
    assert (ids + [|place|])[|ids|] == |place|;
    forall id | 0 <= id < |place| && place[id] == p ensures id in ids + [|place|] {
      assert id in ids;
    }
  }

  lemma GatherBeside(place: seq<Place>, ids: set<Id>, p: Place, q: Place)
    requires Gathers(place, ids, p) && p != q
    ensures Gathers(place + [q], ids, p)
  {
  }

  lemma AddedOthers(s: State, s': State, key: Key, packet: Packet)
    requires PlacesOk(s) && key in s.bundles && KeyOk(s, key) && s' == AddStep(s, key, packet)
             && key.dst == packet.dstOrRc
    ensures RestOk(s')
  {
    hide Lists, Gathers;
    forall i | 0 <= i < |s'.submit| ensures LoadOk(s', i) {
      assert LoadOk(s, i);
      ListBeside(s.place, s.submit[i].ids, Submitted(s.submit[i].serial), InBundle(key));
    }
    forall w | 0 <= w < |s'.writers| ensures WriterOk(s', w) {
      assert WriterOk(s, w);
      if s.writers[w].Returning? {
        ListBeside(s.place, s.writers[w].ids, AtWriter(w), InBundle(key));
      }
    }
    forall a | a in s'.reap ensures AccessorOk(s', a) {
      assert AccessorOk(s, a);
      GatherBeside(s.place, s.reap[a], Reapable(a), InBundle(key));
      GatherBeside(s.place, s.reaped[a], Reaped(a), InBundle(key));
    }
    forall id | 0 <= id < |s'.place| ensures PlaceExists(s', s'.place[id]) && PacketOk(s', id) {
      if id < |s.place| {
        assert PlaceExists(s, s.place[id]) && PacketOk(s, id);
      }
    }
  }

  /** What a deposit needs of the bundle, which may be full, and of everything else. */
  ghost predicate BeforeDeposit(s: State, key: Key) {
    && HasEndPoint(s, key) && Lists(s.place, s.bundles[key], InBundle(key))
    && |s.bundles[key]| <= COMMS_BUNDLE_SIZE && s.deposited[key] + s.bundles[key] == s.passed[key]
    && (forall k :: k in s.bundles && k != key ==> KeyOk(s, k))
    && RestOk(s)
  }

  function DepositPlace(s: State, key: Key, ok: bool): Place {
    if ok then Submitted(s.serials) else Reapable(key.a)
  }

  lemma DepositMoves(s: State, key: Key, ok: bool)
    requires BeforeDeposit(s, key)
    ensures var s' := DepositStep(s, key, ok);
            Moves(s, s', Ids(s.bundles[key]), InBundle(key), DepositPlace(s, key, ok))
              && Lists(s'.place, [], InBundle(key))
  {
    BundleMoves(s, key, ok);
    hide RestOk, KeyOk;
    ListMoves(s.place, s.bundles[key], InBundle(key), DepositPlace(s, key, ok));
  }

  lemma BundleMoves(s: State, key: Key, ok: bool)
    requires BeforeDeposit(s, key)
    ensures Moves(s, DepositStep(s, key, ok), Ids(s.bundles[key]), InBundle(key), DepositPlace(s, key, ok))
  {
    hide RestOk, KeyOk, Lists, Ids, Relocate, Address, Enqueued, Entered, DepositLoads;
    FromList(s.place, s.bundles[key], InBundle(key));
    SameLengths(s, key);
    var s' := DepositStep(s, key, ok);
    var q := DepositPlace(s, key, ok);
    assert HasEndPoint(s, key);
    hide BeforeDeposit;
    assert s'.packets == Address(s.packets, Ids(s.bundles[key]), key.a, ok);
    assert s'.place == Relocate(s.place, Ids(s.bundles[key]), q);
    assert s'.bundles.Keys == s.bundles.Keys && s'.deposited.Keys == s.deposited.Keys && s'.reap.Keys == s.reap.Keys;
  }

  lemma FromList(place: seq<Place>, ids: seq<Id>, p: Place)
    requires Lists(place, ids, p)
    ensures forall id :: id in Ids(ids) ==> id < |place| && place[id] == p
  {
  }

  lemma SameLengths(s: State, key: Key)
    requires BeforeDeposit(s, key)
    ensures |s.packets| == |s.place|
  {
  }

  lemma DepositKeepsPlaces(s: State, key: Key, ok: bool)
    requires BeforeDeposit(s, key)
    ensures PlacesOk(DepositStep(s, key, ok))
  {
    hide Lists, Gathers, PacketOk, PlaceExists, Moves, KeyOk, LoadOk, AccessorOk, Relocate, Address;
    var s' := DepositStep(s, key, ok);
    var q := DepositPlace(s, key, ok);
    DepositMoves(s, key, ok);
    forall k | k in s'.bundles ensures KeyOk(s', k) {
      DepositKey(s, s', key, ok, q, k);
    }
    DepositedLoads(s, s', key, ok, q);
    DepositReap(s, s', key, ok, q);
    DepositPackets(s, s', key, ok, q);
    forall w | 0 <= w < |s'.writers| ensures WriterOk(s', w) {
      WriterKept(s, s', Ids(s.bundles[key]), InBundle(key), q, w);
    }
  }

  lemma DepositKey(s: State, s': State, key: Key, ok: bool, q: Place, k: Key)
    requires BeforeDeposit(s, key) && s' == DepositStep(s, key, ok) && !q.InBundle?
    requires Moves(s, s', Ids(s.bundles[key]), InBundle(key), q) && Lists(s'.place, [], InBundle(key))
    requires k in s.bundles
    ensures KeyOk(s', k)
  {
    hide RestOk;
    if k != key {
      hide Moves;
      KeyKept(s, s', Ids(s.bundles[key]), InBundle(key), q, k);
    } else {
      hide Lists;
      assert s'.deposited[k] + [] == s'.deposited[k];
    }
  }

  lemma NobodyThere(s: State, key: Key)
    requires BeforeDeposit(s, key)
    ensures forall id :: 0 <= id < |s.place| ==> s.place[id] != Submitted(s.serials)
  {
    forall id | 0 <= id < |s.place| ensures s.place[id] != Submitted(s.serials) {
      assert PlaceExists(s, s.place[id]);
      if s.place[id].Submitted? {
        var i :| 0 <= i < |s.submit| && s.submit[i].serial == s.place[id].serial;
        assert LoadOk(s, i);
      }
    }
  }

  lemma DepositedLoads(s: State, s': State, key: Key, ok: bool, q: Place)
    requires BeforeDeposit(s, key) && s' == DepositStep(s, key, ok) && q == DepositPlace(s, key, ok)
    requires Moves(s, s', Ids(s.bundles[key]), InBundle(key), q)
    ensures forall i :: 0 <= i < |s'.submit| ==> LoadOk(s', i)
    ensures forall i, j :: 0 <= i < j < |s'.submit| ==> s'.submit[i].serial != s'.submit[j].serial
  {
    NobodyThere(s, key);
    ListMoves(s.place, s.bundles[key], InBundle(key), q);
    forall i | 0 <= i < |s.submit| ensures LoadOk(s, i) && s.submit[i].serial < s.serials {
    }
    hide Lists, PacketOk, PlaceExists, AccessorOk, KeyOk, WriterOk, Moves, Relocate, Address;
    forall i | 0 <= i < |s'.submit| ensures LoadOk(s', i) {
      if i < |s.submit| {
        LoadKept(s, s', Ids(s.bundles[key]), InBundle(key), q, i, i);
      }
    }
  }

  lemma DepositReap(s: State, s': State, key: Key, ok: bool, q: Place)
    requires BeforeDeposit(s, key) && s' == DepositStep(s, key, ok)
    requires q == DepositPlace(s, key, ok)
    requires Moves(s, s', Ids(s.bundles[key]), InBundle(key), q)
    ensures forall a :: a in s'.reap ==> AccessorOk(s', a)
  {
    hide PacketOk, PlaceExists;
    var moved := Ids(s.bundles[key]);
    forall a | a in s'.reap ensures AccessorOk(s', a) {
      assert AccessorOk(s, a);
      if !ok && a == key.a {
        GatherGrows(s.place, moved, q, s.reap[a]);
        GatherStays(s.place, moved, q, s.reaped[a], Reaped(a));
      } else {
        AccessorKept(s, s', moved, InBundle(key), q, a);
      }
    }
  }

  lemma DepositPackets(s: State, s': State, key: Key, ok: bool, q: Place)
    requires BeforeDeposit(s, key) && s' == DepositStep(s, key, ok)
    requires q == DepositPlace(s, key, ok)
    requires Moves(s, s', Ids(s.bundles[key]), InBundle(key), q)
    ensures forall id :: 0 <= id < |s'.place| ==> PlaceExists(s', s'.place[id]) && PacketOk(s', id)
  {
    forall id | 0 <= id < |s'.place| ensures PlaceExists(s', s'.place[id]) && PacketOk(s', id) {
      assert PlaceExists(s, s.place[id]) && PacketOk(s, id);
      if id in Ids(s.bundles[key]) {
        assert ok ==> s'.submit[|s.submit|].serial == s.serials;
      } else if s.place[id].Submitted? {
        var i :| 0 <= i < |s.submit| && s.submit[i].serial == s.place[id].serial;
        assert s'.submit[i] == s.submit[i];
      }
    }
  }

  /** A writer takes a bundle. */
  lemma TakeKeepsPlaces(s: State, w: Wid, i: nat, ok: bool)
    requires PlacesOk(s) && w < |s.writers| && !s.writers[w].Returning? && i < |s.submit|
    ensures PlacesOk(TakeStep(s, w, i, ok))
  {
    var s' := TakeStep(s, w, i, ok);
    var moved, p, q := Ids(s.submit[i].ids), Submitted(s.submit[i].serial), AtWriter(w);
    assert LoadOk(s, i);
    NobodyAtWriter(s, w);
    ListMoves(s.place, s.submit[i].ids, p, q);
    assert Moves(s, s', moved, p, q);
    forall j | 0 <= j < |s.submit| ensures LoadOk(s, j) {
    }
    hide Lists, PacketOk, PlaceExists, Moves, Relocate, Gathers;
    forall k | k in s'.bundles ensures KeyOk(s', k) {
      KeyKept(s, s', moved, p, q, k);
    }
    forall j | 0 <= j < |s'.submit| ensures LoadOk(s', j) {
      LoadKept(s, s', moved, p, q, if j < i then j else j + 1, j);
    }
    forall v | 0 <= v < |s'.writers| ensures WriterOk(s', v) {
      if v != w {
        WriterKept(s, s', moved, p, q, v);
      }
    }
    forall a | a in s'.reap ensures AccessorOk(s', a) {
      AccessorKept(s, s', moved, p, q, a);
    }
    TakePackets(s, s', w, i, ok);
  }

  lemma NobodyAtWriter(s: State, w: Wid)
    requires PlacesOk(s) && w < |s.writers| && !s.writers[w].Returning?
    ensures forall id :: 0 <= id < |s.place| ==> s.place[id] != AtWriter(w)
  {
    forall id | 0 <= id < |s.place| ensures s.place[id] != AtWriter(w) {
      assert PlaceExists(s, s.place[id]);
    }
  }

  lemma TakePackets(s: State, s': State, w: Wid, i: nat, ok: bool)
    requires PlacesOk(s) && w < |s.writers| && !s.writers[w].Returning? && i < |s.submit| && s' == TakeStep(s, w, i, ok)
    ensures forall id :: 0 <= id < |s'.place| ==> PlaceExists(s', s'.place[id]) && PacketOk(s', id)
  {
    assert LoadOk(s, i);
    forall id | 0 <= id < |s'.place| ensures PlaceExists(s', s'.place[id]) && PacketOk(s', id) {
      assert PlaceExists(s, s.place[id]) && PacketOk(s, id);
      if id !in Ids(s.submit[i].ids) && s.place[id].Submitted? {
        var j :| 0 <= j < |s.submit| && s.submit[j].serial == s.place[id].serial;
        assert s'.submit[if j < i then j else j - 1] == s.submit[j];
      }
    }
  }

  /** A writer returns one packet. */
  lemma ReturnOneKeepsPlaces(s: State, w: Wid)
    requires PlacesOk(s) && Enabled(s, Return(w)) && s.writers[w].ids != []
    ensures PlacesOk(ReturnStep(s, w))
  {
    ReturnMoves(s, w);
    ReturnPackets(s, w);
    ReturnReap(s, w);
    hide Lists, PacketOk, PlaceExists, Moves, Relocate, Gathers, AccessorOk, Enabled;
    var s' := ReturnStep(s, w);
    var id := s.writers[w].ids[0];
    var p, q := AtWriter(w), Reapable(s.packets[id].opaque_);
    forall k | k in s'.bundles ensures KeyOk(s', k) {
      KeyKept(s, s', {id}, p, q, k);
    }
    forall j | 0 <= j < |s'.submit| ensures LoadOk(s', j) {
      LoadKept(s, s', {id}, p, q, j, j);
    }
    forall v | 0 <= v < |s'.writers| ensures WriterOk(s', v) {
      if v != w {
        WriterKept(s, s', {id}, p, q, v);
      }
    }
  }

  lemma ReturnReap(s: State, w: Wid)
    requires PlacesOk(s) && Enabled(s, Return(w)) && s.writers[w].ids != []
    ensures var s' := ReturnStep(s, w); forall a :: a in s'.reap ==> AccessorOk(s', a)
  {
    ReturnMoves(s, w);
    assert forall a :: a in s.reap ==> AccessorOk(s, a);
    hide PlacesOk, AccessorOk, Moves, Enabled, Relocate;
    var s' := ReturnStep(s, w);
    forall a | a in s'.reap ensures AccessorOk(s', a) {
      ReturnAccessor(s, s', w, a);
    }
  }

  lemma ReturnAccessor(s: State, s': State, w: Wid, a: Aid)
    requires w < |s.writers| && s.writers[w].Returning? && s.writers[w].ids != []
    requires var id := s.writers[w].ids[0]; id < |s.packets| == |s.place| && s.packets[id].opaque_ in s.reap
    requires s' == ReturnStep(s, w) && a in s.reap && AccessorOk(s, a)
    requires var id := s.writers[w].ids[0]; Moves(s, s', {id}, AtWriter(w), Reapable(s.packets[id].opaque_))
    ensures a in s'.reap && AccessorOk(s', a)
  {
    var id := s.writers[w].ids[0];
    var p, q := AtWriter(w), Reapable(s.packets[id].opaque_);
    if a == q.a {
      GatherGrows(s.place, {id}, q, s.reap[a]);
      GatherStays(s.place, {id}, q, s.reaped[a], Reaped(a));
      hide Gathers, Relocate;
    } else {
      AccessorKept(s, s', {id}, p, q, a);
    }
  }

  lemma ReturnMoves(s: State, w: Wid)
    requires PlacesOk(s) && Enabled(s, Return(w)) && s.writers[w].ids != []
    ensures var s', id := ReturnStep(s, w), s.writers[w].ids[0];
            && Moves(s, s', {id}, AtWriter(w), Reapable(s.packets[id].opaque_))
            && s.place[id] == AtWriter(w) && WriterOk(s', w)
  {
    hide KeyOk, LoadOk, AccessorOk, PacketOk, PlaceExists;
    assert WriterOk(s, w);
    var s' := ReturnStep(s, w);
    var ids := s.writers[w].ids;
    forall id | 0 <= id < |s'.place| && s'.place[id] == AtWriter(w) ensures id in ids[1..] {
      assert id in ids;
    }
  }

  lemma ReturnPackets(s: State, w: Wid)
    requires PlacesOk(s) && Enabled(s, Return(w)) && s.writers[w].ids != []
    ensures var s' := ReturnStep(s, w);
            forall id :: 0 <= id < |s'.place| ==> PlaceExists(s', s'.place[id]) && PacketOk(s', id)
  {
    assert WriterOk(s, w);
    ReturnMoves(s, w);
    hide PlaceExists, PacketOk, Moves, WriterOk, KeyOk, LoadOk, AccessorOk;
    var s' := ReturnStep(s, w);
    forall id | 0 <= id < |s'.place| ensures PlaceExists(s', s'.place[id]) && PacketOk(s', id) {
      assert PlaceExists(s, s.place[id]) && PacketOk(s, id);
      ReturnPlaceAt(s, w, id);
      ReturnPacketAt(s, w, id);
    }
  }

  ghost predicate BeforeReturn(s: State, w: Wid) {
    && |s.packets| == |s.given| == |s.owner| == |s.place|
    && w < |s.writers| && s.writers[w].Returning? && s.writers[w].ids != []
    && s.writers[w].ids[0] < |s.place| && s.packets[s.writers[w].ids[0]].opaque_ in s.reap
    && s.place[s.writers[w].ids[0]] == AtWriter(w)
  }

  lemma ReturnPlaceAt(s: State, w: Wid, id: Id)
    requires BeforeReturn(s, w) && id < |s.place| && PlaceExists(s, s.place[id])
    ensures var s' := ReturnStep(s, w); id < |s'.place| && PlaceExists(s', s'.place[id])
  {
  }

  lemma ReturnPacketAt(s: State, w: Wid, id: Id)
    requires BeforeReturn(s, w) && id < |s.place| && PacketOk(s, id)
    ensures var s' := ReturnStep(s, w);
            id < |s'.place| == |s'.packets| == |s'.given| == |s'.owner| && PacketOk(s', id)
  {
  }

  lemma LookKeepsPlaces(s: State, w: Wid)
    requires PlacesOk(s) && w < |s.writers| && s.writers[w].Returning? && s.writers[w].ids == []
    ensures PlacesOk(ReturnStep(s, w))
  {
    var s' := ReturnStep(s, w);
    assert WriterOk(s, w);
    forall k | k in s'.bundles ensures KeyOk(s', k) {
      assert KeyOk(s, k);
    }
    forall j | 0 <= j < |s'.submit| ensures LoadOk(s', j) {
      assert LoadOk(s, j);
    }
    forall v | 0 <= v < |s'.writers| ensures WriterOk(s', v) {
      assert WriterOk(s, v);
    }
    forall a | a in s'.reap ensures AccessorOk(s', a) {
      assert AccessorOk(s, a);
    }
    forall id | 0 <= id < |s'.place| ensures PlaceExists(s', s'.place[id]) && PacketOk(s', id) {
      assert PlaceExists(s, s.place[id]) && PacketOk(s, id);
    }
  }

  /** An accessor reaps. */
  lemma ReapKeepsPlaces(s: State, a: Aid, ids: set<Id>)
    requires PlacesOk(s) && a in s.reap && a in s.reaped && ids <= s.reap[a]
    ensures PlacesOk(ReapStep(s, a, ids))
  {
    var s' := ReapStep(s, a, ids);
    var p, q := Reapable(a), Reaped(a);
    assert AccessorOk(s, a);
    assert Moves(s, s', ids, p, q);
    ReapPackets(s, a, ids);
    GatherShrinks(s.place, ids, q, s.reap[a], p);
    GatherGrows(s.place, ids, q, s.reaped[a]);
    hide Lists, PacketOk, PlaceExists, Moves, Relocate;
    forall k | k in s'.bundles ensures KeyOk(s', k) {
      KeyKept(s, s', ids, p, q, k);
    }
    forall j | 0 <= j < |s'.submit| ensures LoadOk(s', j) {
      LoadKept(s, s', ids, p, q, j, j);
    }
    forall v | 0 <= v < |s'.writers| ensures WriterOk(s', v) {
      WriterKept(s, s', ids, p, q, v);
    }
    forall b | b in s'.reap ensures AccessorOk(s', b) {
      if b != a {
        AccessorKept(s, s', ids, p, q, b);
      }
    }
  }

  lemma ReapPackets(s: State, a: Aid, ids: set<Id>)
    requires PlacesOk(s) && a in s.reap && a in s.reaped && ids <= s.reap[a]
    ensures var s' := ReapStep(s, a, ids);
            forall id :: 0 <= id < |s'.place| ==> PlaceExists(s', s'.place[id]) && PacketOk(s', id)
  {
    var s' := ReapStep(s, a, ids);
    assert AccessorOk(s, a);
    forall id | 0 <= id < |s'.place| ensures PlaceExists(s', s'.place[id]) && PacketOk(s', id) {
      assert PlaceExists(s, s.place[id]) && PacketOk(s, id);
    }
  }

  /** A step that moves no packet. */
  lemma QuietKeepsPlaces(s: State, s': State)
    requires PlacesOk(s)
    requires s' == s.(calling := s'.calling, shuttingDown := s'.shuttingDown, clean := s'.clean,
                      stopping := s'.stopping, writers := s'.writers, queue := s'.queue) && |s'.writers| == |s.writers|
    requires forall w :: 0 <= w < |s.writers| && (s.writers[w].Returning? || s'.writers[w].Returning?) ==>
               s'.writers[w] == s.writers[w]
    ensures PlacesOk(s')
  {
    forall k | k in s'.bundles ensures KeyOk(s', k) {
      assert KeyOk(s, k);
    }
    forall j | 0 <= j < |s'.submit| ensures LoadOk(s', j) {
      assert LoadOk(s, j);
    }
    forall v | 0 <= v < |s'.writers| ensures WriterOk(s', v) {
      assert WriterOk(s, v);
    }
    forall a | a in s'.reap ensures AccessorOk(s', a) {
      assert AccessorOk(s, a);
    }
    forall id | 0 <= id < |s'.place| ensures PlaceExists(s', s'.place[id]) && PacketOk(s', id) {
      assert PlaceExists(s, s.place[id]) && PacketOk(s, id);
    }
  }

  lemma DequeueKeepsPlaces(s: State, w: Wid, ok: bool)
    requires PlacesOk(s) && Enabled(s, Dequeue(w, ok))
    ensures PlacesOk(DequeueStep(s, w, ok))
  {
    hide PlacesOk, TakeStep, Queue.StepCall, Queue.CanCall;
    match Queue.ClaimsFrom(s.queue, w)
    case Some(p) =>
      var i := FirstOf(s.submit, s.producers[p]);
      TakeKeepsPlaces(s, w, i, ok);
      QuietKeepsPlaces(TakeStep(s, w, i, ok), DequeueStep(s, w, ok));
    case None => QuietKeepsPlaces(s, DequeueStep(s, w, ok));
  }

  lemma StepKeepsPlaces(s: State, a: Action)
    requires PlacesOk(s) && Enabled(s, a)
    ensures PlacesOk(Step(s, a))
  {
    match a
    case Submit(a, packet, ok) =>
      var key := Key(a, packet.dstOrRc);
      AddKeepsPlaces(s, key, packet);
      var s1 := AddStep(s, key, packet);
      if |s1.bundles[key]| == COMMS_BUNDLE_SIZE {
        DepositKeepsPlaces(s1, key, ok);
      }
    case Flush(a, dst, ok) =>
      assert KeyOk(s, Key(a, dst));
      DepositKeepsPlaces(s, Key(a, dst), ok);
    case Dequeue(w, ok) => DequeueKeepsPlaces(s, w, ok);
    case Return(w) => if s.writers[w].ids == [] { LookKeepsPlaces(s, w); } else { ReturnOneKeepsPlaces(s, w); }
    case Reap(a, ids) => ReapKeepsPlaces(s, a, ids);
    case _ => QuietKeepsPlaces(s, Step(s, a));
  }

  lemma StepKeepsShutdown(s: State, a: Action)
    requires ShutdownOk(s) && Enabled(s, a)
    ensures ShutdownOk(Step(s, a))
  {
    hide TakeStep, ReturnStep, ReapStep, SubmitStep, DepositStep, DequeueStep, CanDequeue;
    match a
    case Submit(a, packet, ok) => SubmitOnly(s, Key(a, packet.dstOrRc), packet, ok);
    case Flush(a, dst, ok) => DepositOnly(s, Key(a, dst), ok);
    case Dequeue(w, ok) => DequeueOnly(s, w, ok);
    case Return(w) => ReturnOnly(s, w);
    case Reap(a, ids) => ReapOnly(s, a, ids);
    case _ =>
  }

  lemma SubmitOnly(s: State, key: Key, packet: Packet, ok: bool)
    requires HasEndPoint(s, key)
    ensures var s' := SubmitStep(s, key, packet, ok);
            s'.shuttingDown == s.shuttingDown && s'.calling == s.calling && s'.clean == s.clean
            && s'.writers == s.writers && s'.stopping == s.stopping
  {
    DepositOnly(AddStep(s, key, packet), key, ok);
    hide DepositStep;
  }

  lemma ReapOnly(s: State, a: Aid, ids: set<Id>)
    requires a in s.reap && a in s.reaped
    ensures var s' := ReapStep(s, a, ids);
            s'.shuttingDown == s.shuttingDown && s'.calling == s.calling && s'.clean == s.clean
            && s'.writers == s.writers && s'.stopping == s.stopping
            && s'.submit == s.submit && s'.queue == s.queue && s'.producers == s.producers
  {
  }

  lemma TakeOnly(s: State, w: Wid, i: nat, ok: bool)
    requires w < |s.writers| && i < |s.submit|
    ensures var s' := TakeStep(s, w, i, ok);
            s'.shuttingDown == s.shuttingDown && s'.calling == s.calling && s'.clean == s.clean
            && s'.writers == s.writers[w := Returning(s.submit[i].ids, ok)] && s'.stopping == s.stopping
            && s'.submit == s.submit[..i] + s.submit[i + 1..] && s'.producers == s.producers
  {
  }

  lemma DequeueOnly(s: State, w: Wid, ok: bool)
    requires w < |s.writers| && CanDequeue(s, w)
    ensures var s' := DequeueStep(s, w, ok);
            && s'.shuttingDown == s.shuttingDown && s'.calling == s.calling && s'.clean == s.clean
            && s'.stopping == s.stopping && s'.producers == s.producers && |s'.writers| == |s.writers|
            && s'.writers == s.writers[w := s'.writers[w]] && s'.queue == Queue.StepCall(s.queue, w)
            && match Queue.ClaimsFrom(s.queue, w) {
                 case Some(p) =>
                   var i := FirstOf(s.submit, s.producers[p]);
                   && s'.writers[w] == Returning(s.submit[i].ids, ok)
                   && s'.submit == s.submit[..i] + s.submit[i + 1..]
                 case None =>
                   && s'.submit == s.submit && s'.writers[w] == if s'.queue.walks[w].Out? then Missed else Dequeuing
               }
  {
    hide Queue.StepCall, Queue.CanCall, TakeStep, FirstOf;
    if Queue.ClaimsFrom(s.queue, w).Some? {
      TakeOnly(s, w, FirstOf(s.submit, s.producers[Queue.ClaimsFrom(s.queue, w).value]), ok);
    }
  }

  lemma ReturnOnly(s: State, w: Wid)
    requires w < |s.writers| && s.writers[w].Returning?
    requires s.writers[w].ids != [] ==>
               var id := s.writers[w].ids[0]; id < |s.packets| == |s.place| && s.packets[id].opaque_ in s.reap
    ensures var s' := ReturnStep(s, w);
            s'.shuttingDown == s.shuttingDown && s'.calling == s.calling && s'.clean == s.clean
              && s'.stopping == s.stopping
            && |s'.writers| == |s.writers| && s'.writers == s.writers[w := s'.writers[w]] && !s'.writers[w].Exited?
            && s'.submit == s.submit && s'.queue == s.queue && s'.producers == s.producers
            && !s'.writers[w].Missed? && !s'.writers[w].Dequeuing?
  {
    hide Relocate;
  }

  /** A deposit is no step of the writers or of the shutdown. */
  lemma DepositOnly(s: State, key: Key, ok: bool)
    requires HasEndPoint(s, key)
    ensures var s' := DepositStep(s, key, ok);
            s'.shuttingDown == s.shuttingDown && s'.calling == s.calling && s'.clean == s.clean
            && s'.writers == s.writers && s'.stopping == s.stopping
  {
  }

  // ---------------------------------------------------------------- order

  lemma AddKeepsOrder(s: State, key: Key, packet: Packet)
    requires OrderOk(s) && key in s.bundles && key in s.passed
    ensures OrderOk(AddStep(s, key, packet))
  {
  }

  lemma DepositKeepsOrder(s: State, key: Key, ok: bool)
    requires OrderOk(s) && HasEndPoint(s, key)
    ensures OrderOk(DepositStep(s, key, ok))
  {
  }

  lemma TakeKeepsOrder(s: State, w: Wid, i: nat, ok: bool)
    requires OrderOk(s) && w < |s.writers| && i < |s.submit|
    ensures OrderOk(TakeStep(s, w, i, ok))
  {
    var s' := TakeStep(s, w, i, ok);
    assert forall j :: 0 <= j < |s'.submit| ==> s'.submit[j] == s.submit[if j < i then j else j + 1];
  }

  lemma DequeueKeepsOrder(s: State, w: Wid, ok: bool)
    requires OrderOk(s) && w < |s.writers| && CanDequeue(s, w)
    ensures OrderOk(DequeueStep(s, w, ok))
  {
    hide OrderOk, TakeStep, Queue.StepCall, Queue.CanCall;
    match Queue.ClaimsFrom(s.queue, w)
    case Some(p) =>
      var i := FirstOf(s.submit, s.producers[p]);
      TakeKeepsOrder(s, w, i, ok);
      OtherKeepsOrder(TakeStep(s, w, i, ok), DequeueStep(s, w, ok));
    case None => OtherKeepsOrder(s, DequeueStep(s, w, ok));
  }

  /** A step that does not touch the bundles. */
  lemma OtherKeepsOrder(s: State, s': State)
    requires OrderOk(s) && s'.bundles == s.bundles && s'.submit == s.submit && s'.given == s.given
    ensures OrderOk(s')
  {
  }

  lemma StepKeepsOrder(s: State, a: Action)
    requires OrderOk(s) && Enabled(s, a)
    ensures OrderOk(Step(s, a))
  {
    hide OrderOk, AddStep, DepositStep, DequeueStep, CanDequeue, ReturnStep, ReapStep;
    match a
    case Submit(a, packet, ok) => SubmitKeepsOrder(s, Key(a, packet.dstOrRc), packet, ok);
    case Flush(a, dst, ok) => DepositKeepsOrder(s, Key(a, dst), ok);
    case Dequeue(w, ok) => DequeueKeepsOrder(s, w, ok);
    case Return(w) => ReturnKeepsOrder(s, w);
    case Reap(a, ids) => ReapKeepsOrder(s, a, ids);
    case _ => OtherKeepsOrder(s, Step(s, a));
  }

  lemma SubmitKeepsOrder(s: State, key: Key, packet: Packet, ok: bool)
    requires OrderOk(s) && HasEndPoint(s, key)
    ensures OrderOk(SubmitStep(s, key, packet, ok))
  {
    AddKeepsOrder(s, key, packet);
    var s1 := AddStep(s, key, packet);
    hide OrderOk;
    if |s1.bundles[key]| == COMMS_BUNDLE_SIZE {
      DepositKeepsOrder(s1, key, ok);
    }
  }

  lemma ReapKeepsOrder(s: State, a: Aid, ids: set<Id>)
    requires OrderOk(s) && a in s.reap && a in s.reaped
    ensures OrderOk(ReapStep(s, a, ids))
  {
    OtherKeepsOrder(s, ReapStep(s, a, ids));
  }

  lemma ReturnKeepsOrder(s: State, w: Wid)
    requires OrderOk(s) && w < |s.writers| && s.writers[w].Returning?
    requires s.writers[w].ids != [] ==>
               var id := s.writers[w].ids[0]; id < |s.packets| == |s.place| && s.packets[id].opaque_ in s.reap
    ensures OrderOk(ReturnStep(s, w))
  {
    hide Relocate, OrderOk;
    OtherKeepsOrder(s, ReturnStep(s, w));
  }

  // ---------------------------------------------------------------- the submit queue

  /** A step that neither deposits nor dequeues, and leaves everybody in or out of try_dequeue. */
  lemma OtherKeepsQueue(s: State, s': State)
    requires QueueOk(s) && s'.queue == s.queue && s'.producers == s.producers && s'.submit == s.submit
    requires |s'.writers| == |s.writers|
    requires forall w :: 0 <= w < |s.writers| ==> (s'.writers[w].Dequeuing? <==> s.writers[w].Dequeuing?)
    ensures QueueOk(s')
  {
    hide Queue.Inv, Unclaimed, Of;
    forall p | 0 <= p < |s'.producers| ensures SubQueueOk(s', p) {
      assert SubQueueOk(s, p);
    }
  }

  lemma {:induction false} OfConcat(a: seq<Load>, b: seq<Load>, o: Aid)
    ensures Of(a + b, o) == Of(a, o) + Of(b, o)
  {
    if a == [] {
      assert a + b == b;
    } else {
      OfConcat(a[1..], b, o);
      OfFirst(a, o);
      OfFirst(a + b, o);
      assert (a + b)[1..] == a[1..] + b;
      Associative(Of(a[..1], o), Of(a[1..], o), Of(b, o));
      assert (a + b)[..1] == a[..1];
    }
  }

  lemma OfFirst(submit: seq<Load>, o: Aid)
    requires submit != []
    ensures Of(submit, o) == Of(submit[..1], o) + Of(submit[1..], o)
  {
    assert submit[..1][1..] == [];
    assert Of(submit[..1][1..], o) == [];
  }

  lemma {:induction false} OfNone(submit: seq<Load>, o: Aid)
    requires forall i :: 0 <= i < |submit| ==> submit[i].owner != o
    ensures Of(submit, o) == []
  {
    if submit != [] { OfNone(submit[1..], o); }
  }

  lemma OneLoad(load: Load, o: Aid)
    ensures Of([load], o) == if load.owner == o then [load] else []
  {
    assert [load][1..] == [];
  }

  /** Taking an accessor's oldest bundle takes the first of its bundles and no other accessor's. */
  lemma OfTaken(submit: seq<Load>, i: nat, o: Aid)
    requires i < |submit| && forall j :: 0 <= j < i ==> submit[j].owner != submit[i].owner
    ensures var of, of' := Of(submit, o), Of(submit[..i] + submit[i + 1..], o);
            if o == submit[i].owner then of == [submit[i]] + of' else of == of'
  {
    hide Of;
    assert submit == submit[..i] + submit[i..];
    OfConcat(submit[..i], submit[i..], o);
    OfConcat(submit[..i], submit[i + 1..], o);
    if o == submit[i].owner { OfNone(submit[..i], o); }
    OfFirst(submit[i..], o);
    OneLoad(submit[i], o);
    assert submit[i..][1..] == submit[i + 1..] && submit[i..][..1] == [submit[i]];
  }

  lemma {:induction false} OfFound(submit: seq<Load>, o: Aid)
    ensures Of(submit, o) != [] <==> FirstOf(submit, o) < |submit|
    ensures Of(submit, o) != [] ==> Of(submit, o)[0] == submit[FirstOf(submit, o)]
  {
    if submit != [] { OfFound(submit[1..], o); }
  }

  /** There is a bundle for a claim to take, and it is the one the sub-queue has there. */
  lemma ClaimsOldest(s: State, w: Wid)
    requires QueueOk(s) && w < |s.writers|
    ensures CanDequeue(s, w)
    ensures match Queue.ClaimsFrom(s.queue, w) {
              case Some(p) =>
                && p < |s.queue.subs| && s.queue.subs[p].head < |s.queue.subs[p].items|
                && s.submit[FirstOf(s.submit, s.producers[p])] == s.queue.subs[p].items[s.queue.subs[p].head]
              case None => true
            }
  {
    Queue.CallCan(s.queue, w);
    Queue.CallEffect(s.queue, w);
    hide Queue.Inv, Queue.StepCall, Queue.CanCall, FirstOf;
    match Queue.ClaimsFrom(s.queue, w)
    case Some(p) =>
      assert SubQueueOk(s, p);
      OfFound(s.submit, s.producers[p]);
    case None =>
  }

  lemma DequeueKeepsQueue(s: State, w: Wid, ok: bool)
    requires QueueOk(s) && Enabled(s, Dequeue(w, ok))
    ensures QueueOk(DequeueStep(s, w, ok))
  {
    hide Queue.Inv, Queue.StepCall, Queue.CanCall, DequeueStep, FirstOf, Of, Unclaimed;
    Queue.CallKeepsInv(s.queue, w);
    Queue.CallEffect(s.queue, w);
    ClaimsOldest(s, w);
    DequeueOnly(s, w, ok);
    var s' := DequeueStep(s, w, ok);
    forall p | 0 <= p < |s'.producers| ensures SubQueueOk(s', p) {
      DequeueSub(s, s', w, ok, p);
    }
  }

  lemma DequeueSub(s: State, s': State, w: Wid, ok: bool, p: nat)
    requires QueueOk(s) && Enabled(s, Dequeue(w, ok)) && s' == DequeueStep(s, w, ok) && p < |s.producers|
    ensures s'.producers == s.producers && |s'.queue.subs| == |s.queue.subs| && SubQueueOk(s', p)
  {
    hide Queue.Inv, Queue.StepCall, Queue.CanCall, DequeueStep, FirstOf;
    Queue.CallEffect(s.queue, w);
    ClaimsOldest(s, w);
    DequeueOnly(s, w, ok);
    assert SubQueueOk(s, p);
    match Queue.ClaimsFrom(s.queue, w)
    case Some(q) =>
      var i := FirstOf(s.submit, s.producers[q]);
      FirstIsOldest(s.submit, s.producers[q]);
      OfTaken(s.submit, i, s.producers[p]);
      assert p != q ==> s.producers[p] != s.producers[q];
    case None =>
  }

  lemma FirstIsOldest(submit: seq<Load>, a: Aid)
    requires FirstOf(submit, a) < |submit|
    ensures var i := FirstOf(submit, a);
            submit[i].owner == a && forall j :: 0 <= j < i ==> submit[j].owner != submit[i].owner
  {
  }

  lemma IndexOfMember(producers: seq<Aid>, a: Aid, p: nat)
    requires DistinctProducers(producers) && p < |producers| && producers[p] == a
    ensures IndexOf(producers, a) == p
  {
    assert a in producers;
  }

  /** A deposit makes the accessor a producer, if it is not one yet, and appends to its sub-queue. */
  lemma EnqueuedSubs(s: State, a: Aid, loads: seq<Load>)
    requires QueueOk(s)
    ensures var producers, queue := Entered(s.producers, a), Enqueued(s.queue, s.producers, a, loads);
            && Queue.Inv(queue) && |queue.subs| == |producers| && DistinctProducers(producers)
            && queue.walks == s.queue.walks && |s.producers| <= |producers|
            && (forall p :: 0 <= p < |s.producers| ==> producers[p] == s.producers[p])
            && (forall p :: |s.producers| <= p < |producers| ==> producers[p] == a)
            && forall p :: 0 <= p < |producers| ==>
                 queue.subs[p].head == (if p < |s.producers| then s.queue.subs[p].head else 0)
                 && queue.subs[p].items == (if p < |s.producers| then s.queue.subs[p].items else [])
                                           + (if producers[p] == a then loads else [])
  {
    hide Queue.Inv, SubQueueOk;
    var producers := Entered(s.producers, a);
    var p := IndexOf(producers, a);
    var entered := if a in s.producers then s.queue else Queue.Step(s.queue, Queue.AddProducer);
    if a !in s.producers { Queue.AddKeepsInv(s.queue); }
    Queue.EnqueueKeepsInv(entered, p, loads);
  }

  lemma DepositKeepsQueue(s: State, key: Key, ok: bool)
    requires QueueOk(s) && HasEndPoint(s, key)
    ensures QueueOk(DepositStep(s, key, ok))
  {
    hide Queue.Inv, Enqueued, Unclaimed, Of, Address, Relocate;
    var loads := DepositLoads(s, key, ok);
    EnqueuedSubs(s, key.a, loads);
    var s' := DepositStep(s, key, ok);
    assert s'.submit == s.submit + loads;
    forall p | 0 <= p < |s'.producers| ensures SubQueueOk(s', p) {
      OfConcat(s.submit, loads, s'.producers[p]);
      OfLoads(s, key, ok, s'.producers[p]);
      DepositSub(s, s', key, loads, p);
    }
  }

  lemma OfLoads(s: State, key: Key, ok: bool, a: Aid)
    requires key in s.bundles
    ensures Of(DepositLoads(s, key, ok), a) == if a == key.a then DepositLoads(s, key, ok) else []
  {
    assert DepositLoads(s, key, ok) != [] ==> DepositLoads(s, key, ok)[1..] == [];
  }

  lemma DepositSub(s: State, s': State, key: Key, loads: seq<Load>, p: nat)
    requires QueueOk(s) && |s'.producers| == |s'.queue.subs| && p < |s'.producers| && |s.producers| <= |s'.producers|
    requires if p < |s.producers| then s'.producers[p] == s.producers[p] else s'.producers[p] !in s.producers
    requires s'.queue.subs[p].head == if p < |s.producers| then s.queue.subs[p].head else 0
    requires s'.queue.subs[p].items == (if p < |s.producers| then s.queue.subs[p].items else [])
                                       + (if s'.producers[p] == key.a then loads else [])
    requires Of(s'.submit, s'.producers[p])
             == Of(s.submit, s'.producers[p]) + (if s'.producers[p] == key.a then loads else [])
    ensures SubQueueOk(s', p)
  {
    if p < |s.producers| {
      assert SubQueueOk(s, p);
      HeadWithin(s, p);
    } else {
      OfNone(s.submit, s'.producers[p]);
    }
  }

  lemma HeadWithin(s: State, p: nat)
    requires QueueOk(s) && p < |s.queue.subs|
    ensures s.queue.subs[p].head <= |s.queue.subs[p].items|
  {
    assert Queue.SubOk(s.queue, p);
    Sub.ClaimsWithinTail(s.queue.subs[p]);
  }

  lemma SubmitKeepsQueue(s: State, key: Key, packet: Packet, ok: bool)
    requires QueueOk(s) && HasEndPoint(s, key)
    ensures QueueOk(SubmitStep(s, key, packet, ok))
  {
    hide QueueOk, DepositStep;
    var s1 := AddStep(s, key, packet);
    OtherKeepsQueue(s, s1);
    if |s1.bundles[key]| == COMMS_BUNDLE_SIZE {
      DepositKeepsQueue(s1, key, ok);
    }
  }

  lemma StepKeepsQueue(s: State, a: Action)
    requires QueueOk(s) && Enabled(s, a)
    ensures QueueOk(Step(s, a))
  {
    hide QueueOk, AddStep, DepositStep, DequeueStep, CanDequeue, ReturnStep, ReapStep;
    match a
    case Submit(a, packet, ok) => SubmitKeepsQueue(s, Key(a, packet.dstOrRc), packet, ok);
    case Flush(a, dst, ok) => DepositKeepsQueue(s, Key(a, dst), ok);
    case Dequeue(w, ok) => DequeueKeepsQueue(s, w, ok);
    case Return(w) =>
      ReturnOnly(s, w);
      OtherKeepsQueue(s, ReturnStep(s, w));
    case Reap(a, ids) =>
      ReapOnly(s, a, ids);
      OtherKeepsQueue(s, ReapStep(s, a, ids));
    case _ => OtherKeepsQueue(s, Step(s, a));
  }

  lemma StepKeepsInv(s: State, a: Action)
    requires Inv(s) && Enabled(s, a)
    ensures Inv(Step(s, a))
  {
    hide PlacesOk, ShutdownOk, OrderOk, QueueOk;
    StepKeepsPlaces(s, a);
    StepKeepsShutdown(s, a);
    StepKeepsOrder(s, a);
    StepKeepsQueue(s, a);
  }

  // ---------------------------------------------------------------- whole runs

  ghost function Init(aids: set<Aid>, endPoints: nat, writers: nat): State {
    var keys := set a, d | a in aids && 0 <= d < endPoints :: Key(a, d);
    State(map key | key in keys :: [], Queue.Init(Below(writers)), [], [], seq(writers, _ => Looking), 0,
          map a | a in aids :: {}, map a | a in aids :: {}, {}, false, [], [], [], [], 0, map key | key in keys :: [],
            map key | key in keys :: [], false)
  }

  lemma InitInv(aids: set<Aid>, endPoints: nat, writers: nat)
    ensures Inv(Init(aids, endPoints, writers))
  {
    var s := Init(aids, endPoints, writers);
    assert PlacesOk(s) by {
      forall key | key in s.bundles ensures KeyOk(s, key) {
      }
      hide KeyOk;
    }
    Queue.InitInv<Load>(Below(writers));
    hide PlacesOk, Queue.Inv;
  }

  /** Any interleaving; an action that is not possible in its state is skipped. */
  ghost function Run(s: State, schedule: seq<Action>): (s': State)
    requires Inv(s)
    ensures Inv(s')
    decreases |schedule|
  {
    if schedule == [] then s
    else if Enabled(s, schedule[0]) then
      StepKeepsInv(s, schedule[0]);
      Run(Step(s, schedule[0]), schedule[1..])
    else
      Run(s, schedule[1..])
  }

  // ---------------------------------------------------------------- what the invariant gives

  /** The list or set that stands for a place. */
  ghost predicate Holds(s: State, p: Place, id: Id) {
    match p
    case InBundle(key) => key in s.bundles && id in s.bundles[key]
    case Submitted(k) => exists i :: 0 <= i < |s.submit| && s.submit[i].serial == k && id in s.submit[i].ids
    case AtWriter(w) => w < |s.writers| && s.writers[w].Returning? && id in s.writers[w].ids
    case Reapable(a) => a in s.reap && id in s.reap[a]
    case Reaped(a) => a in s.reaped && id in s.reaped[a]
  }

  ghost predicate NoDuplicates(s: State) {
    && (forall key :: key in s.bundles ==> Distinct(s.bundles[key]))
    && (forall i :: 0 <= i < |s.submit| ==> Distinct(s.submit[i].ids))
    && (forall i, j :: 0 <= i < j < |s.submit| ==> s.submit[i].serial != s.submit[j].serial)
    && (forall w :: 0 <= w < |s.writers| && s.writers[w].Returning? ==> Distinct(s.writers[w].ids))
  }

  /** Every packet passed to submit_n is at all times in exactly one place, and in it once: a bundle of its own
      accessor, a bundle in the submit queue, a writer, its own accessor's reap queue, or reaped by that accessor. */
  lemma EachPacketInOnePlace(s: State, id: Id)
    requires Inv(s) && id < |s.given|
    ensures |s.place| == |s.owner| == |s.given| && NoDuplicates(s)
    ensures forall p :: Holds(s, p, id) <==> p == s.place[id]
    ensures match s.place[id] {
              case InBundle(key) => key.a == s.owner[id] && key.dst == s.given[id].dstOrRc
              case Reapable(a) => a == s.owner[id]
              case Reaped(a) => a == s.owner[id]
              case _ => true
            }
  {
    forall p | Holds(s, p, id) ensures p == s.place[id] {
      HeldIsThere(s, p, id);
    }
    assert PlaceExists(s, s.place[id]) && PacketOk(s, id);
    ThereIsHeld(s, id);
    forall key | key in s.bundles ensures Distinct(s.bundles[key]) {
      assert KeyOk(s, key);
    }
    forall i | 0 <= i < |s.submit| ensures Distinct(s.submit[i].ids) {
      assert LoadOk(s, i);
    }
    forall w | 0 <= w < |s.writers| && s.writers[w].Returning? ensures Distinct(s.writers[w].ids) {
      assert WriterOk(s, w);
    }
  }

  lemma HeldIsThere(s: State, p: Place, id: Id)
    requires PlacesOk(s) && Holds(s, p, id)
    ensures id < |s.place| && s.place[id] == p
  {
    match p
    case InBundle(key) => assert KeyOk(s, key);
    case Submitted(k) =>
      var i :| 0 <= i < |s.submit| && s.submit[i].serial == k && id in s.submit[i].ids;
      assert LoadOk(s, i);
    case AtWriter(w) => assert WriterOk(s, w);
    case Reapable(a) => assert AccessorOk(s, a);
    case Reaped(a) => assert AccessorOk(s, a);
  }

  lemma ThereIsHeld(s: State, id: Id)
    requires PlacesOk(s) && id < |s.place|
    ensures Holds(s, s.place[id], id)
  {
    assert PlaceExists(s, s.place[id]);
    match s.place[id]
    case InBundle(key) => assert KeyOk(s, key);
    case Submitted(k) =>
      var i :| 0 <= i < |s.submit| && s.submit[i].serial == k;
      assert LoadOk(s, i) && id in s.submit[i].ids;
    case AtWriter(w) => assert WriterOk(s, w);
    case Reapable(a) => assert AccessorOk(s, a);
    case Reaped(a) => assert AccessorOk(s, a);
  }

  /** In every reachable state no bundle is full between steps, and per end point the packets deposited and those
      still in the bundle are those submitted, in order. */
  lemma BundlesStayInOrder(aids: set<Aid>, endPoints: nat, writers: nat, schedule: seq<Action>, key: Key)
    ensures Inv(Init(aids, endPoints, writers))
    ensures var s := Run(Init(aids, endPoints, writers), schedule);
            key in s.bundles ==>
              && |s.bundles[key]| < COMMS_BUNDLE_SIZE && key in s.deposited && key in s.passed
              && s.deposited[key] + s.bundles[key] == s.passed[key]
  {
    InitInv(aids, endPoints, writers);
    var s := Run(Init(aids, endPoints, writers), schedule);
    assert key in s.bundles ==> KeyOk(s, key);
  }

  /** As long as nothing has been flushed: deposits are of full bundles, and a bundle has what is left over. */
  ghost predicate Batched(s: State) {
    && (forall key :: key in s.bundles ==>
          key in s.passed && key in s.deposited && key.a in s.reap
          && |s.bundles[key]| == |s.passed[key]| % COMMS_BUNDLE_SIZE)
    && (forall i :: 0 <= i < |s.submit| ==> |s.submit[i].ids| == COMMS_BUNDLE_SIZE)
  }

  lemma SubmitBatched(s: State, key: Key, packet: Packet, ok: bool)
    requires Batched(s) && key in s.bundles
    ensures Batched(SubmitStep(s, key, packet, ok))
  {
    hide Enqueued, Entered, Relocate, Address;
    var n := |s.passed[key]|;
    ModShift(n, 1, COMMS_BUNDLE_SIZE);
    ModUnique(COMMS_BUNDLE_SIZE, COMMS_BUNDLE_SIZE, 1, 0);
    if |s.bundles[key]| + 1 < COMMS_BUNDLE_SIZE {
      ModUnique(|s.bundles[key]| + 1, COMMS_BUNDLE_SIZE, 0, |s.bundles[key]| + 1);
    }
  }

  lemma StepBatched(s: State, a: Action)
    requires Batched(s) && Enabled(s, a) && !a.Flush?
    ensures Batched(Step(s, a))
  {
    hide Batched, SubmitStep, ReturnStep, DequeueStep, CanDequeue, ReapStep;
    match a
    case Submit(a, packet, ok) => SubmitBatched(s, Key(a, packet.dstOrRc), packet, ok);
    case Flush(_, _, _) => assert false;
    case Dequeue(w, ok) => DequeueBatched(s, w, ok);
    case Return(w) =>
      ReturnOnly(s, w);
      ReturnPassed(s, w);
      OtherBatched(s, ReturnStep(s, w));
    case Reap(a, ids) => OtherBatched(s, ReapStep(s, a, ids)) by { ReapPassed(s, a, ids); }
    case _ => OtherBatched(s, Step(s, a));
  }

  lemma OtherBatched(s: State, s': State)
    requires Batched(s) && s'.bundles == s.bundles && s'.passed == s.passed && s'.deposited == s.deposited
    requires s'.reap.Keys == s.reap.Keys && forall i :: 0 <= i < |s'.submit| ==> s'.submit[i] in s.submit
    ensures Batched(s')
  {
  }

  lemma ReturnPassed(s: State, w: Wid)
    requires w < |s.writers| && s.writers[w].Returning?
    requires s.writers[w].ids != [] ==>
               var id := s.writers[w].ids[0]; id < |s.packets| == |s.place| && s.packets[id].opaque_ in s.reap
    ensures var s' := ReturnStep(s, w);
            s'.bundles == s.bundles && s'.passed == s.passed && s'.deposited == s.deposited
              && s'.reap.Keys == s.reap.Keys
  {
    hide Relocate;
    if s.writers[w].ids != [] {
      var a := s.packets[s.writers[w].ids[0]].opaque_;
      assert ReturnStep(s, w).reap == s.reap[a := s.reap[a] + {s.writers[w].ids[0]}];
    }
  }

  lemma ReapPassed(s: State, a: Aid, ids: set<Id>)
    requires a in s.reap && a in s.reaped
    ensures var s' := ReapStep(s, a, ids);
            && s'.bundles == s.bundles && s'.passed == s.passed && s'.deposited == s.deposited
            && s'.reap.Keys == s.reap.Keys && s'.submit == s.submit
  {
    hide Relocate;
  }

  lemma DequeueBatched(s: State, w: Wid, ok: bool)
    requires Batched(s) && Enabled(s, Dequeue(w, ok))
    ensures Batched(DequeueStep(s, w, ok))
  {
    hide Batched, Queue.StepCall, Queue.CanCall, TakeStep, FirstOf;
    var s' := DequeueStep(s, w, ok);
    match Queue.ClaimsFrom(s.queue, w)
    case Some(p) =>
      TakePassed(s, w, FirstOf(s.submit, s.producers[p]), ok);
      OtherBatched(s, s');
    case None => OtherBatched(s, s');
  }

  lemma TakePassed(s: State, w: Wid, i: nat, ok: bool)
    requires w < |s.writers| && i < |s.submit|
    ensures var s' := TakeStep(s, w, i, ok);
            && s'.bundles == s.bundles && s'.passed == s.passed && s'.deposited == s.deposited
            && s'.reap.Keys == s.reap.Keys && forall j :: 0 <= j < |s'.submit| ==> s'.submit[j] in s.submit
  {
    hide Relocate;
  }

  predicate NoFlush(schedule: seq<Action>) { forall i :: 0 <= i < |schedule| ==> !schedule[i].Flush? }

  lemma {:induction false} RunBatched(s: State, schedule: seq<Action>)
    requires Inv(s) && Batched(s) && NoFlush(schedule)
    ensures Batched(Run(s, schedule))
    decreases |schedule|
  {
    hide PlacesOk, ShutdownOk, OrderOk, QueueOk, Batched, Step, Enabled;
    if schedule != [] {
      if Enabled(s, schedule[0]) {
        StepKeepsInv(s, schedule[0]);
        StepBatched(s, schedule[0]);
        RunBatched(Step(s, schedule[0]), schedule[1..]);
      } else {
        RunBatched(s, schedule[1..]);
      }
    }
  }

  /** Over any run without a flush, a bundle is deposited just when it is full: every bundle in the submit queue is
      full, and those being filled hold what is left over. */
  lemma DepositedWhenFull(aids: set<Aid>, endPoints: nat, writers: nat, schedule: seq<Action>, key: Key)
    requires NoFlush(schedule)
    ensures Inv(Init(aids, endPoints, writers))
    ensures var s := Run(Init(aids, endPoints, writers), schedule);
            && (forall i :: 0 <= i < |s.submit| ==> |s.submit[i].ids| == COMMS_BUNDLE_SIZE)
            && (key in s.bundles ==> key in s.passed && |s.bundles[key]| == |s.passed[key]| % COMMS_BUNDLE_SIZE)
  {
    InitInv(aids, endPoints, writers);
    var s0 := Init(aids, endPoints, writers);
    assert Batched(s0) by { ModUnique(0, COMMS_BUNDLE_SIZE, 0, 0); }
    hide PlacesOk, ShutdownOk, OrderOk, QueueOk, Run;
    RunBatched(s0, schedule);
  }

  /** A flush deposits what is in the bundle, even if that is nothing: accepted packets follow all others of their kind
      in the submit queue, refused ones are in the accessor's reap queue at once. */
  lemma FlushDeposits(s: State, a: Aid, dst: nat, ok: bool)
    requires Enabled(s, Flush(a, dst, ok))
    ensures var s', key := Step(s, Flush(a, dst, ok)), Key(a, dst);
            && key in s'.bundles && s'.bundles[key] == [] && a in s'.reap
            && if ok then s'.reap == s.reap && Queued(s'.submit, key) == Queued(s.submit, key) + s.bundles[key]
                          && |s'.submit| == |s.submit| + 1
               else s'.submit == s.submit && s'.reap[a] == s.reap[a] + Ids(s.bundles[key])
  {
    hide Enqueued, Entered, Relocate, Address;
    var key, s' := Key(a, dst), Step(s, Flush(a, dst, ok));
    if ok {
      assert s'.submit[..|s'.submit| - 1] == s.submit;
    }
  }

  /** The packets in the submit queue that one accessor submitted for one end point, from its front to its end. */
  function Queued(submit: seq<Load>, key: Key): seq<Id> {
    if submit == [] then []
    else
      var n := |submit| - 1;
      Queued(submit[..n], key) + (if KeyOf(submit[n]) == key then submit[n].ids else [])
  }

  lemma {:induction false} QueuedFrom(submit: seq<Load>, key: Key, j: nat)
    requires j < |Queued(submit, key)|
    ensures exists i, k :: 0 <= i < |submit| && KeyOf(submit[i]) == key && 0 <= k < |submit[i].ids|
              && submit[i].ids[k] == Queued(submit, key)[j]
  {
    var n := |submit| - 1;
    var rest := Queued(submit[..n], key);
    if j < |rest| {
      QueuedFrom(submit[..n], key, j);
      var i, k :| 0 <= i < |submit[..n]| && KeyOf(submit[..n][i]) == key && 0 <= k < |submit[..n][i].ids|
        && submit[..n][i].ids[k] == rest[j];
      assert submit[i].ids[k] == Queued(submit, key)[j];
    } else {
      assert submit[n].ids[j - |rest|] == Queued(submit, key)[j];
    }
  }

  lemma {:induction false} QueuedAscends(s: State, n: nat, key: Key)
    requires OrderOk(s) && n <= |s.submit|
    ensures Ascending(Queued(s.submit[..n], key))
  {
    if n > 0 {
      var last := s.submit[n - 1];
      QueuedAscends(s, n - 1, key);
      assert s.submit[..n][..n - 1] == s.submit[..n - 1];
      var q := Queued(s.submit[..n - 1], key);
      if KeyOf(last) == key {
        forall i, j | 0 <= i < |q| && 0 <= j < |last.ids| ensures q[i] < last.ids[j] {
          QueuedFrom(s.submit[..n - 1], key, i);
          var l, k :| 0 <= l < n - 1 && KeyOf(s.submit[l]) == key && 0 <= k < |s.submit[l].ids|
            && s.submit[l].ids[k] == q[i];
          assert Before(s.submit[l].ids, last.ids);
        }
      }
    }
  }

  /** In every reachable state the packets of one accessor for one end point are in the submit queue, and then in the
      bundle being filled, in the order in which they were passed to submit_n. */
  lemma SubmitQueueInOrder(aids: set<Aid>, endPoints: nat, writers: nat, schedule: seq<Action>, key: Key)
    ensures Inv(Init(aids, endPoints, writers))
    ensures var s := Run(Init(aids, endPoints, writers), schedule);
            key in s.bundles ==> Ascending(Queued(s.submit, key) + s.bundles[key])
  {
    InitInv(aids, endPoints, writers);
    var s := Run(Init(aids, endPoints, writers), schedule);
    hide PlacesOk, ShutdownOk;
    if key in s.bundles {
      QueuedAscends(s, |s.submit|, key);
      assert s.submit[..|s.submit|] == s.submit;
      QueuedBefore(s, key);
      AscendingBoth(Queued(s.submit, key), s.bundles[key]);
    }
  }

  lemma QueuedBefore(s: State, key: Key)
    requires OrderOk(s) && key in s.bundles
    ensures Before(Queued(s.submit, key), s.bundles[key])
  {
    var q, b := Queued(s.submit, key), s.bundles[key];
    forall i, j | 0 <= i < |q| && 0 <= j < |b| ensures q[i] < b[j] {
      QueuedFrom(s.submit, key, i);
    }
  }

  lemma AscendingBoth(a: seq<Id>, b: seq<Id>)
    requires Ascending(a) && Ascending(b) && Before(a, b)
    ensures Ascending(a + b)
  {
  }

  /** What a writer takes is the oldest bundle of some sub-queue, and was submitted before everything for the same end
      point that it leaves behind. */
  lemma TakenInOrder(s: State, w: Wid, ok: bool, p: nat)
    requires Inv(s) && Enabled(s, Dequeue(w, ok)) && Queue.ClaimsFrom(s.queue, w) == Some(p)
    ensures p < |s.queue.subs| && s.queue.subs[p].head < |s.queue.subs[p].items|
    ensures var load, s' := s.queue.subs[p].items[s.queue.subs[p].head], DequeueStep(s, w, ok);
            && s'.writers[w] == Returning(load.ids, ok)
            && (KeyOf(load) in s'.bundles ==>
                Before(load.ids, Queued(s'.submit, KeyOf(load)) + s'.bundles[KeyOf(load)]))
  {
    hide PlacesOk, ShutdownOk, OrderOk, Queue.Inv, Queue.StepCall, Queue.CanCall, FirstOf, Queued;
    ClaimsOldest(s, w);
    var i := FirstOf(s.submit, s.producers[p]);
    FirstIsOldest(s.submit, s.producers[p]);
    if KeyOf(s.submit[i]) in s.bundles {
      TakenBefore(s, w, i, ok, KeyOf(s.submit[i]));
    }
  }

  lemma TakenBefore(s: State, w: Wid, i: nat, ok: bool, key: Key)
    requires OrderOk(s) && w < |s.writers| && i < |s.submit| && KeyOf(s.submit[i]) == key && key in s.bundles
    requires forall j :: 0 <= j < i ==> s.submit[j].owner != s.submit[i].owner
    ensures var s' := TakeStep(s, w, i, ok);
            && key in s'.bundles
            && Before(s.submit[i].ids, Queued(s'.submit, key) + s'.bundles[key])
  {
    var s' := TakeStep(s, w, i, ok);
    assert Before(s.submit[i].ids, s.bundles[key]);
    forall l | 0 <= l < |s'.submit| && KeyOf(s'.submit[l]) == key ensures Before(s.submit[i].ids, s'.submit[l].ids) {
      assert s'.submit[l] == s.submit[if l < i then l else l + 1];
    }
    hide OrderOk, Before, TakeStep;
    BeforeAll(s.submit[i].ids, s'.submit, key);
    BeforeBoth(s.submit[i].ids, Queued(s'.submit, key), s'.bundles[key]);
  }

  lemma BeforeBoth(a: seq<Id>, b: seq<Id>, c: seq<Id>)
    requires Before(a, b) && Before(a, c)
    ensures Before(a, b + c)
  {
  }

  lemma {:induction false} BeforeAll(ids: seq<Id>, submit: seq<Load>, key: Key)
    requires forall l :: 0 <= l < |submit| && KeyOf(submit[l]) == key ==> Before(ids, submit[l].ids)
    ensures Before(ids, Queued(submit, key))
  {
    if submit != [] {
      var n := |submit| - 1;
      BeforeAll(ids, submit[..n], key);
      if KeyOf(submit[n]) == key {
        BeforeBoth(ids, Queued(submit[..n], key), submit[n].ids);
      }
    }
  }

  /** What comes back is what was submitted, with a return code, to the accessor that submitted it. */
  lemma ReapedAsSubmitted(s: State, a: Aid, id: Id)
    requires Inv(s) && a in s.reaped && id in s.reaped[a]
    ensures id < |s.packets| == |s.given| == |s.owner| && s.owner[id] == a
    ensures var p, g := s.packets[id], s.given[id];
            p.tag == g.tag && p.payload == g.payload && p.size == g.size && p.dstOrRc in {0, 1}
  {
    HeldIsThere(s, Reaped(a), id);
    assert PacketOk(s, id);
  }
}
