/** What a writer does with a bundle it has transmitted (comms_writer.cc): every packet gets the return code and goes to
    the reap queue its opaque pointer names. The result of that enqueue is ignored, so a refused packet is lost. */
module Writers {
  import opened Collections
  import opened Options
  import opened BlockMath
  import opened BlockPool
  import opened Bundles
  import opened ImplicitQueue

  const REAP_BLOCKS: nat := 2048                    // capacity 1 << 21, in blocks of 1024 packets

  /** The reap queues of all accessors. In each of them the writer's thread has an implicit producer of its own. */
  class ReapQueues {
    const queues: map<nat, ImplicitProducer<Packet>>
    ghost const repr: set<object>

    constructor (queues: map<nat, ImplicitProducer<Packet>>)
      ensures this.queues == queues && repr == set q, o | q in queues && o in Parts(queues[q]) :: o
    {
      this.queues := queues;
      repr := set q, o | q in queues && o in Parts(queues[q]) :: o;
    }

    ghost predicate Valid()
      reads repr
    {
      && (forall q :: q in queues ==> Parts(queues[q]) <= repr && queues[q].Valid())
      && (forall q, r :: q in queues && r in queues && q != r ==> Apart(queues[q], queues[r]))
    }

    ghost function HeldIn(q: nat): seq<Packet>
      reads repr
      requires Valid() && q in queues
    {
      HeldBy(queues[q])
    }

    ghost function SpaceOf(q: nat): (sp: Space)
      reads repr
      requires Valid() && q in queues
      ensures sp.bs > 1 && sp.head <= sp.tail
    {
      SpaceIn(queues[q])
    }

    /** By queue, the packets in it that came from this writer and have not been reaped. */
    ghost function Held(): (held: map<nat, seq<Packet>>)
      reads repr
      requires Valid()
      ensures held.Keys == queues.Keys
    {
      map q | q in queues :: HeldIn(q)
    }

    /** By queue, what decides how much fits in it. */
    ghost function Spaces(): (spaces: map<nat, Space>)
      reads repr
      requires Valid()
      ensures spaces.Keys == queues.Keys && Usable(spaces)
    {
      map q | q in queues :: SpaceOf(q)
    }

    /** try_enqueue of a packet into the queue it names: refused exactly if there is no room for one more. */
    method TryEnqueue(packet: Packet) returns (ok: bool)
      requires Valid() && packet.opaque_ in queues
      modifies repr
      ensures Valid() && ok == Fits(old(Spaces())[packet.opaque_], 1)
      ensures Held() == old(Held())[packet.opaque_ := old(Held())[packet.opaque_] + (if ok then [packet] else [])]
      ensures Spaces() == old(Spaces())[packet.opaque_ := Next(old(Spaces())[packet.opaque_], ok)]
    {
      hide Fits, HeldBy, SpaceIn, Valid, Parts, Apart, Next;
      ghost var q, held, spaces := packet.opaque_, Held(), Spaces();
      assert forall r :: r in queues ==> held[r] == old(HeldIn(r)) && spaces[r] == old(SpaceOf(r));
      ok := TryEnqueueOne(packet);
      assert Held() == held[q := held[q] + (if ok then [packet] else [])];
      assert Spaces() == spaces[q := Next(spaces[q], ok)];
    }

    method TryEnqueueOne(packet: Packet) returns (ok: bool)
      requires Valid() && packet.opaque_ in queues
      modifies repr
      ensures Valid() && ok == Fits(old(SpaceOf(packet.opaque_)), 1)
      ensures HeldIn(packet.opaque_) == old(HeldIn(packet.opaque_)) + (if ok then [packet] else [])
      ensures SpaceOf(packet.opaque_) == Next(old(SpaceOf(packet.opaque_)), ok)
      ensures forall r :: r in queues && r != packet.opaque_ ==>
                HeldIn(r) == old(HeldIn(r)) && SpaceOf(r) == old(SpaceOf(r))
    {
      var q := packet.opaque_;
      var p := queues[q];
      ok := TryEnqueueInto(p, packet);
      forall r | r in queues && r != q
        ensures queues[r].Valid() && HeldBy(queues[r]) == old(HeldBy(queues[r]))
                && SpaceIn(queues[r]) == old(SpaceIn(queues[r]))
      {
        assert Apart(p, queues[r]);
      }
    }
  }

  /** The objects that make up a queue. */
  ghost function Parts(p: ImplicitProducer<Packet>): set<object> { {p, p.pool, p.pool.cells, p.keys, p.values} }

  ghost predicate Apart(p: ImplicitProducer<Packet>, r: ImplicitProducer<Packet>) { Parts(p) !! Parts(r) }

  ghost function HeldBy(p: ImplicitProducer<Packet>): seq<Packet>
    reads p, p.pool, p.pool.cells, p.keys, p.values
    requires p.Valid()
  {
    p.RoomIsFits(0);
    p.Contents()
  }

  ghost function SpaceIn(p: ImplicitProducer<Packet>): (sp: Space)
    reads p, p.pool, p.pool.cells, p.keys, p.values
    requires p.Valid()
    ensures sp.bs > 1 && sp.head <= sp.tail
  {
    p.RoomIsFits(0);
    p.SpaceLeft()
  }

  method TryEnqueueInto(p: ImplicitProducer<Packet>, packet: Packet) returns (ok: bool)
    requires p.Valid()
    modifies Parts(p)
    ensures p.Valid()
    ensures ok == Fits(old(SpaceIn(p)), 1)
    ensures HeldBy(p) == old(HeldBy(p)) + (if ok then [packet] else [])
    ensures SpaceIn(p) == Next(old(SpaceIn(p)), ok)
  {
    p.RoomIsFits(1);
    ok := p.Enqueue(packet);
    p.RoomIsFits(1);
    assert |p.Contents()| == |p.items| - p.headIndex;
  }

  ghost predicate Usable(spaces: map<nat, Space>) {
    forall q :: q in spaces ==> spaces[q].bs > 1 && spaces[q].head <= spaces[q].tail
  }

  function Next(sp: Space, ok: bool): Space { if ok then sp.(tail := sp.tail + 1) else sp }

  /** The packets for queue q among those accepted. */
  function ToQueue(packets: seq<Packet>, accepted: seq<bool>, q: nat): seq<Packet>
    requires |accepted| == |packets|
  {
    if packets == [] then []
    else
      var n := |packets| - 1;
      ToQueue(packets[..n], accepted[..n], q) + (if accepted[n] && packets[n].opaque_ == q then [packets[n]] else [])
  }

  lemma ToQueueMore(packets: seq<Packet>, accepted: seq<bool>, q: nat, p: Packet, ok: bool)
    requires |accepted| == |packets|
    ensures ToQueue(packets + [p], accepted + [ok], q)
            == ToQueue(packets, accepted, q) + (if ok && p.opaque_ == q then [p] else [])
  {
    assert (packets + [p])[..|packets|] == packets && (accepted + [ok])[..|accepted|] == accepted;
  }

  /** The packets for queue q. */
  function All(packets: seq<Packet>, q: nat): seq<Packet> {
    if packets == [] then []
    else
      var n := |packets| - 1;
      All(packets[..n], q) + (if packets[n].opaque_ == q then [packets[n]] else [])
  }

  lemma {:induction false} AcceptedFor(packets: seq<Packet>, accepted: seq<bool>, q: nat)
    requires |accepted| == |packets|
    ensures |ToQueue(packets, accepted, q)| <= |All(packets, q)|
    ensures |ToQueue(packets, accepted, q)| == |All(packets, q)| ==>
              forall i :: 0 <= i < |packets| && packets[i].opaque_ == q ==> accepted[i]
    ensures (forall i :: 0 <= i < |packets| && packets[i].opaque_ == q ==> accepted[i]) ==>
              ToQueue(packets, accepted, q) == All(packets, q)
  {
    if packets != [] {
      var n := |packets| - 1;
      AcceptedFor(packets[..n], accepted[..n], q);
      assert forall i :: 0 <= i < n ==> packets[i] == packets[..n][i] && accepted[i] == accepted[..n][i];
    }
  }

  /** Every queue gets all its packets if and only if no enqueue is refused. */
  lemma AllAccepted(packets: seq<Packet>, accepted: seq<bool>)
    requires |accepted| == |packets|
    ensures (forall q :: ToQueue(packets, accepted, q) == All(packets, q)) <==>
            forall i :: 0 <= i < |accepted| ==> accepted[i]
  {
    if forall i :: 0 <= i < |accepted| ==> accepted[i] {
      forall q ensures ToQueue(packets, accepted, q) == All(packets, q) {
        AcceptedFor(packets, accepted, q);
      }
    } else {
      var i :| 0 <= i < |accepted| && !accepted[i];
      AcceptedFor(packets, accepted, packets[i].opaque_);
      assert ToQueue(packets, accepted, packets[i].opaque_) != All(packets, packets[i].opaque_);
    }
  }

  /** The first packets of a bundle leave the others to be returned. */
  lemma {:induction false} AllOfPrefix(packets: seq<Packet>, n: nat, q: nat)
    requires n <= |packets|
    ensures |All(packets[..n], q)| <= |All(packets, q)|
  {
    if n < |packets| {
      AllOfPrefix(packets[..|packets| - 1], n, q);
      assert packets[..|packets| - 1][..n] == packets[..n];
    } else {
      assert packets[..n] == packets;
    }
  }

  /** How many packets for queue q are still to be returned when the first n have been. */
  function Rest(packets: seq<Packet>, n: nat, q: nat): (r: nat)
    requires n <= |packets|
  {
    AllOfPrefix(packets, n, q);
    |All(packets, q)| - |All(packets[..n], q)|
  }

  lemma RestLess(packets: seq<Packet>, n: nat, q: nat)
    requires n < |packets|
    ensures Rest(packets, n, q) == Rest(packets, n + 1, q) + (if packets[n].opaque_ == q then 1 else 0)
  {
    assert packets[..n + 1][..n] == packets[..n];
  }

  lemma NoneLeft(packets: seq<Packet>, q: nat)
    ensures Rest(packets, |packets|, q) == 0 && Rest(packets, 0, q) == |All(packets, q)|
  {
    assert packets[..|packets|] == packets && packets[..0] == [];
  }

  /** There is room for all of the bundle's packets in the queues they name. */
  ghost predicate RoomForAll(spaces: map<nat, Space>, packets: seq<Packet>, n: nat)
    requires n <= |packets| && forall q :: q in spaces ==> spaces[q].bs > 0
  {
    forall q :: q in spaces ==> Fits(spaces[q], Rest(packets, n, q))
  }

  /** One more packet: there was room for the rest if and only if it is accepted and there is room for what is left. */
  lemma RoomStep(spaces: map<nat, Space>, packets: seq<Packet>, n: nat)
    requires n < |packets| && packets[n].opaque_ in spaces
    requires forall q :: q in spaces ==> spaces[q].bs > 1 && spaces[q].head <= spaces[q].tail
    ensures var q := packets[n].opaque_;
            var ok := Fits(spaces[q], 1);
            RoomForAll(spaces, packets, n) <==> ok && RoomForAll(spaces[q := Next(spaces[q], true)], packets, n + 1)
  {
    var q := packets[n].opaque_;
    var spaces' := spaces[q := Next(spaces[q], true)];
    forall r | r in spaces
      ensures Fits(spaces[r], Rest(packets, n, r)) <==>
              (r == q ==> Fits(spaces[q], 1)) && Fits(spaces'[r], Rest(packets, n + 1, r))
    {
      RestLess(packets, n, r);
      if r == q {
        FitsOneByOne(spaces[q], Rest(packets, n + 1, q));
      }
    }
    assert Fits(spaces[q], Rest(packets, n, q)) ==> Fits(spaces[q], 1);
  }

  /** Each queue has got its accepted packets. */
  ghost predicate Got(held: map<nat, seq<Packet>>, before: map<nat, seq<Packet>>, packets: seq<Packet>,
                      accepted: seq<bool>) {
    && before.Keys == held.Keys && |accepted| == |packets|
    && forall q :: q in held ==> held[q] == before[q] + ToQueue(packets, accepted, q)
  }

  lemma GotMore(held: map<nat, seq<Packet>>, before: map<nat, seq<Packet>>, packets: seq<Packet>, n: nat,
                accepted: seq<bool>, ok: bool)
    requires n < |packets| && Got(held, before, packets[..n], accepted) && packets[n].opaque_ in held
    ensures var q := packets[n].opaque_;
            Got(held[q := held[q] + (if ok then [packets[n]] else [])], before, packets[..n + 1], accepted + [ok])
  {
    assert packets[..n + 1] == packets[..n] + [packets[n]];
    var q := packets[n].opaque_;
    var held' := held[q := held[q] + (if ok then [packets[n]] else [])];
    hide ToQueue;
    forall r | r in held' ensures held'[r] == before[r] + ToQueue(packets[..n + 1], accepted + [ok], r) {
      ToQueueMore(packets[..n], accepted, r, packets[n], ok);
      Associative(before[r], ToQueue(packets[..n], accepted, r), if ok && q == r then [packets[n]] else []);
    }
  }

  /** The loop over a transmitted bundle in comms_writer_t::run: each queue gets, in order, its accepted packets
      with the return code; and all are accepted if and only if beforehand every queue had room for its packets. */
  method ReturnBundle(reapQueues: ReapQueues, bundle: seq<Packet>, ok: bool) returns (ghost accepted: seq<bool>)
    requires reapQueues.Valid() && forall i :: 0 <= i < |bundle| ==> bundle[i].opaque_ in reapQueues.queues
    modifies reapQueues.repr
    ensures reapQueues.Valid() && |accepted| == |bundle|
    ensures forall q :: q in reapQueues.queues ==>
              reapQueues.Held()[q]
                == old(reapQueues.Held())[q] + ToQueue(WithRc(bundle, if ok then 0 else 1), accepted, q)
    ensures (forall i :: 0 <= i < |accepted| ==> accepted[i]) <==>
            forall q :: q in reapQueues.queues ==> Fits(old(reapQueues.Spaces())[q], |All(bundle, q)|)
  {
    hide ReapQueues.Valid, ReapQueues.Held, ReapQueues.Spaces;
    var rc := if ok then 0 else 1;
    ghost var packets := WithRc(bundle, rc);
    accepted := [];
    var index := 0;
    assert packets[..0] == [];
    while index < |bundle|
      invariant 0 <= index <= |bundle| == |packets| && reapQueues.Valid()
      invariant Got(reapQueues.Held(), old(reapQueues.Held()), packets[..index], accepted)
      invariant Decided(old(reapQueues.Spaces()), reapQueues.Spaces(), packets, index, accepted)
    {
      ghost var held, spaces := reapQueues.Held(), reapQueues.Spaces();
      var done := reapQueues.TryEnqueue(bundle[index].(dstOrRc := rc));
      GotMore(held, old(reapQueues.Held()), packets, index, accepted, done);
      DecidedMore(old(reapQueues.Spaces()), spaces, packets, index, accepted);
      accepted := accepted + [done];
      index := index + 1;
    }
    assert packets[..index] == packets;
    RoomDecided(old(reapQueues.Spaces()), reapQueues.Spaces(), bundle, rc, accepted);
  }

  /** As long as all have been accepted, there is room for the rest if and only if there was for the bundle; if one has
      been refused there was not. */
  ghost predicate Decided(spaces0: map<nat, Space>, spaces: map<nat, Space>, packets: seq<Packet>, n: nat,
                          accepted: seq<bool>) {
    && n == |accepted| <= |packets| && Usable(spaces0) && Usable(spaces)
    && if forall i :: 0 <= i < n ==> accepted[i]
       then RoomForAll(spaces0, packets, 0) <==> RoomForAll(spaces, packets, n)
       else !RoomForAll(spaces0, packets, 0)
  }

  lemma DecidedMore(spaces0: map<nat, Space>, spaces: map<nat, Space>, packets: seq<Packet>, n: nat,
                    accepted: seq<bool>)
    requires Decided(spaces0, spaces, packets, n, accepted) && n < |packets| && packets[n].opaque_ in spaces
    ensures var q := packets[n].opaque_;
            var ok := Fits(spaces[q], 1);
            Decided(spaces0, spaces[q := Next(spaces[q], ok)], packets, n + 1, accepted + [ok])
  {
    RoomStep(spaces, packets, n);
    var q := packets[n].opaque_;
    var ok := Fits(spaces[q], 1);
    hide RoomForAll, Fits;
    var accepted' := accepted + [ok];
    assert forall i :: 0 <= i < n ==> accepted'[i] == accepted[i];
    assert accepted'[n] == ok;
  }

  lemma RoomDecided(spaces0: map<nat, Space>, spaces: map<nat, Space>, bundle: seq<Packet>, rc: nat,
                    accepted: seq<bool>)
    requires Decided(spaces0, spaces, WithRc(bundle, rc), |bundle|, accepted)
    ensures (forall i :: 0 <= i < |accepted| ==> accepted[i]) <==>
            forall q :: q in spaces0 ==> Fits(spaces0[q], |All(bundle, q)|)
  {
    var packets := WithRc(bundle, rc);
    forall q ensures Rest(packets, |packets|, q) == 0 && Rest(packets, 0, q) == |All(bundle, q)| {
      NoneLeft(packets, q);
      SameQueues(bundle, rc, q);
    }
    assert RoomForAll(spaces, packets, |packets|);
  }

  lemma {:induction false} SameQueues(bundle: seq<Packet>, rc: nat, q: nat)
    ensures |All(WithRc(bundle, rc), q)| == |All(bundle, q)|
  {
    if bundle != [] {
      var n := |bundle| - 1;
      assert WithRc(bundle, rc)[..n] == WithRc(bundle[..n], rc);
      SameQueues(bundle[..n], rc, q);
    }
  }

  // ---------------------------------------------------------------- when packets are lost

  /** A writer's producer in an accessor's reap queue. Other writers and the accessor itself have theirs in the same
      pool. */
  ghost predicate IsReapQueue(p: ImplicitProducer<Packet>)
    reads p, p.pool, p.pool.cells, p.keys, p.values
  {
    && p.Valid() && p.pool.blockSize == BLOCK_SIZE && p.pool.size == REAP_BLOCKS
    && p.keys.Length == INDEX_SIZE && p.half == HALF && p.maxSubqueue == None
  }

  /** How many of the queue's blocks the other producers have. */
  ghost function TakenByOthers(p: ImplicitProducer<Packet>): nat
    reads p, p.pool
    requires p.pool.Valid()
  {
    |p.pool.Owned() - Elems(p.live)|
  }

  /** The queue has capacity for 2^21 packets, in 2048 blocks, but the index of one producer has 256 entries and may not
      grow: what a writer returns is refused, and lost, exactly from the packet on that needs a new block and finds 256
      of its own not yet reaped, or all 2048 taken. */
  lemma LostFrom(p: ImplicitProducer<Packet>)
    requires IsReapQueue(p)
    ensures p.lo <= p.tailIndex / BLOCK_SIZE && p.lo * BLOCK_SIZE <= p.headIndex
    ensures p.Room(1) <==>
              || p.tailIndex % BLOCK_SIZE != 0
              || (p.tailIndex / BLOCK_SIZE - p.lo < INDEX_SIZE
                  && p.tailIndex / BLOCK_SIZE - p.lo + TakenByOthers(p) < REAP_BLOCKS)
  {
    p.RoomIsFits(1);
    RefusedExactly(p.SpaceLeft());
    BlockBelow(p.lo, p.tailIndex, BLOCK_SIZE);
    p.LaidShape(p.Hi());
    StartedBounds(p.tailIndex, BLOCK_SIZE);
  }

  /** A run in which a packet is lost: one accessor, one writer, 262,144 packets returned and not reaped, and one
      more. */
  method LoseOne(packet: Packet) returns (p: ImplicitProducer<Packet>, ok: bool)
    ensures IsReapQueue(p) && !ok
    ensures |p.Contents()| == INDEX_SIZE * BLOCK_SIZE
  {
    var pool := new Pool<Packet>(BLOCK_SIZE, REAP_BLOCKS);
    p := new ImplicitProducer<Packet>(pool, INDEX_SIZE, HALF, None);
    var n := 0;
    while n < INDEX_SIZE * BLOCK_SIZE
      invariant 0 <= n <= INDEX_SIZE * BLOCK_SIZE
      invariant IsReapQueue(p) && pool.Owned() - Elems(p.live) == {}
      invariant p.pool == pool && p.headIndex == 0 == p.lo && |p.items| == n
      invariant fresh(p) && fresh(pool) && fresh(pool.cells) && fresh(p.keys) && fresh(p.values)
    {
      LostFrom(p);
      ok := p.Enqueue(packet);
      assert |p.Contents()| == n + 1;
      n := n + 1;
    }
    LostFrom(p);
    ok := p.Enqueue(packet);
  }
}
