/** The submitting side of an accessor (comms_accessor.cc): packets are batched per destination, a full bundle is
    deposited, and a bundle that cannot be deposited goes straight to the accessor's own reap queue. Module Bundles
    has the bundle as an object; here a bundle is the sequence of its packets. */
module Accessors {
  import opened Collections
  import opened Bundles

  /** The queue that writers take bundles from. Whether it accepts a bundle is up to its room and the other
      threads using it. */
  class DepositQueue {
    var bundles: seq<seq<Packet>>

    constructor ()
      ensures bundles == []
    {
      bundles := [];
    }

    /** EndPoint::deposit_n */
    method TryEnqueue(bundle: seq<Packet>) returns (ok: bool)
      modifies this
      ensures bundles == if ok then old(bundles) + [bundle] else old(bundles)
    {
      ok := *;
      if ok {
        bundles := bundles + [bundle];
      }
    }
  }

  /** A bundle handed to deposit_n: the packets as they were submitted, and whether it was accepted. */
  datatype Deposit = Deposit(dst: nat, packets: seq<Packet>, ok: bool)

  /** The packets for one destination. */
  function For(packets: seq<Packet>, dst: nat): seq<Packet> {
    if packets == [] then []
    else
      var last := packets[|packets| - 1];
      For(packets[..|packets| - 1], dst) + (if last.dstOrRc == dst then [last] else [])
  }

  /** The packets deposited for one destination, in order. */
  function DepositedFor(deposits: seq<Deposit>, dst: nat): seq<Packet> {
    if deposits == [] then []
    else
      var last := deposits[|deposits| - 1];
      DepositedFor(deposits[..|deposits| - 1], dst) + (if last.dst == dst then last.packets else [])
  }

  /** What reached the deposit queue, and what came back at once. */
  function Accepted(deposits: seq<Deposit>, queue: nat): seq<seq<Packet>> {
    if deposits == [] then []
    else
      var last := deposits[|deposits| - 1];
      Accepted(deposits[..|deposits| - 1], queue) + (if last.ok then [WithOpaque(last.packets, queue)] else [])
  }

  function Refused(deposits: seq<Deposit>, queue: nat): seq<Packet> {
    if deposits == [] then []
    else
      var last := deposits[|deposits| - 1];
      Refused(deposits[..|deposits| - 1], queue)
        + (if last.ok then [] else WithRc(WithOpaque(last.packets, queue), COMMS_NOT_SCHEDULED))
  }

  lemma DepositMore(deposits: seq<Deposit>, d: Deposit, queue: nat)
    ensures forall dst ::
              DepositedFor(deposits + [d], dst)
              == DepositedFor(deposits, dst) + (if d.dst == dst then d.packets else [])
    ensures Accepted(deposits + [d], queue)
            == Accepted(deposits, queue) + (if d.ok then [WithOpaque(d.packets, queue)] else [])
    ensures Refused(deposits + [d], queue)
            == Refused(deposits, queue)
              + (if d.ok then [] else WithRc(WithOpaque(d.packets, queue), COMMS_NOT_SCHEDULED))
  {
    assert (deposits + [d])[..|deposits|] == deposits;
  }

  /** A deposit moves a bundle, and nothing gets lost or out of order. */
  lemma OrderKept(deposits: seq<Deposit>, deposited: Deposit, submitted: seq<Packet>, bundle: seq<Packet>,
                  bundle': seq<Packet>, dst: nat)
    requires DepositedFor(deposits, dst) + bundle == For(submitted, dst)
    requires if deposited.dst == dst then deposited.packets == bundle && bundle' == [] else bundle' == bundle
    ensures DepositedFor(deposits + [deposited], dst) + bundle' == For(submitted, dst)
  {
    hide DepositedFor, For, Accepted, Refused, WithOpaque, WithRc;
    DepositMore(deposits, deposited, 0);
    var before := DepositedFor(deposits, dst);
    assert DepositedFor(deposits + [deposited], dst)
           == before + (if deposited.dst == dst then deposited.packets else []);
    assert before + [] + bundle == before + bundle + [] == before + bundle;
  }

  lemma ForMore(packets: seq<Packet>, p: Packet, dst: nat)
    ensures For(packets + [p], dst) == For(packets, dst) + (if p.dstOrRc == dst then [p] else [])
  {
    assert (packets + [p])[..|packets|] == packets;
  }

  lemma ForNext(packets: seq<Packet>, n: nat)
    requires n < |packets|
    ensures forall dst ::
              |For(packets[..n + 1], dst)| == |For(packets[..n], dst)| + (if packets[n].dstOrRc == dst then 1 else 0)
  {
    assert packets[..n + 1] == packets[..n] + [packets[n]];
    forall dst
      ensures |For(packets[..n + 1], dst)| == |For(packets[..n], dst)| + (if packets[n].dstOrRc == dst then 1 else 0)
    {
      ForMore(packets[..n], packets[n], dst);
    }
  }

  /** The first n bundles have been deposited, one after the other, whatever is in them. */
  ghost predicate Flushed(deposits0: seq<Deposit>, bundles0: seq<seq<Packet>>, deposits: seq<Deposit>, n: nat) {
    && n <= |bundles0| && |deposits| == |deposits0| + n
    && forall i :: |deposits0| <= i < |deposits| ==>
         deposits[i].dst == i - |deposits0| && deposits[i].packets == bundles0[i - |deposits0|]
  }

  lemma FlushedMore(deposits0: seq<Deposit>, bundles0: seq<seq<Packet>>, deposits: seq<Deposit>, n: nat,
                    deposits': seq<Deposit>)
    requires Flushed(deposits0, bundles0, deposits, n) && n < |bundles0| && |deposits'| == |deposits| + 1
    requires deposits'[..|deposits|] == deposits
    requires deposits'[|deposits|].dst == n && deposits'[|deposits|].packets == bundles0[n]
    ensures Flushed(deposits0, bundles0, deposits', n + 1)
  {
    forall i | 0 <= i < |deposits| ensures deposits'[i] == deposits[i] {
      assert deposits'[i] == deposits'[..|deposits|][i];
    }
  }

  lemma NoneFlushed(deposits0: seq<Deposit>, bundles0: seq<seq<Packet>>)
    ensures Flushed(deposits0, bundles0, deposits0, 0)
  {
  }

  class Accessor {
    const queueName: nat                            // the address of its reap queue
    const submitBundles: array<seq<Packet>>         // submit_bundles_, one for each end point
    const depositQueue: DepositQueue
    var reapQueue: seq<Packet>                      // reap_queue_
    ghost var submitted: seq<Packet>                // every packet passed to submit_n
    ghost var deposits: seq<Deposit>                // every deposit tried

    /** Per destination, the packets deposited and those still in the bundle are all the packets submitted, in order. */
    ghost predicate InOrder(dst: nat)
      reads this, submitBundles
      requires dst < submitBundles.Length
    {
      DepositedFor(deposits, dst) + submitBundles[dst] == For(submitted, dst)
    }

    /** No bundle is full between calls, and every packet is for an existing end point. */
    ghost predicate Valid()
      reads this, submitBundles
    {
      && (forall d :: 0 <= d < submitBundles.Length ==> |submitBundles[d]| < COMMS_BUNDLE_SIZE && InOrder(d))
      && (forall i :: 0 <= i < |submitted| ==> submitted[i].dstOrRc < submitBundles.Length)
      && (forall i :: 0 <= i < |deposits| ==> |deposits[i].packets| <= COMMS_BUNDLE_SIZE)
    }

    constructor (queueName: nat, endPoints: nat, depositQueue: DepositQueue)
      ensures Valid() && fresh(submitBundles) && submitBundles.Length == endPoints && reapQueue == []
      ensures this.queueName == queueName && this.depositQueue == depositQueue && submitted == [] && deposits == []
    {
      this.queueName, this.depositQueue, reapQueue := queueName, depositQueue, [];
      submitBundles := new seq<Packet>[endPoints](_ => []);
      submitted, deposits := [], [];
    }

    /** Since an earlier moment, the queues have got exactly the deposits made, accepted ones here and refused ones
        there. */
    ghost predicate Routed(deposits0: seq<Deposit>, bundles0: seq<seq<Packet>>, reap0: seq<Packet>)
      reads this, depositQueue
    {
      RoutedBetween(queueName, deposits0, bundles0, reap0, deposits, depositQueue.bundles, reapQueue)
    }

    /** comms_accessor_submit_bundle. The source waits until the reap queue has room. */
    method SubmitBundle(dst: nat)
      requires dst < submitBundles.Length && |submitBundles[dst]| <= COMMS_BUNDLE_SIZE
      modifies this`reapQueue, this`deposits, submitBundles, depositQueue
      ensures |deposits| == |old(deposits)| + 1 && deposits[..|old(deposits)|] == old(deposits)
      ensures deposits[|old(deposits)|].dst == dst && deposits[|old(deposits)|].packets == old(submitBundles[dst])
      ensures Routed(old(deposits), old(depositQueue.bundles), old(reapQueue))
      ensures submitBundles[dst] == [] && forall d :: 0 <= d < submitBundles.Length && d != dst ==>
                submitBundles[d] == old(submitBundles[d])
    {
      ghost var given := submitBundles[dst];
      submitBundles[dst] := WithOpaque(submitBundles[dst], queueName);
      var ok := depositQueue.TryEnqueue(submitBundles[dst]);
      if !ok {
        submitBundles[dst] := WithRc(submitBundles[dst], COMMS_NOT_SCHEDULED);
        reapQueue := reapQueue + submitBundles[dst];
      }
      submitBundles[dst] := [];
      ghost var d := Deposit(dst, given, ok);
      deposits := deposits + [d];
      OneDeposit(d, queueName);
      assert deposits[|old(deposits)|..] == [d];
    }

    /** The deposits made since an earlier moment are of full bundles. */
    ghost predicate FullSince(deposits0: seq<Deposit>)
      reads this
    {
      deposits0 <= deposits && forall i :: |deposits0| <= i < |deposits| ==> |deposits[i].packets| == COMMS_BUNDLE_SIZE
    }

    /** submit_n: a bundle is deposited just when it is full. */
    method SubmitN(packetList: seq<Packet>)
      requires Valid() && forall i :: 0 <= i < |packetList| ==> packetList[i].dstOrRc < submitBundles.Length
      modifies this`reapQueue, this`deposits, this`submitted, submitBundles, depositQueue
      ensures Valid() && Routed(old(deposits), old(depositQueue.bundles), old(reapQueue))
              && submitted == old(submitted) + packetList
      ensures forall i :: |old(deposits)| <= i < |deposits| ==> |deposits[i].packets| == COMMS_BUNDLE_SIZE
      ensures forall d :: 0 <= d < submitBundles.Length ==>
                |submitBundles[d]| == (|old(submitBundles[d])| + |For(packetList, d)|) % COMMS_BUNDLE_SIZE
    {
      hide Accepted, Refused, For, DepositedFor, RoutedBetween;
      var index := 0;
      NothingYet(deposits, depositQueue.bundles, reapQueue);
      while index < |packetList|
        invariant 0 <= index <= |packetList|
        invariant Valid() && Routed(old(deposits), old(depositQueue.bundles), old(reapQueue))
                  && submitted == old(submitted) + packetList[..index]
        invariant FullSince(old(deposits))
        invariant forall d :: 0 <= d < submitBundles.Length ==>
                    |submitBundles[d]| == (|old(submitBundles[d])| + |For(packetList[..index], d)|) % COMMS_BUNDLE_SIZE
      {
        ForNext(packetList, index);
        ghost var deposits1, bundles1, reap1 := deposits, depositQueue.bundles, reapQueue;
        SubmitOne(packetList[index]);
        RoutedStill(old(deposits), old(depositQueue.bundles), old(reapQueue), deposits1, bundles1, reap1);
        index := index + 1;
      }
      assert packetList[..index] == packetList;
    }

    lemma NothingYet(deposits0: seq<Deposit>, bundles0: seq<seq<Packet>>, reap0: seq<Packet>)
      requires deposits0 == deposits && bundles0 == depositQueue.bundles && reap0 == reapQueue
      ensures Routed(deposits0, bundles0, reap0) && FullSince(deposits0)
      ensures forall d :: For([], d) == []
    {
      AcceptedNone(deposits, queueName);
    }

    lemma RoutedStill(d0: seq<Deposit>, b0: seq<seq<Packet>>, r0: seq<Packet>, d1: seq<Deposit>, b1: seq<seq<Packet>>,
                      r1: seq<Packet>)
      requires RoutedBetween(queueName, d0, b0, r0, d1, b1, r1) && Routed(d1, b1, r1)
      ensures Routed(d0, b0, r0) && d0 <= d1 <= deposits
    {
      RoutedOn(queueName, d0, b0, r0, d1, b1, r1, deposits, depositQueue.bundles, reapQueue);
    }

    /** The loop body of submit_n */
    method SubmitOne(packet: Packet)
      requires Valid() && packet.dstOrRc < submitBundles.Length
      modifies this`reapQueue, this`deposits, this`submitted, submitBundles, depositQueue
      ensures Valid() && Routed(old(deposits), old(depositQueue.bundles), old(reapQueue))
              && submitted == old(submitted) + [packet]
      ensures FullSince(old(deposits))
      ensures forall d :: 0 <= d < submitBundles.Length ==>
                |submitBundles[d]|
                == (|old(submitBundles[d])| + (if packet.dstOrRc == d then 1 else 0)) % COMMS_BUNDLE_SIZE
    {
      hide Accepted, Refused, For, DepositedFor, RoutedBetween;
      var dst := packet.dstOrRc;
      forall d | 0 <= d < submitBundles.Length
        ensures For(submitted + [packet], d) == For(submitted, d) + (if packet.dstOrRc == d then [packet] else [])
      {
        ForMore(submitted, packet, d);
      }
      submitBundles[dst] := submitBundles[dst] + [packet];
      submitted := submitted + [packet];
      NothingYet(deposits, depositQueue.bundles, reapQueue);
      if |submitBundles[dst]| == COMMS_BUNDLE_SIZE {
        SubmitAndKeepOrder(dst);
      }
    }

    method SubmitAndKeepOrder(dst: nat)
      requires dst < submitBundles.Length && |submitBundles[dst]| <= COMMS_BUNDLE_SIZE
      requires forall d :: 0 <= d < submitBundles.Length ==>
                 InOrder(d) && (d == dst || |submitBundles[d]| < COMMS_BUNDLE_SIZE)
      requires forall i :: 0 <= i < |submitted| ==> submitted[i].dstOrRc < submitBundles.Length
      requires forall i :: 0 <= i < |deposits| ==> |deposits[i].packets| <= COMMS_BUNDLE_SIZE
      modifies this`reapQueue, this`deposits, submitBundles, depositQueue
      ensures Valid() && Routed(old(deposits), old(depositQueue.bundles), old(reapQueue)) && submitBundles[dst] == []
      ensures |deposits| == |old(deposits)| + 1 && deposits[..|old(deposits)|] == old(deposits)
      ensures deposits[|old(deposits)|].dst == dst && deposits[|old(deposits)|].packets == old(submitBundles[dst])
      ensures forall d :: 0 <= d < submitBundles.Length && d != dst ==> submitBundles[d] == old(submitBundles[d])
    {
      SubmitBundle(dst);
      var deposited := deposits[|old(deposits)|];
      assert deposits == old(deposits) + [deposited];
      hide DepositedFor, For, RoutedBetween;
      forall d | 0 <= d < submitBundles.Length ensures InOrder(d) {
        assert old(InOrder(d));
        OrderKept(old(deposits), deposited, submitted, old(submitBundles[d]), submitBundles[d], d);
      }
    }

    /** submit_flush: every bundle is deposited, even if it is empty. */
    method SubmitFlush()
      requires Valid()
      modifies this`reapQueue, this`deposits, submitBundles, depositQueue
      ensures Valid() && Routed(old(deposits), old(depositQueue.bundles), old(reapQueue))
      ensures forall d :: 0 <= d < submitBundles.Length ==>
                submitBundles[d] == [] && DepositedFor(deposits, d) == For(submitted, d)
      ensures Flushed(old(deposits), old(submitBundles[..]), deposits, submitBundles.Length)
    {
      hide Accepted, Refused, For, DepositedFor, RoutedBetween, Flushed;
      var index := 0;
      ghost var deposits0, bundles0 := deposits, submitBundles[..];
      NothingYet(deposits, depositQueue.bundles, reapQueue);
      assert Flushed(deposits0, bundles0, deposits, 0) by { NoneFlushed(deposits0, bundles0); }
      while index < submitBundles.Length
        invariant 0 <= index <= submitBundles.Length
        invariant Valid() && Routed(old(deposits), old(depositQueue.bundles), old(reapQueue))
        invariant forall d :: 0 <= d < submitBundles.Length ==>
                    submitBundles[d] == if d < index then [] else old(submitBundles[d])
        invariant Flushed(deposits0, bundles0, deposits, index)
      {
        ghost var deposits1, bundles1, reap1 := deposits, depositQueue.bundles, reapQueue;
        SubmitAndKeepOrder(index);
        RoutedStill(old(deposits), old(depositQueue.bundles), old(reapQueue), deposits1, bundles1, reap1);
        FlushedMore(deposits0, bundles0, deposits1, index, deposits);
        index := index + 1;
      }
      forall d | 0 <= d < submitBundles.Length ensures DepositedFor(deposits, d) == For(submitted, d) {
        assert InOrder(d);
      }
    }
  }

  lemma AcceptedNone(deposits: seq<Deposit>, queue: nat)
    ensures deposits[|deposits|..] == [] && Accepted([], queue) == [] && Refused([], queue) == []
  {
  }

  lemma OneDeposit(d: Deposit, queue: nat)
    ensures Accepted([d], queue) == if d.ok then [WithOpaque(d.packets, queue)] else []
    ensures Refused([d], queue) == if d.ok then [] else WithRc(WithOpaque(d.packets, queue), COMMS_NOT_SCHEDULED)
  {
    DepositMore([], d, queue);
    assert [] + [d] == [d];
  }

  lemma {:induction false} AcceptedConcat(a: seq<Deposit>, b: seq<Deposit>, queue: nat)
    ensures Accepted(a + b, queue) == Accepted(a, queue) + Accepted(b, queue)
    ensures Refused(a + b, queue) == Refused(a, queue) + Refused(b, queue)
  {
    AcceptedNone([], queue);
    hide Accepted, Refused;
    if b == [] {
      assert a + b == a;
    } else {
      var n := |b| - 1;
      var c, x := b[..n], b[n];
      AcceptedConcat(a, c, queue);
      assert a + b == a + c + [x] && b == c + [x];
      ConcatMore(a, c, x, queue);
    }
  }

  lemma ConcatMore(a: seq<Deposit>, c: seq<Deposit>, x: Deposit, queue: nat)
    requires Accepted(a + c, queue) == Accepted(a, queue) + Accepted(c, queue)
    requires Refused(a + c, queue) == Refused(a, queue) + Refused(c, queue)
    ensures Accepted(a + c + [x], queue) == Accepted(a, queue) + Accepted(c + [x], queue)
    ensures Refused(a + c + [x], queue) == Refused(a, queue) + Refused(c + [x], queue)
  {
    DepositMore(a + c, x, queue);
    DepositMore(c, x, queue);
    hide Accepted, Refused, WithOpaque, WithRc, DepositedFor;
    Associative(Accepted(a, queue), Accepted(c, queue), if x.ok then [WithOpaque(x.packets, queue)] else []);
    Associative(Refused(a, queue), Refused(c, queue),
                if x.ok then [] else WithRc(WithOpaque(x.packets, queue), COMMS_NOT_SCHEDULED));
  }

  ghost predicate RoutedBetween(queue: nat, deposits: seq<Deposit>, bundles: seq<seq<Packet>>, reap: seq<Packet>,
                                deposits': seq<Deposit>, bundles': seq<seq<Packet>>, reap': seq<Packet>) {
    && deposits <= deposits'
    && bundles' == bundles + Accepted(deposits'[|deposits|..], queue)
    && reap' == reap + Refused(deposits'[|deposits|..], queue)
  }

  lemma RoutedOn(queue: nat, d0: seq<Deposit>, b0: seq<seq<Packet>>, r0: seq<Packet>, d1: seq<Deposit>,
                 b1: seq<seq<Packet>>, r1: seq<Packet>, d2: seq<Deposit>, b2: seq<seq<Packet>>, r2: seq<Packet>)
    requires RoutedBetween(queue, d0, b0, r0, d1, b1, r1) && RoutedBetween(queue, d1, b1, r1, d2, b2, r2)
    ensures RoutedBetween(queue, d0, b0, r0, d2, b2, r2)
  {
    hide Accepted, Refused;
    AcceptedConcat(d1[|d0|..], d2[|d1|..], queue);
    assert d2[|d0|..] == d1[|d0|..] + d2[|d1|..];
    var x, y := Accepted(d1[|d0|..], queue), Accepted(d2[|d1|..], queue);
    assert b0 + (x + y) == b0 + x + y;
    var v, w := Refused(d1[|d0|..], queue), Refused(d2[|d1|..], queue);
    assert r0 + (v + w) == r0 + v + w;
  }
}
