/** Packets and the bundles they travel in (comms_bundle.cc, comms.h). */
module Bundles {
  const COMMS_BUNDLE_SIZE: nat := 4096
  const COMMS_NOT_SCHEDULED: nat := 1

  // queues of packets
  const BLOCK_SIZE: nat := 1024                     // CommsPacketTraits::BLOCK_SIZE
  const INDEX_SIZE: nat := 256                      // CommsPacketTraits::IMPLICIT_INITIAL_INDEX_SIZE
  const HALF: nat := 0x8000_0000_0000_0000          // half the range of index_t

  /** comms_packet_t: a union makes one word the destination of a submitted packet and the return code of a
      reaped one. `opaque_` names the reap queue that the packet goes back to. */
  datatype Packet = Packet(size: nat, dstOrRc: nat, tag: nat, payload: nat, opaque_: nat)

  function WithRc(packets: seq<Packet>, rc: nat): (r: seq<Packet>)
    ensures |r| == |packets|
    ensures forall i :: 0 <= i < |packets| ==> r[i] == packets[i].(dstOrRc := rc)
  {
    if packets == [] then [] else [packets[0].(dstOrRc := rc)] + WithRc(packets[1..], rc)
  }

  function WithOpaque(packets: seq<Packet>, queue: nat): (r: seq<Packet>)
    ensures |r| == |packets|
    ensures forall i :: 0 <= i < |packets| ==> r[i] == packets[i].(opaque_ := queue)
  {
    if packets == [] then [] else [packets[0].(opaque_ := queue)] + WithOpaque(packets[1..], queue)
  }

  class Bundle {
    var size_: nat
    const packetList: array<Packet>

    ghost predicate Valid()
      reads this
    {
      packetList.Length == COMMS_BUNDLE_SIZE && size_ <= COMMS_BUNDLE_SIZE
    }

    function Packets(): seq<Packet>
      reads this, packetList
      requires Valid()
    {
      packetList[..size_]
    }

    constructor ()
      ensures Valid() && fresh(packetList) && Packets() == []
    {
      size_ := 0;
      packetList := new Packet[COMMS_BUNDLE_SIZE](_ => Packet(0, 0, 0, 0, 0));
    }

    /** There is no check: the caller must leave room. */
    method Add(packet: Packet)
      requires Valid() && size_ < COMMS_BUNDLE_SIZE
      modifies this`size_, packetList
      ensures Valid() && Packets() == old(Packets()) + [packet]
    {
      packetList[size_] := packet;
      size_ := size_ + 1;
    }

    method Clear()
      requires Valid()
      modifies this`size_
      ensures Valid() && Packets() == []
    {
      size_ := 0;
    }

    method SetReapRc(rc: nat)
      requires Valid()
      modifies packetList
      ensures Packets() == WithRc(old(Packets()), rc)
    {
      var index := 0;
      while index < size_
        invariant 0 <= index <= size_
        invariant forall i :: 0 <= i < packetList.Length ==>
                    packetList[i] == if i < index then old(packetList[i]).(dstOrRc := rc) else old(packetList[i])
      {
        packetList[index] := packetList[index].(dstOrRc := rc);
        index := index + 1;
      }
      assert Packets() == WithRc(old(Packets()), rc);
    }

    /** Every packet's opaque pointer is set to the submitting accessor's reap queue. */
    method SetOpaque(queue: nat)
      requires Valid()
      modifies packetList
      ensures Packets() == WithOpaque(old(Packets()), queue)
    {
      var index := 0;
      while index < size_
        invariant 0 <= index <= size_
        invariant forall i :: 0 <= i < packetList.Length ==>
                    packetList[i] == if i < index then old(packetList[i]).(opaque_ := queue) else old(packetList[i])
      {
        packetList[index] := packetList[index].(opaque_ := queue);
        index := index + 1;
      }
      assert Packets() == WithOpaque(old(Packets()), queue);
    }
  }

  /** The packets of a list of bundles, in order. */
  function Flatten(bundles: seq<seq<Packet>>): seq<Packet> {
    if bundles == [] then [] else Flatten(bundles[..|bundles| - 1]) + bundles[|bundles| - 1]
  }

  lemma FlattenMore(bundles: seq<seq<Packet>>, b: seq<Packet>)
    ensures Flatten(bundles + [b]) == Flatten(bundles) + b
  {
    assert (bundles + [b])[..|bundles|] == bundles;
  }
}
