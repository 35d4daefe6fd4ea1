/** catch_n of comms_accessor.cc: bundles of up to 4096 packets are re-chunked into requests of any size, through a
    local queue of left-over packets. That queue is a ConcurrentQueue of default capacity, 6 blocks of 1024 packets,
    used by the one thread that calls catch_n: an implicit producer that has the pool to itself. */
module CatchStream {
  import opened Collections
  import opened Options
  import opened BlockMath
  import opened BlockPool
  import opened Bundles
  import ImplicitQueue

  const DEFAULT_BLOCKS: nat := 6                    // capacity 6 * BLOCK_SIZE

  /** The shared queue of received bundles, as the catching thread sees it: the bundles it will be handed. */
  class BundleSource {
    var bundles: seq<seq<Packet>>

    constructor (bundles: seq<seq<Packet>>)
      ensures this.bundles == bundles
    {
      this.bundles := bundles;
    }

    method TryDequeue() returns (bundle: Option<seq<Packet>>)
      modifies this
      ensures if old(bundles) == [] then bundle == None && bundles == []
              else bundle == Some(old(bundles)[0]) && bundles == old(bundles)[1..]
    {
      if bundles == [] {
        return None;
      }
      bundle := Some(bundles[0]);
      bundles := bundles[1..];
    }
  }

  class Catcher {
    const local: ImplicitQueue.ImplicitProducer<Packet>     // catch_queue_
    const source: BundleSource                              // C_->catch_queue_
    ghost var dequeued: seq<seq<Packet>>                    // every bundle taken from the source
    ghost var delivered: seq<Packet>                        // every packet returned to a caller

    /** The local queue is intact and no other producer has blocks of its pool. */
    ghost predicate LocalOk()
      reads local, local.pool, local.pool.cells, local.keys, local.values
    {
      && local.Valid() && local.pool.blockSize == BLOCK_SIZE && local.pool.size == DEFAULT_BLOCKS
      && local.pool.Owned() - Elems(local.live) == {}
      && local.keys.Length == INDEX_SIZE && local.half == HALF && local.maxSubqueue == None
    }

    ghost predicate Valid()
      reads this, source, local, local.pool, local.pool.cells, local.keys, local.values
    {
      && LocalOk() && local.headIndex <= |local.items|
      && (forall i :: 0 <= i < |source.bundles| ==> |source.bundles[i]| <= COMMS_BUNDLE_SIZE)
      && delivered + local.Contents() == Flatten(dequeued)
    }

    constructor (source: BundleSource)
      requires forall i :: 0 <= i < |source.bundles| ==> |source.bundles[i]| <= COMMS_BUNDLE_SIZE
      ensures Valid() && this.source == source && delivered == [] && dequeued == []
    {
      var pool := new Pool<Packet>(BLOCK_SIZE, DEFAULT_BLOCKS);
      local := new ImplicitQueue.ImplicitProducer<Packet>(pool, INDEX_SIZE, HALF, None);
      this.source := source;
      dequeued, delivered := [], [];
    }

    /** A drained local queue has room for any left-over: at most one of its six blocks is still in use. */
    lemma RoomWhenDrained(n: nat)
      requires LocalOk() && local.Contents() == [] && n < COMMS_BUNDLE_SIZE
      ensures local.Room(n)
    {
      var q := local;
      var tail, bs := q.tailIndex, BLOCK_SIZE;
      LastBlock(tail, bs);
      assert q.lo * bs <= tail < q.lo * bs + bs;
      assert |q.live| <= 1;
      DistinctSize(q.live);
      forall b | b in q.pool.Owned() ensures b in Elems(q.live) {
        assert b !in q.pool.Owned() - Elems(q.live);
      }
      assert q.pool.Owned() == Elems(q.live);
      q.pool.Conserved();
      assert q.pool.Available() >= 5;
      assert Started(tail + n, bs) <= Started(tail, bs) + 4;
    }

    /** Keep what is left of a bundle; this cannot fail. */
    method Keep(rest: seq<Packet>)
      requires LocalOk() && local.Contents() == [] && |rest| < COMMS_BUNDLE_SIZE
      modifies local, local.pool, local.pool.cells, local.keys, local.values
      ensures LocalOk() && local.headIndex <= |local.items| && local.Contents() == rest
    {
      RoomWhenDrained(|rest|);
      var ok := local.EnqueueBulk(rest);
      assert ok;
    }

    method TakeLocal(max: nat) returns (packets: seq<Packet>)
      requires LocalOk()
      modifies local, local.pool, local.pool.cells, local.keys, local.values
      ensures LocalOk() && local.headIndex <= |local.items| && |packets| <= max
              && (|packets| < max ==> local.Contents() == [])
      ensures packets + local.Contents() == old(local.Contents())
    {
      packets := local.DequeueBulk(max);
      assert old(local.Contents()) == packets + old(local.Contents())[|packets|..];
    }

    /** catch_n: up to packetCount packets. The packets it returned so far and those left in the local queue are
        always the packets of the bundles taken, in order; fewer than asked for only when nothing is left. */
    method CatchN(packetCount: nat) returns (packets: seq<Packet>)
      requires Valid()
      modifies this, source, local, local.pool, local.pool.cells, local.keys, local.values
      ensures Valid()
      ensures delivered == old(delivered) + packets && |packets| <= packetCount
      ensures |packets| < packetCount ==> source.bundles == [] && local.Contents() == []
      ensures old(dequeued) <= dequeued && dequeued[|old(dequeued)|..] + source.bundles == old(source.bundles)
    {
      hide LocalOk;
      packets := TakeLocal(packetCount);
      Associative(delivered, packets, local.Contents());
      delivered := delivered + packets;
      if |packets| == packetCount {
        return;
      }
      while |packets| < packetCount
        invariant Valid() && delivered == old(delivered) + packets && |packets| <= packetCount
        invariant |packets| < packetCount ==> local.Contents() == []
        invariant old(dequeued) <= dequeued && dequeued[|old(dequeued)|..] + source.bundles == old(source.bundles)
        decreases |source.bundles|
      {
        var bundle := source.TryDequeue();
        if bundle == None {
          return;
        }
        var part := Deliver(bundle.value, packetCount - |packets|);
        packets := packets + part;
      }
    }

    /** Hand out as much of a bundle as is asked for and keep the rest. */
    method Deliver(bundle: seq<Packet>, wanted: nat) returns (part: seq<Packet>)
      requires Valid() && local.Contents() == [] && 0 < wanted && |bundle| <= COMMS_BUNDLE_SIZE
      modifies this, local, local.pool, local.pool.cells, local.keys, local.values
      ensures Valid() && source.bundles == old(source.bundles)
      ensures dequeued == old(dequeued) + [bundle] && delivered == old(delivered) + part
      ensures |part| <= wanted && (|part| < wanted ==> local.Contents() == [])
    {
      hide LocalOk;
      var count := if wanted < |bundle| then wanted else |bundle|;
      part := bundle[..count];
      FlattenMore(dequeued, bundle);
      assert bundle == part + bundle[count..];
      Associative(delivered, part, bundle[count..]);
      assert delivered + [] == delivered;
      if count < |bundle| {
        Keep(bundle[count..]);
      }
      dequeued := dequeued + [bundle];
      delivered := delivered + part;
    }
  }
}
