/** The bulk dequeue with a consumer token, which walks the cycle of producers from the one the token points at and
    moves that pointer while it walks, and the rotation of tokens between producers. Nothing else uses the queue
    meanwhile; each producer's own dequeue_bulk then takes the oldest min(max, size) elements (modules ExplicitQueue
    and ImplicitQueue). */
module TokenDequeue {
  import opened Collections
  import opened Options
  import opened ModArith

  const QUOTA_BEFORE_ROTATE: nat := 256     // EXPLICIT_CONSUMER_CONSUMPTION_QUOTA_BEFORE_ROTATE
  const UINT32: nat := 0x1_0000_0000

  /** Producers are their positions in the list that begins at producerListTail. */
  type Producer = nat

  class ConsumerToken {
    const initialOffset: nat
    var lastKnownGlobalOffset: nat
    var itemsConsumedFromCurrent: nat
    var currentProducer: Option<Producer>
    var desiredProducer: Option<Producer>

    constructor (initialOffset: nat)
      ensures this.initialOffset == initialOffset && currentProducer == desiredProducer == None
    {
      this.initialOffset := initialOffset;
      lastKnownGlobalOffset, itemsConsumedFromCurrent := UINT32 - 1, 0;
      currentProducer, desiredProducer := None, None;
    }

    /** The count of elements consumed is a 32-bit word. */
    method AddConsumed(n: nat)
      modifies this`itemsConsumedFromCurrent
      ensures itemsConsumedFromCurrent == (old(itemsConsumedFromCurrent) + n) % UINT32
    {
      ModShift(n, itemsConsumedFromCurrent, UINT32);
      itemsConsumedFromCurrent := (itemsConsumedFromCurrent + n % UINT32) % UINT32;
    }

    method MoveTo(p: Producer, n: nat)
      modifies this`currentProducer, this`itemsConsumedFromCurrent
      ensures currentProducer == Some(p) && itemsConsumedFromCurrent == n % UINT32
    {
      currentProducer, itemsConsumedFromCurrent := Some(p), n % UINT32;
    }

    /** For a queue with n producers. */
    predicate Fits(n: nat)
      reads this
    {
      && desiredProducer.Some? == currentProducer.Some?
      && (desiredProducer.Some? ==> desiredProducer.value < n && currentProducer.value < n)
    }
  }

  function Total<T>(queues: seq<seq<T>>): nat {
    if queues == [] then 0 else |queues[0]| + Total(queues[1..])
  }

  lemma {:induction false} TotalUpdate<T>(queues: seq<seq<T>>, p: nat, q: seq<T>)
    requires p < |queues|
    ensures Total(queues[p := q]) == Total(queues) - |queues[p]| + |q|
  {
    if p == 0 {
      assert queues[p := q][1..] == queues[1..];
    } else {
      assert queues[p := q][1..] == queues[1..][p - 1 := q];
      TotalUpdate(queues[1..], p - 1, q);
    }
  }

  lemma {:induction false} AllEmpty<T>(queues: seq<seq<T>>)
    requires forall p :: 0 <= p < |queues| ==> queues[p] == []
    ensures Total(queues) == 0
  {
    if queues != [] {
      AllEmpty(queues[1..]);
    }
  }

  /** A visit took the elements `part` from the front of producer p's queue. */
  datatype Visit<T> = Visit(p: Producer, part: seq<T>)

  function Taken<T>(visits: seq<Visit<T>>): seq<T> {
    if visits == [] then [] else Taken(visits[..|visits| - 1]) + visits[|visits| - 1].part
  }

  /** Each producer was visited at most once with success, and lost just what that visit took. */
  ghost predicate Lost<T>(before: seq<seq<T>>, after: seq<seq<T>>, visits: seq<Visit<T>>) {
    && |before| == |after|
    && (forall i :: 0 <= i < |visits| ==>
        visits[i].p < |before| && before[visits[i].p] == visits[i].part + after[visits[i].p])
    && (forall i, j :: 0 <= i < j < |visits| ==> visits[i].p != visits[j].p)
    && (forall p :: 0 <= p < |before| && Unvisited(visits, p) ==> after[p] == before[p])
  }

  lemma NothingVisited<T>(queues: seq<seq<T>>)
    ensures Taken<T>([]) == [] && Lost(queues, queues, []) && (queues == [] ==> Total(queues) == 0)
  {
  }

  /** Every producer visited so far is empty. */
  predicate Drained<T>(queues: seq<seq<T>>, visits: seq<Visit<T>>) {
    forall i :: 0 <= i < |visits| ==> visits[i].p < |queues| && queues[visits[i].p] == []
  }

  lemma DrainedMore<T>(queues: seq<seq<T>>, visits: seq<Visit<T>>, p: Producer, n: nat)
    requires Drained(queues, visits) && p < |queues| && n <= |queues[p]|
    ensures queues[p] != [] ==> Unvisited(visits, p)
    ensures n == 0 || n == |queues[p]| ==>
              forall part :: Drained(queues[p := queues[p][n..]], visits + (if n == 0 then [] else [Visit(p, part)]))
  {
    assert n == 0 ==> queues[p := queues[p][n..]] == queues;
  }

  /** The current producer is the one visited last with success, since the visits in `before`. */
  ghost predicate At<T>(current: Option<Producer>, current0: Option<Producer>, visits: seq<Visit<T>>,
                        before: seq<Visit<T>>) {
    && before <= visits
    && current == if visits == before then current0 else Some(visits[|visits| - 1].p)
  }

  lemma AtFirst<T>(current: Option<Producer>, visits: seq<Visit<T>>)
    ensures At(current, current, visits, visits)
  {
  }

  lemma AtMore<T>(current: Option<Producer>, current0: Option<Producer>, visits: seq<Visit<T>>, before: seq<Visit<T>>,
                  p: Producer, part: seq<T>)
    requires At(current, current0, visits, before)
    ensures At(if part == [] then current else Some(p), current0,
               visits + (if part == [] then [] else [Visit(p, part)]), before)
  {
  }

  predicate Unvisited<T>(visits: seq<Visit<T>>, p: Producer) {
    forall i :: 0 <= i < |visits| ==> visits[i].p != p
  }

  lemma LostMore<T>(before: seq<seq<T>>, after: seq<seq<T>>, visits: seq<Visit<T>>, p: Producer, n: nat)
    requires Lost(before, after, visits) && p < |after| && n <= |after[p]| && Unvisited(visits, p)
    ensures Lost(before, after[p := after[p][n..]], visits + [Visit(p, after[p][..n])])
    ensures Taken(visits + [Visit(p, after[p][..n])]) == Taken(visits) + after[p][..n]
  {
    var more := visits + [Visit(p, after[p][..n])];
    var after' := after[p := after[p][n..]];
    assert more[..|more| - 1] == visits;
    assert after[p] == after[p][..n] + after[p][n..];
    forall q | 0 <= q < |before| && Unvisited(more, q) ensures after'[q] == before[q] {
      assert more[|visits|].p == p;
      assert forall i :: 0 <= i < |visits| ==> more[i] == visits[i];
      assert Unvisited(visits, q);
    }
  }

  /** The producer n steps on around the cycle. */
  function Around(p: int, n: int, count: nat): nat
    requires count > 0
  {
    (p + n) % count
  }

  class ConcurrentQueue<T> {
    var queues: seq<seq<T>>                        // each producer's sub-queue, by position in the list
    var globalExplicitConsumerOffset: nat

    constructor (queues: seq<seq<T>>)
      ensures this.queues == queues && globalExplicitConsumerOffset == 0
    {
      this.queues, globalExplicitConsumerOffset := queues, 0;
    }

    /** next_prod, or the start of the list again */
    function NextOrTail(p: Producer): Producer
      reads this
    {
      if p + 1 < |queues| then p + 1 else 0
    }

    lemma NextIsAround(p: Producer, start: int, i: nat)
      requires |queues| > 0 && p == Around(start, i, |queues|)
      ensures NextOrTail(p) == Around(start, i + 1, |queues|)
    {
      ModShift(start + i, 1, |queues|);
      if p + 1 < |queues| {
        ModUnique(p + 1, |queues|, 0, p + 1);
      } else {
        ModUnique(p + 1, |queues|, 1, 0);
      }
    }

    /** Go n producers on. */
    method Advance(p: Producer, n: nat) returns (q: Producer)
      requires p < |queues|
      ensures q == Around(p, n, |queues|)
    {
      q := p;
      ModUnique(p, |queues|, 0, p);
      var i := 0;
      while i != n
        invariant 0 <= i <= n && q == Around(p, i, |queues|)
      {
        NextIsAround(q, p, i);
        q := NextOrTail(q);
        i := i + 1;
      }
    }

    /** update_current_producer_after_rotation: the token goes on by as many producers as rotations have
        happened since it last looked; a new token starts at a producer of its own. */
    method UpdateCurrentProducerAfterRotation(token: ConsumerToken) returns (ok: bool)
      requires token.Fits(|queues|)
      modifies token
      ensures token.Fits(|queues|) && ok == (queues != [])
      ensures ok ==>
        var n := |queues|;
        var start := if old(token.desiredProducer) == None then n - 1 - token.initialOffset % n
                     else old(token.desiredProducer.value);
        && token.desiredProducer == token.currentProducer
           == Some(Around(start, (globalExplicitConsumerOffset - old(token.lastKnownGlobalOffset)) % UINT32, n))
        && token.lastKnownGlobalOffset == globalExplicitConsumerOffset && token.itemsConsumedFromCurrent == 0
    {
      if token.desiredProducer == None && queues == [] {
        return false;
      }
      var prodCount := |queues|;
      if token.desiredProducer == None {
        var offset := prodCount - 1 - token.initialOffset % prodCount;
        var first := Advance(0, offset);
        ModUnique(offset, prodCount, 0, offset);
        token.desiredProducer := Some(first);
      }
      var delta := (globalExplicitConsumerOffset - token.lastKnownGlobalOffset) % UINT32;
      ghost var rotations := delta;
      if delta >= prodCount {
        delta := delta % prodCount;
      }
      ghost var start := token.desiredProducer.value;
      ModShift(rotations, start, prodCount);
      var desired := Advance(token.desiredProducer.value, delta);
      token.desiredProducer := Some(desired);
      token.lastKnownGlobalOffset := globalExplicitConsumerOffset;
      token.currentProducer := token.desiredProducer;
      token.itemsConsumedFromCurrent := 0;
      return true;
    }

    /** dequeue_bulk of one producer */
    method DequeueFrom(p: Producer, max: nat, ghost before: seq<seq<T>>, ghost visits: seq<Visit<T>>)
      returns (part: seq<T>, ghost visits': seq<Visit<T>>)
      requires p < |queues| && Lost(before, queues, visits) && Drained(queues, visits)
      modifies this`queues
      ensures |part| == (if max < |old(queues)[p]| then max else |old(queues)[p]|)
      ensures |queues| == |old(queues)| && queues == old(queues)[p := old(queues)[p][|part|..]]
      ensures Lost(before, queues, visits') && Taken(visits') == Taken(visits) + part
      ensures if part == [] then visits' == visits else visits' == visits + [Visit(p, part)]
      ensures Total(queues) == Total(old(queues)) - |part|
      ensures |part| < max ==> queues[p] == [] && Drained(queues, visits')
    {
      var n := if max < |queues[p]| then max else |queues[p]|;
      DrainedMore(queues, visits, p, n);
      part := queues[p][..n];
      visits' := visits;
      if n > 0 {
        LostMore(before, queues, visits, p, n);
        visits' := visits + [Visit(p, part)];
      }
      TotalUpdate(queues, p, queues[p][n..]);
      queues := queues[p := queues[p][n..]];
      assert n == 0 ==> queues == old(queues);
    }

    /** All tokens move on by one producer when they next look. */
    method Rotate()
      modifies this`globalExplicitConsumerOffset
      ensures globalExplicitConsumerOffset == (old(globalExplicitConsumerOffset) + 1) % UINT32
    {
      globalExplicitConsumerOffset := (globalExplicitConsumerOffset + 1) % UINT32;
    }

    /** The token is new, or there have been rotations since it last looked. */
    ghost predicate Behind(token: ConsumerToken)
      reads this, token
    {
      token.desiredProducer == None || token.lastKnownGlobalOffset != globalExplicitConsumerOffset
    }

    /** The producer whose turn it is: the token's, or the one that it gets to by the rotations it has missed. */
    ghost function Turn(token: ConsumerToken): Producer
      reads this, token
      requires queues != [] && token.Fits(|queues|)
    {
      if Behind(token) then
        var start := if token.desiredProducer == None then |queues| - 1 - token.initialOffset % |queues|
                     else token.desiredProducer.value;
        Around(start, (globalExplicitConsumerOffset - token.lastKnownGlobalOffset) % UINT32, |queues|)
      else token.currentProducer.value
    }

    /** How much the token has consumed from that producer in a row. */
    ghost function InARow(token: ConsumerToken): nat
      reads this, token
    {
      if Behind(token) then 0 else token.itemsConsumedFromCurrent
    }

    /** Move the token if it is new or producers have been rotated. */
    method CatchUp(token: ConsumerToken) returns (ok: bool)
      requires token.Fits(|queues|)
      modifies token
      ensures token.Fits(|queues|) && ok == token.currentProducer.Some? == (queues != [])
      ensures ok ==>
                token.currentProducer == Some(old(Turn(token))) && token.itemsConsumedFromCurrent == old(InARow(token))
    {
      ok := true;
      if token.desiredProducer == None || token.lastKnownGlobalOffset != globalExplicitConsumerOffset {
        ok := UpdateCurrentProducerAfterRotation(token);
      }
    }

    /** Dequeue from the token's producer and count what was consumed. */
    method DequeueCurrent(token: ConsumerToken, max: nat) returns (out: seq<T>, ghost visits: seq<Visit<T>>)
      requires token.Fits(|queues|) && token.currentProducer.Some?
      modifies this, token
      ensures token.Fits(|queues|) && token.currentProducer == old(token.currentProducer)
      ensures |out| <= max && Total(queues) == Total(old(queues)) - |out|
      ensures Taken(visits) == out && Lost(old(queues), queues, visits)
      ensures |out| < max ==> queues[token.currentProducer.value] == [] && Drained(queues, visits)
      ensures visits == if out == [] then [] else [Visit(token.currentProducer.value, out)]
      ensures |out| == (if max < |old(queues)[token.currentProducer.value]| then max
                        else |old(queues)[token.currentProducer.value]|)
      ensures globalExplicitConsumerOffset == NextOffset(old(globalExplicitConsumerOffset), |out| == max,
                                                         old(token.itemsConsumedFromCurrent) + |out|)
    {
      assert Lost(queues, queues, []) && Taken<T>([]) == [] && Drained(queues, []);
      hide Total, Unvisited, Lost, Drained, Taken;
      out, visits := DequeueFrom(token.currentProducer.value, max, queues, []);
      Associative(out, [], []);
      token.AddConsumed(|out|);
      if |out| == max {
        if token.itemsConsumedFromCurrent >= QUOTA_BEFORE_ROTATE {
          Rotate();
        }
      }
    }

    /** All tokens are to move on after this one has got all it wanted from one producer, if it has now consumed its
        quota from it. */
    function NextOffset(offset: nat, served: bool, consumed: nat): nat {
      if served && consumed % UINT32 >= QUOTA_BEFORE_ROTATE then (offset + 1) % UINT32 else offset
    }

    /** try_dequeue_bulk(token, ...): exactly min(max, total) elements, the oldest of each producer visited, in
        order. */
    method TryDequeueBulk(token: ConsumerToken, max: nat) returns (out: seq<T>, ghost visits: seq<Visit<T>>)
      requires token.Fits(|queues|)
      modifies this, token
      ensures token.Fits(|queues|)
      ensures |out| == if max < Total(old(queues)) then max else Total(old(queues))
      ensures out == Taken(visits) && Lost(old(queues), queues, visits)
      ensures queues != [] ==>
                var turn := old(Turn(token));
                && (old(queues)[turn] != [] && max > 0 ==> visits != [] && visits[0].p == turn)
                && globalExplicitConsumerOffset
                   == NextOffset(old(globalExplicitConsumerOffset), max <= |old(queues)[turn]|,
                                 old(InARow(token)) + max)
                && token.currentProducer == Some(if visits == [] then turn else visits[|visits| - 1].p)
      ensures queues == [] ==> globalExplicitConsumerOffset == old(globalExplicitConsumerOffset)
    {
      hide Total, Lost, Drained, Taken, Turn, InARow;
      out, visits := [], [];
      NothingVisited(queues);
      var ok := CatchUp(token);
      if !ok {
        return;
      }
      out, visits := DequeueCurrent(token, max);
      if |out| == max {
        return;
      }
      var more;
      more, visits := DequeueOthers(token, max - |out|, old(queues), visits);
      out := out + more;
    }

    /** The walk: producers from the current one up to ptr are empty, and all of them when it comes round. */
    method DequeueOthers(token: ConsumerToken, wanted: nat, ghost before: seq<seq<T>>, ghost visits0: seq<Visit<T>>)
      returns (out: seq<T>, ghost visits: seq<Visit<T>>)
      requires token.Fits(|queues|) && token.currentProducer.Some? && wanted > 0
      requires queues[token.currentProducer.value] == []
      requires Lost(before, queues, visits0)
      requires Drained(queues, visits0)
      modifies this`queues, token
      ensures token.Fits(|queues|)
      ensures |out| == if wanted < Total(old(queues)) then wanted else Total(old(queues))
      ensures Taken(visits) == Taken(visits0) + out && Lost(before, queues, visits)
      ensures At(token.currentProducer, old(token.currentProducer), visits, visits0)
    {
      out, visits := [], visits0;
      var max := wanted;
      var current := token.currentProducer.value;
      var ptr := NextOrTail(current);
      ghost var walked := 1;
      ModUnique(current, |queues|, 0, current);
      NextIsAround(current, current, 0);
      assert Walking(token, ptr, 1);
      AtFirst(token.currentProducer, visits);
      hide Lost, Drained, Taken, Total, Unvisited, EmptyFrom, Around, At;
      while ptr != token.currentProducer.value
        invariant Walking(token, ptr, walked) && |queues| == |old(queues)|
        invariant max > 0 && |out| + max == wanted && |out| + Total(queues) == Total(old(queues))
        invariant Taken(visits) == Taken(visits0) + out && Lost(before, queues, visits) && Drained(queues, visits)
        invariant At(token.currentProducer, old(token.currentProducer), visits, visits0)
        decreases max, |queues| - walked
      {
        var dequeued;
        ghost var visits1, current1, ptr1 := visits, token.currentProducer, ptr;
        dequeued, visits, ptr, walked := VisitNext(token, ptr, max, before, visits, walked);
        AtMore(current1, old(token.currentProducer), visits1, visits0, ptr1, dequeued);
        Associative(Taken(visits0), out, dequeued);
        out := out + dequeued;
        if |dequeued| == max {
          return;
        }
        max := max - |dequeued|;
      }
      CameRound(queues, token.currentProducer.value, walked);
    }

    /** The walk stands at ptr, `walked` producers on from the current one, all of which are empty. */
    ghost predicate Walking(token: ConsumerToken, ptr: Producer, walked: nat)
      reads this, token
    {
      && token.Fits(|queues|) && token.currentProducer.Some?
      && 1 <= walked <= |queues| && ptr == Around(token.currentProducer.value, walked, |queues|)
      && EmptyFrom(queues, token.currentProducer.value, walked)
    }

    /** Dequeue from the producer at ptr; it becomes the current one if it had anything. Go on to the next. */
    method VisitNext(token: ConsumerToken, ptr: Producer, max: nat, ghost before: seq<seq<T>>,
                     ghost visits: seq<Visit<T>>, ghost walked: nat)
      returns (dequeued: seq<T>, ghost visits': seq<Visit<T>>, ptr': Producer, ghost walked': nat)
      requires Walking(token, ptr, walked) && ptr != token.currentProducer.value && max > 0
      requires Lost(before, queues, visits) && Drained(queues, visits)
      modifies this`queues, token
      ensures token.Fits(|queues|) && |queues| == |old(queues)| && |dequeued| <= max
      ensures Total(queues) == Total(old(queues)) - |dequeued|
      ensures Taken(visits') == Taken(visits) + dequeued && Lost(before, queues, visits')
      ensures |dequeued| < max ==> Walking(token, ptr', walked') && Drained(queues, visits')
      ensures dequeued == [] ==> walked < walked'
      ensures visits' == visits + (if dequeued == [] then [] else [Visit(ptr, dequeued)])
      ensures token.currentProducer == if dequeued == [] then old(token.currentProducer) else Some(ptr)
    {
      hide Lost, Drained, Taken, Total, Unvisited;
      NotYetAround(token.currentProducer.value, walked, |queues|, ptr);
      WalkedOn(queues, token.currentProducer.value, walked, ptr, |queues[ptr]|);
      dequeued, visits' := DequeueFrom(ptr, max, before, visits);
      walked' := walked;
      if dequeued != [] {
        token.MoveTo(ptr, |dequeued|);
        walked' := 0;
        ModUnique(ptr, |queues|, 0, ptr);
      }
      NextIsAround(ptr, token.currentProducer.value, walked');
      ptr' := NextOrTail(ptr);
      walked' := walked' + 1;
    }
  }

  /** The producers from the current one on, `walked` of them, are empty. */
  ghost predicate EmptyFrom<T>(queues: seq<seq<T>>, current: Producer, walked: nat) {
    |queues| > 0 && forall d :: 0 <= d < walked ==> queues[Around(current, d, |queues|)] == []
  }

  /** One more producer: it was empty, or it was emptied and becomes the current one. */
  lemma WalkedOn<T>(queues: seq<seq<T>>, current: Producer, walked: nat, ptr: Producer, n: nat)
    requires current < |queues| && EmptyFrom(queues, current, walked) && ptr == Around(current, walked, |queues|)
    requires n == |queues[ptr]|
    ensures n == 0 ==> EmptyFrom(queues[ptr := queues[ptr][n..]], current, walked + 1)
    ensures n > 0 ==> EmptyFrom(queues[ptr := queues[ptr][n..]], ptr, 1)
  {
    ModUnique(ptr, |queues|, 0, ptr);
    assert n == 0 ==> queues[ptr := queues[ptr][n..]] == queues;
  }

  lemma NotYetAround(current: Producer, walked: nat, count: nat, ptr: Producer)
    requires 0 < count && current < count && walked <= count && ptr == Around(current, walked, count) && ptr != current
    ensures walked < count
  {
    if walked == count {
      ModUnique(current + count, count, 1, current);
    }
  }

  /** Back at the current producer, all producers have been walked over. */
  lemma CameRound<T>(queues: seq<seq<T>>, current: Producer, walked: nat)
    requires current < |queues| && 1 <= walked <= |queues| && Around(current, walked, |queues|) == current
    requires EmptyFrom(queues, current, walked)
    ensures Total(queues) == 0
  {
    var n := |queues|;
    if walked < n {
      ModDistinct(current, current + walked, n);
      ModUnique(current, n, 0, current);
    }
    forall p | 0 <= p < n ensures queues[p] == [] {
      var d := if p >= current then p - current else p + n - current;
      ModUnique(current + d, n, if p >= current then 0 else 1, p);
      assert Around(current, d, n) == p;
    }
    AllEmpty(queues);
  }
}
