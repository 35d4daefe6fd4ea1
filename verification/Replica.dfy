/** The global cache as a replica of the etcd store: any interleaving of changes to the store, ordered watch batches,
    resyncs from snapshots and restarts of the watch. Rows are compared without their ttl, as the cache itself
    compares them. */
module Replica {
  import opened Options
  import opened ServiceCache

  type Store = map<ServiceId, Option<Row>>

  function Stored(store: Store, e: Event): Store {
    match e
    case Put(id, value) => store[id := value]
    case Delete(id) => store - {id}
    case Other => store
  }

  /** The store after these changes. */
  function StoreAfter(history: seq<Event>): Store {
    if history == [] then map[] else Stored(StoreAfter(history[..|history| - 1]), history[|history| - 1])
  }

  datatype State = State(
    history: seq<Event>,          // all changes to the store, in order of their revisions
    delivered: nat,               // the watch has delivered the changes before this one, or will never deliver them
    rows: Rows,                   // the global cache
    first: Rows,                  // auxiliary: the cache at the start
    synced: Option<nat>,          // auxiliary: the revision of the last successful resync
    // auxiliary: services in batches applied since, and the revision of the last such batch
    applied: map<ServiceId, nat>
  )

  datatype Action =
    | Change(e: Event)
    | Deliver(n: nat)          // the next n changes, as one watch response
    | Resync(revision: nat)    // the snapshot was taken when that many changes had been made
    | FailedResync             // no connection
    | RestartWatch             // a new watch delivers only what changes from now on

  predicate Enabled(s: State, a: Action) {
    match a
    case Deliver(n) => s.delivered + n <= |s.history|
    case Resync(r) => r <= |s.history|
    case _ => true
  }

  function Touched(events: seq<Event>): (ids: set<ServiceId>)
    ensures forall id :: id in ids <==> !Untouched(events, id)
  {
    var ids := set i | 0 <= i < |events| && !events[i].Other? :: events[i].id;
    assert forall i :: 0 <= i < |events| && !events[i].Other? ==> Touches(events[i], events[i].id);
    ids
  }

  /** The effect of the handlers of module ServiceCache. */
  function Step(s: State, a: Action): State
    requires Enabled(s, a)
  {
    match a
    case Change(e) => s.(history := s.history + [e])
    case Deliver(n) =>
      var batch, end := s.history[s.delivered..s.delivered + n], s.delivered + n;
      (match AppliedAll(s.rows, batch)
       case Some(r) =>
         s.(rows := r, delivered := end, applied := s.applied + (map id | id in Touched(batch) :: end))
       case None => s.(delivered := end))                                        // rolled back and lost
    case Resync(r) =>
      (match Parsed(StoreAfter(s.history[..r]))
       case Some(services) => s.(rows := Synced(s.rows, services), synced := Some(r), applied := map[])
       case None => s)
    case FailedResync => s
    case RestartWatch => s.(delivered := |s.history|)
  }

  /** The revision that the cache's row for this service reflects: that of the last resync or, if it came later, of the
      last batch applied with a change to the service. */
  function Basis(s: State, id: ServiceId): Option<nat> {
    if id in s.applied then Some(s.applied[id]) else s.synced
  }

  // ---------------------------------------------------------------- agreement

  /** The cache has for this service what the store has, up to the ttl. */
  predicate Agree(rows: Rows, store: Store, id: ServiceId) {
    if id in rows then id in store && store[id].Some? && Same(rows[id], store[id].value) else id !in store
  }

  lemma {:induction false} UntouchedSame(history: seq<Event>, more: seq<Event>, id: ServiceId)
    requires Untouched(more, id)
    ensures id in StoreAfter(history) <==> id in StoreAfter(history + more)
    ensures id in StoreAfter(history) ==> StoreAfter(history + more)[id] == StoreAfter(history)[id]
  {
    if more == [] {
      assert history + more == history;
    } else {
      var n := |more| - 1;
      assert (history + more)[..|history + more| - 1] == history + more[..n];
      assert !Touches(more[n], id);
      UntouchedSame(history, more[..n], id);
    }
  }

  /** What a service's row is after a batch depends only on the last event that touches it. */
  lemma {:induction false} AppliedAgrees(rows: Rows, before: seq<Event>, events: seq<Event>, id: ServiceId)
    requires AppliedAll(rows, events).Some?
    requires Untouched(events, id) ==> Agree(rows, StoreAfter(before), id)
    ensures Agree(AppliedAll(rows, events).value, StoreAfter(before + events), id)
  {
    if events == [] {
      assert before + events == before;
    } else {
      var n := |events| - 1;
      var init, e := events[..n], events[n];
      assert (before + events)[..|before + events| - 1] == before + init;
      if Touches(e, id) {
        assert AppliedAll(rows, init).Some?;
      } else {
        forall i | 0 <= i < n && Untouched(init, id) ensures !Touches(events[i], id) {
          assert events[i] == init[i];
        }
        assert Untouched(init, id) ==> Untouched(events, id);
        AppliedAgrees(rows, before, init, id);
      }
    }
  }

  /** A resync alone establishes agreement with its snapshot, whatever the cache was. */
  lemma SyncedAgrees(rows: Rows, store: Store, id: ServiceId)
    requires Parsed(store).Some?
    ensures Agree(Synced(rows, Parsed(store).value), store, id)
  {
  }

  /** A batch leaves the rows of other services alone. */
  lemma {:induction false} AppliedUntouched(rows: Rows, events: seq<Event>, id: ServiceId)
    requires AppliedAll(rows, events).Some? && Untouched(events, id)
    ensures var r := AppliedAll(rows, events).value; (id in r <==> id in rows) && (id in r ==> r[id] == rows[id])
  {
    if events != [] {
      var n := |events| - 1;
      assert !Touches(events[n], id);
      AppliedUntouched(rows, events[..n], id);
    }
  }

  /** The row for this service is the one of its basis, up to the ttl; without a basis it is the one from the start. */
  ghost predicate Reflects(s: State, id: ServiceId) {
    match Basis(s, id)
    case Some(r) => r <= |s.history| && Agree(s.rows, StoreAfter(s.history[..r]), id)
    case None => (id in s.rows <==> id in s.first) && (id in s.rows ==> s.rows[id] == s.first[id])
  }

  ghost predicate Inv(s: State) {
    s.delivered <= |s.history| && forall id :: Reflects(s, id)
  }

  lemma ChangeReflects(s: State, e: Event, id: ServiceId)
    requires Reflects(s, id)
    ensures Reflects(Step(s, Change(e)), id)
  {
    var s' := Step(s, Change(e));
    assert Basis(s, id).Some? ==> s'.history[..Basis(s, id).value] == s.history[..Basis(s, id).value];
  }

  lemma SameAgree(rows: Rows, rows': Rows, id: ServiceId)
    requires (id in rows' <==> id in rows) && (id in rows' ==> rows'[id] == rows[id])
    ensures forall store :: Agree(rows', store, id) <==> Agree(rows, store, id)
  {
  }

  lemma DeliverReflects(s: State, n: nat, id: ServiceId)
    requires Reflects(s, id) && s.delivered + n <= |s.history|
    ensures Reflects(Step(s, Deliver(n)), id)
  {
    hide AppliedAll, StoreAfter, Agree, Untouched;
    var before, batch := s.history[..s.delivered], s.history[s.delivered..s.delivered + n];
    if AppliedAll(s.rows, batch).Some? {
      if Untouched(batch, id) {
        AppliedUntouched(s.rows, batch, id);
        SameAgree(s.rows, AppliedAll(s.rows, batch).value, id);
      } else {
        AppliedAgrees(s.rows, before, batch, id);
        assert s.history[..s.delivered + n] == before + batch;
      }
    }
  }

  lemma StepKeepsInv(s: State, a: Action)
    requires Inv(s) && Enabled(s, a)
    ensures Inv(Step(s, a))
  {
    forall id ensures Reflects(Step(s, a), id) {
      assert Reflects(s, id);
      match a
      case Change(e) => ChangeReflects(s, e, id);
      case Deliver(n) => DeliverReflects(s, n, id);
      case Resync(r) =>
        if Parsed(StoreAfter(s.history[..r])).Some? {
          SyncedAgrees(s.rows, StoreAfter(s.history[..r]), id);
        }
      case FailedResync =>
      case RestartWatch =>
    }
  }

  // ---------------------------------------------------------------- whole runs

  ghost function Run(s: State, schedule: seq<Action>): (s': State)
    requires Inv(s)
    ensures Inv(s')
    decreases |schedule|
  {
    if schedule == [] then s
    else if Enabled(s, schedule[0]) then
      StepKeepsInv(s, schedule[0]);
      Run(Step(s, schedule[0]), schedule[1..])
    else
      Run(s, schedule[1..])
  }

  /** A server that starts with these rows, when the store has this history. */
  function Init(history: seq<Event>, rows: Rows): State { State(history, |history|, rows, rows, None, map[]) }

  lemma InitInv(history: seq<Event>, rows: Rows)
    ensures Inv(Init(history, rows))
  {
  }

  /** The stores have the same row for this service, up to the ttl. */
  predicate SameRow(a: Store, b: Store, id: ServiceId) {
    (id in a <==> id in b) && (id in a ==> a[id].Some? && b[id].Some? && Same(a[id].value, b[id].value))
  }

  /** The exact condition, after any run: the cache has what the store has for a service if and only if the store now
      has the row for it that it had at the service's basis; before there is a basis, if and only if the row from the
      start is right. */
  lemma AgreesExactly(history: seq<Event>, rows: Rows, schedule: seq<Action>, id: ServiceId)
    ensures Inv(Init(history, rows))
    ensures var s := Run(Init(history, rows), schedule);
            Agree(s.rows, StoreAfter(s.history), id) <==>
            match Basis(s, id) {
              case Some(r) => r <= |s.history| && SameRow(StoreAfter(s.history[..r]), StoreAfter(s.history), id)
              case None => Agree(s.first, StoreAfter(s.history), id)
            }
  {
    var s := Run(Init(history, rows), schedule);
    assert Reflects(s, id);
  }

  // ---------------------------------------------------------------- a condition on the schedule

  /** No change to this service has been passed over: those after its basis are still to be delivered. */
  predicate Fresh(s: State, id: ServiceId) {
    && s.delivered <= |s.history|
    && Basis(s, id).Some?
    && (Basis(s, id).value < s.delivered ==> Untouched(s.history[Basis(s, id).value..s.delivered], id))
  }

  /** This step passes over no change to the service: a batch that is rolled back, the changes that a late watch misses,
      and those between an older snapshot and what was delivered are about other services. */
  predicate Keeps(s: State, a: Action, id: ServiceId)
    requires Enabled(s, a)
  {
    match a
    case Deliver(n) =>
      var batch := s.history[s.delivered..s.delivered + n]; AppliedAll(s.rows, batch).Some? || Untouched(batch, id)
    case RestartWatch => s.delivered <= |s.history| && Untouched(s.history[s.delivered..], id)
    case Resync(r) =>
      Parsed(StoreAfter(s.history[..r])).Some? && r < s.delivered <= |s.history| ==>
          Untouched(s.history[r..s.delivered], id)
    case _ => true
  }

  /** No step of this schedule does. */
  ghost predicate KeepsAll(s: State, schedule: seq<Action>, id: ServiceId)
    requires Inv(s)
    decreases |schedule|
  {
    schedule == [] ||
    if Enabled(s, schedule[0]) then
      StepKeepsInv(s, schedule[0]);
      Keeps(s, schedule[0], id) && KeepsAll(Step(s, schedule[0]), schedule[1..], id)
    else KeepsAll(s, schedule[1..], id)
  }

  lemma UntouchedBoth(a: seq<Event>, b: seq<Event>, id: ServiceId)
    ensures Untouched(a + b, id) <==> Untouched(a, id) && Untouched(b, id)
  {
    assert forall i :: 0 <= i < |a| ==> (a + b)[i] == a[i];
    assert forall i :: 0 <= i < |b| ==> (a + b)[|a| + i] == b[i];
  }

  lemma UntouchedPart(history: seq<Event>, a: nat, b: nat, c: nat, id: ServiceId)
    requires a <= b <= c <= |history|
    ensures Untouched(history[a..c], id) <==> Untouched(history[a..b], id) && Untouched(history[b..c], id)
  {
    assert history[a..c] == history[a..b] + history[b..c];
    UntouchedBoth(history[a..b], history[b..c], id);
  }

  lemma DeliverFresh(s: State, n: nat, id: ServiceId)
    requires Fresh(s, id) && s.delivered + n <= |s.history| && Keeps(s, Deliver(n), id)
    ensures Fresh(Step(s, Deliver(n)), id)
  {
    var d, end, b := s.delivered, s.delivered + n, Basis(s, id).value;
    if Untouched(s.history[d..end], id) && b < end {
      if b < d {
        UntouchedPart(s.history, b, d, end, id);
      } else {
        UntouchedPart(s.history, d, b, end, id);
      }
    }
  }

  lemma StepFresh(s: State, a: Action, id: ServiceId)
    requires Fresh(s, id) && Enabled(s, a) && Keeps(s, a, id)
    ensures Fresh(Step(s, a), id)
  {
    match a
    case Change(e) =>
      var b := Basis(s, id).value;
      assert b < s.delivered ==> (s.history + [e])[b..s.delivered] == s.history[b..s.delivered];
    case Deliver(n) => DeliverFresh(s, n, id);
    case RestartWatch =>
      var b, d, end := Basis(s, id).value, s.delivered, |s.history|;
      assert s.history[d..] == s.history[d..end];
      if b < d {
        UntouchedPart(s.history, b, d, end, id);
      } else if b < end {
        UntouchedPart(s.history, d, b, end, id);
      }
    case Resync(r) =>
    case FailedResync =>
  }

  lemma {:induction false} RunFresh(s: State, schedule: seq<Action>, id: ServiceId)
    requires Inv(s) && Fresh(s, id) && KeepsAll(s, schedule, id)
    ensures Fresh(Run(s, schedule), id)
    decreases |schedule|
  {
    if schedule != [] {
      if Enabled(s, schedule[0]) {
        StepKeepsInv(s, schedule[0]);
        StepFresh(s, schedule[0], id);
        RunFresh(Step(s, schedule[0]), schedule[1..], id);
      } else {
        RunFresh(s, schedule[1..], id);
      }
    }
  }

  /** After a resync from a snapshot no older than what was delivered, and a schedule that passes over no change to the
      service: once everything is delivered, the cache has for it what the store has, up to the ttl. */
  lemma ReplicaAgrees(s: State, r: nat, schedule: seq<Action>, id: ServiceId)
    requires Inv(s) && s.delivered <= r <= |s.history| && Parsed(StoreAfter(s.history[..r])).Some?
    ensures Inv(Step(s, Resync(r)))
    ensures KeepsAll(Step(s, Resync(r)), schedule, id) ==>
              var s' := Run(Step(s, Resync(r)), schedule);
              s'.delivered == |s'.history| ==> Agree(s'.rows, StoreAfter(s'.history), id)
  {
    StepKeepsInv(s, Resync(r));
    if KeepsAll(Step(s, Resync(r)), schedule, id) {
      RunFresh(Step(s, Resync(r)), schedule, id);
      var s' := Run(Step(s, Resync(r)), schedule);
      var b := Basis(s', id).value;
      assert Reflects(s', id);
      if s'.delivered == |s'.history| {
        var later := s'.history[b..];
        assert later == s'.history[b..|s'.history|] && s'.history == s'.history[..b] + later;
        UntouchedSame(s'.history[..b], later, id);
      }
    }
  }

  lemma RunThree(s: State, a: Action, b: Action, c: Action)
    requires Inv(s) && Enabled(s, a) && Enabled(Step(s, a), b) && Enabled(Step(Step(s, a), b), c)
    ensures Run(s, [a, b, c]) == Step(Step(Step(s, a), b), c)
  {
    var s1 := Step(s, a);
    StepKeepsInv(s, a);
    var s2 := Step(s1, b);
    StepKeepsInv(s1, b);
    var s3 := Step(s2, c);
    StepKeepsInv(s2, c);
    hide Inv, Step, Enabled;
    assert [a, b, c][1..] == [b, c] && [b, c][1..] == [c] && [c][1..] == [];
    assert Run(s2, [c]) == Run(s3, []);
    assert Run(s1, [b, c]) == Run(s2, [c]);
  }

  /** Without a resync after it, a restarted watch can leave the cache wrong although everything it delivers has
      been delivered: between the snapshot that start() takes and the start of the watch, a change goes by. */
  lemma LostChange(id: ServiceId, row: Row)
    ensures var s := Init([], map[]);
            var run := [Resync(0), Change(Put(id, Some(row))), RestartWatch];
            && Inv(s)
            && Run(s, run).delivered == |Run(s, run).history|
            && !Agree(Run(s, run).rows, StoreAfter(Run(s, run).history), id)
  {
    var s, e := Init([], map[]), Put(id, Some(row));
    RunThree(s, Resync(0), Change(e), RestartWatch);
    hide Run;
    assert s.history[..0] == [] && [e][..0] == [];
    assert StoreAfter([e]) == map[id := Some(row)];
    assert Step(s, Resync(0)).rows == map[];
  }

  /** An older snapshot undoes a change that the watch has delivered: it is applied after it, because get_prefix waits
      for its response while the watch goes on. */
  lemma OlderSnapshotUndoes(id: ServiceId, row: Row)
    ensures var s := Init([], map[]);
            var run := [Change(Put(id, Some(row))), Deliver(1), Resync(0)];
            && Inv(s)
            && Run(s, run).delivered == |Run(s, run).history|
            && !Agree(Run(s, run).rows, StoreAfter(Run(s, run).history), id)
  {
    var s, e := Init([], map[]), Put(id, Some(row));
    var s1 := Step(s, Change(e));
    assert s1.history == [e] && s1.history[0..1] == [e] && s1.history[..0] == [] && [e][..0] == [];
    assert AppliedAll(map[], [e]).Some?;
    RunThree(s, Change(e), Deliver(1), Resync(0));
    hide Run;
    assert StoreAfter([e]) == map[id := Some(row)];
    assert Step(Step(s1, Deliver(1)), Resync(0)).rows == map[];
  }

  /** One value that cannot be read loses the whole response it comes with: a change to another service in it is rolled
      back and is not delivered again. */
  lemma RolledBackIsLost(id: ServiceId, row: Row, other: ServiceId)
    requires other != id
    ensures var s := Init([], map[]);
            var run := [Change(Put(id, Some(row))), Change(Put(other, None)), Deliver(2)];
            && Inv(s)
            && Run(s, run).delivered == |Run(s, run).history|
            && !Agree(Run(s, run).rows, StoreAfter(Run(s, run).history), id)
  {
    var s, e, bad := Init([], map[]), Put(id, Some(row)), Put(other, None);
    var s2 := Step(Step(s, Change(e)), Change(bad));
    assert s2.history == [e, bad] && s2.history[0..2] == [e, bad] && [e, bad][..1] == [e] && [e][..0] == [];
    assert AppliedAll(map[], [e, bad]).None?;
    RunThree(s, Change(e), Change(bad), Deliver(2));
    hide Run;
    assert StoreAfter([e]) == map[id := Some(row)];
    assert Step(s2, Deliver(2)).rows == map[];
  }

  // ---------------------------------------------------------------- local services

  /** put_many of the transactions */
  function PutAll(ids: seq<ServiceId>, transactions: Rows): (events: seq<Event>)
    requires forall i :: 0 <= i < |ids| ==> ids[i] in transactions
  {
    seq(|ids|, i requires 0 <= i < |ids| => Put(ids[i], Some(transactions[ids[i]])))
  }

  /** After a round of local-to-global synchronization from a cache that agrees with the store, the store has every
      local service as it is, up to the ttl, and no other service has changed. */
  lemma LocalServicesWin(history: seq<Event>, rows: Rows, local: Rows, transactions: Rows, ids: seq<ServiceId>,
                         id: ServiceId)
    requires forall i :: Agree(rows, StoreAfter(history), i)
    requires transactions.Keys <= local.Keys
    requires forall i :: i in local ==>
               (i in transactions <==> !(i in rows && Same(rows[i], local[i]))) &&
               (i in transactions ==> transactions[i] == local[i])
    requires (forall i :: 0 <= i < |ids| ==> ids[i] in transactions) && forall i :: i in transactions ==> i in ids
    ensures var store := StoreAfter(history + PutAll(ids, transactions));
            if id in local then id in store && store[id].Some? && Same(store[id].value, local[id])
            else (id in store <==> id in StoreAfter(history)) && (id in store ==> store[id] == StoreAfter(history)[id])
  {
    var puts := PutAll(ids, transactions);
    if id in transactions {
      var i :| 0 <= i < |ids| && ids[i] == id;
      assert Touches(puts[i], id);
      PutsReach(history, puts, id, Some(transactions[id]));
    } else {
      UntouchedSame(history, puts, id);
      assert Agree(rows, StoreAfter(history), id);
    }
  }

  lemma {:induction false} PutsReach(history: seq<Event>, puts: seq<Event>, id: ServiceId, value: Option<Row>)
    requires forall i :: 0 <= i < |puts| && Touches(puts[i], id) ==> puts[i] == Put(id, value)
    requires exists i :: 0 <= i < |puts| && Touches(puts[i], id)
    ensures id in StoreAfter(history + puts) && StoreAfter(history + puts)[id] == value
  {
    var n := |puts| - 1;
    var init := puts[..n];
    assert (history + puts)[..|history + puts| - 1] == history + init;
    if !Touches(puts[n], id) {
      var i :| 0 <= i < |puts| && Touches(puts[i], id);
      assert Touches(init[i], id);
      PutsReach(history, init, id, value);
    }
  }
}
