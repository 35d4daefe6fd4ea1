/** The two in-memory tables of a discovery server (server/cache.py, server/discovery_server.py) as finite maps from
    service identity to row, and the handlers that keep the global one in line with the etcd store. */
module ServiceCache {
  import opened Options

  datatype ServiceId = ServiceId(instance: string, serviceType: string, serviceName: string)

  datatype Row = Row(hostname: string, port: int, ttl: int, data: map<string, string>)

  type Rows = map<ServiceId, Row>

  /** Cache.__eq__ on rows of one service: the ttl is not compared. */
  predicate Same(a: Row, b: Row): (r: bool)
    ensures r <==> a == b.(ttl := a.ttl)
  {
    a.hostname == b.hostname && a.port == b.port && a.data == b.data
  }

  /** A watch event. A value that is not well-formed JSON is None; keys outside the namespace and events of
      other types are Other. */
  datatype Event = Put(id: ServiceId, value: Option<Row>) | Delete(id: ServiceId) | Other

  // ---------------------------------------------------------------- what the handlers compute

  /** Cache.register: nothing, add or update. */
  function Registered(rows: Rows, id: ServiceId, row: Row): Rows {
    if id in rows && Same(rows[id], row) then rows else rows[id := row]
  }

  function Applied(rows: Rows, e: Event): Option<Rows> {
    match e
    case Put(id, None) => None
    case Put(id, Some(row)) => Some(Registered(rows, id, row))
    case Delete(id) => Some(rows - {id})
    case Other => Some(rows)
  }

  /** A batch is applied as a whole, or not at all if one of its values cannot be parsed. */
  function AppliedAll(rows: Rows, events: seq<Event>): Option<Rows> {
    if events == [] then Some(rows)
    else
      match AppliedAll(rows, events[..|events| - 1])
      case None => None
      case Some(r) => Applied(r, events[|events| - 1])
  }

  lemma {:induction false} AppliedPrefix(rows: Rows, events: seq<Event>, n: nat)
    requires n <= |events| && AppliedAll(rows, events[..n]) == None
    ensures AppliedAll(rows, events) == None
    decreases |events|
  {
    if n < |events| {
      assert events[..|events| - 1][..n] == events[..n];
      AppliedPrefix(rows, events[..|events| - 1], n);
    } else {
      assert events[..n] == events;
    }
  }

  /** The value of this event can be parsed, if it has one. */
  predicate Readable(e: Event) { e.Put? ==> e.value.Some? }

  /** A batch is rolled back if and only if it contains a value that cannot be parsed. */
  lemma {:induction false} RolledBackExactly(rows: Rows, events: seq<Event>)
    ensures AppliedAll(rows, events) == None <==> exists i :: 0 <= i < |events| && !Readable(events[i])
  {
    if events != [] {
      var n := |events| - 1;
      RolledBackExactly(rows, events[..n]);
      assert forall i :: 0 <= i < n ==> events[..n][i] == events[i];
      assert (exists i :: 0 <= i < n && !Readable(events[..n][i])) <==> exists i :: 0 <= i < n && !Readable(events[i]);
    }
  }

  predicate Touches(e: Event, id: ServiceId) { !e.Other? && e.id == id }

  predicate Untouched(events: seq<Event>, id: ServiceId) {
    forall i :: 0 <= i < |events| ==> !Touches(events[i], id)
  }

  /** The last event of the batch that touches the service is the i-th. */
  predicate LastTouch(events: seq<Event>, i: int, id: ServiceId) {
    0 <= i < |events| && Touches(events[i], id) && forall j :: i < j < |events| ==> !Touches(events[j], id)
  }

  /** What an event leaves of the service it is about. */
  predicate Left(rows: Rows, id: ServiceId, e: Event) {
    match e
    case Put(_, Some(row)) => id in rows && Same(rows[id], row)
    case Delete(_) => id !in rows
    case _ => true
  }

  predicate SameFor(rows: Rows, rows': Rows, id: ServiceId) {
    (id in rows' <==> id in rows) && (id in rows ==> rows'[id] == rows[id])
  }

  /** What an applied batch makes of each service: what the last event about it says; nothing if there is none. */
  lemma {:induction false} AppliedLast(rows: Rows, events: seq<Event>, id: ServiceId)
    requires AppliedAll(rows, events).Some?
    ensures forall i :: LastTouch(events, i, id) ==> Left(AppliedAll(rows, events).value, id, events[i])
    ensures Untouched(events, id) ==>
              SameFor(rows, AppliedAll(rows, events).value, id)
  {
    if events != [] {
      var n := |events| - 1;
      AppliedLast(rows, events[..n], id);
      assert forall i :: 0 <= i < n ==> events[..n][i] == events[i];
      forall i | LastTouch(events, i, id) ensures Left(AppliedAll(rows, events).value, id, events[i]) {
        if i < n {
          assert LastTouch(events[..n], i, id) && !Touches(events[n], id);
        }
      }
      assert Untouched(events, id) ==> !Touches(events[n], id) && Untouched(events[..n], id);
    }
  }

  /** _sync_remote_to_global: rows of services in the snapshot that match are left alone. */
  function Synced(rows: Rows, services: Rows): Rows {
    map id | id in services :: if id in rows && Same(rows[id], services[id]) then rows[id] else services[id]
  }

  /** The rows of a store whose values can all be parsed. */
  function Parsed(store: map<ServiceId, Option<Row>>): Option<Rows> {
    if forall id :: id in store ==> store[id].Some? then Some(map id | id in store :: store[id].value) else None
  }

  // ---------------------------------------------------------------- the handlers

  class GlobalCache {
    var rows: Rows

    constructor ()
      ensures rows == map[]
    {
      rows := map[];
    }

    /** watch_callback: changes are made in a session, which is committed if there were any, or rolled back. */
    method WatchCallback(events: seq<Event>)
      modifies this
      ensures rows == match AppliedAll(old(rows), events) { case Some(r) => r case None => old(rows) }
      ensures (exists i :: 0 <= i < |events| && !Readable(events[i])) ==> rows == old(rows)
      ensures (forall i :: 0 <= i < |events| ==> Readable(events[i])) ==>
                && (forall i, id :: LastTouch(events, i, id) ==> Left(rows, id, events[i]))
                && (forall id :: Untouched(events, id) ==> SameFor(old(rows), rows, id))
    {
      RolledBackExactly(rows, events);
      ghost var rows0 := rows;
      var session, numUpdates, n := rows, 0, 0;
      while n < |events|
        invariant 0 <= n <= |events| && rows == old(rows)
        invariant AppliedAll(rows, events[..n]) == Some(session)
        invariant numUpdates == 0 ==> session == rows
      {
        assert events[..n + 1][..n] == events[..n];
        match events[n] {
          case Put(id, None) =>
            AppliedPrefix(rows, events, n + 1);
            return;
          case Put(id, Some(row)) =>
            ghost var before := session;
            var updated;
            session, updated := Register(session, id, row);
            assert session == Registered(before, id, row);
            if updated {
              numUpdates := numUpdates + 1;
            }
          case Delete(id) =>
            if id in session {
              session := session - {id};
              numUpdates := numUpdates + 1;
            } else {
              assert session - {id} == session;
            }
          case Other =>
        }
        n := n + 1;
      }
      assert events[..n] == events;
      if numUpdates > 0 {
        rows := session;
      }
      forall i, id | LastTouch(events, i, id) ensures Left(rows, id, events[i]) {
        AppliedLast(rows0, events, id);
      }
      forall id | Untouched(events, id) ensures SameFor(rows0, rows, id) {
        AppliedLast(rows0, events, id);
      }
    }

    /** Cache.register on a session: the service has the row then, up to the ttl, which survives in a row that differs
        in nothing else; no other service changes. */
    static method Register(session: Rows, id: ServiceId, row: Row) returns (session': Rows, updated: bool)
      ensures session'.Keys == session.Keys + {id} && Same(session'[id], row)
      ensures forall k :: k in session && k != id ==> session'[k] == session[k]
      ensures updated <==> !(id in session && Same(session[id], row))
      ensures if updated then session'[id] == row
              else id in session && session'[id].ttl == session[id].ttl && session' == session
    {
      session', updated := session, false;
      if id in session {
        if !Same(session[id], row) {
          session', updated := session[id := row], true;
        }
      } else {
        session', updated := session[id := row], true;
      }
    }

    /** _sync_remote_to_global, with what get_prefix returned: None when there was no connection. The error for a
        value that cannot be parsed is raised before the cache is touched. */
    method SyncRemoteToGlobal(remoteKvs: Option<map<ServiceId, Option<Row>>>)
      modifies this
      ensures rows == if remoteKvs.Some? && Parsed(remoteKvs.value).Some?
                      then Synced(old(rows), Parsed(remoteKvs.value).value)
                      else old(rows)
      ensures remoteKvs == None || (exists id :: id in remoteKvs.value && remoteKvs.value[id] == None) ==>
                rows == old(rows)
      ensures remoteKvs.Some? && (forall id :: id in remoteKvs.value ==> remoteKvs.value[id].Some?) ==>
                rows.Keys == remoteKvs.value.Keys
                && forall id :: id in rows ==>
                     var row := remoteKvs.value[id].value;
                     rows[id] == row.(ttl := if id in old(rows)
                                      && Same(old(rows)[id], row) then old(rows)[id].ttl else row.ttl)
    {
      if remoteKvs == None || Parsed(remoteKvs.value) == None {
        return;
      }
      var services := Parsed(remoteKvs.value).value;
      var session := AddAll(rows, services);
      session := DeleteOthers(session, services);
      assert session == Synced(rows, services);
      rows := session;
    }

    /** Any service of the snapshot that is not in the cache as it is, is added or updated. */
    static method AddAll(rows: Rows, services: Rows) returns (session: Rows)
      ensures session.Keys == rows.Keys + services.Keys
      ensures forall id :: id in services ==> session[id] == Synced(rows, services)[id]
    {
      session := rows;
      var done, updated := {}, false;
      while services.Keys - done != {}
        invariant done <= services.Keys
        invariant session.Keys == rows.Keys + done
        invariant forall id :: id in session ==>
                    session[id] == if id in done then Synced(rows, services)[id] else rows[id]
        decreases services.Keys - done
      {
        var id :| id in services.Keys - done;
        session, updated := Register(session, id, services[id]);
        done := done + {id};
      }
      assert done == services.Keys by { assert forall id :: id in services ==> id !in services.Keys - done; }
    }

    /** Any service of the cache that is not in the snapshot is deleted. */
    static method DeleteOthers(session: Rows, services: Rows) returns (session': Rows)
      requires services.Keys <= session.Keys
      ensures session'.Keys == services.Keys && forall id :: id in services ==> session'[id] == session[id]
    {
      session' := session;
      var todo := session.Keys;
      while todo != {}
        invariant todo <= session.Keys && services.Keys <= session'.Keys <= session.Keys
        invariant forall id :: id in session' ==> session'[id] == session[id] && (id in services || id in todo)
        decreases |todo|
      {
        var id :| id in todo;
        todo := todo - {id};
        if id !in services {
          session' := session' - {id};
        }
      }
    }

    /** _sync_local_to_global: the local services that the global cache does not have as they are, to be put into
        the store. */
    method SyncLocalToGlobal(local: Rows) returns (transactions: Rows)
      ensures transactions.Keys <= local.Keys
      ensures forall id :: id in local ==>
                (id in transactions <==> !(id in rows && Same(rows[id], local[id]))) &&
                (id in transactions ==> transactions[id] == local[id])
    {
      transactions := map[];
      var todo := local.Keys;
      while todo != {}
        invariant todo <= local.Keys && transactions.Keys <= local.Keys - todo
        invariant forall id :: id in local && id !in todo ==>
                    (id in transactions <==> !(id in rows && Same(rows[id], local[id]))) &&
                    (id in transactions ==> transactions[id] == local[id])
        decreases |todo|
      {
        var id :| id in todo;
        todo := todo - {id};
        if !(id in rows && Same(rows[id], local[id])) {
          transactions := transactions[id := local[id]];
        }
      }
    }
  }
}
