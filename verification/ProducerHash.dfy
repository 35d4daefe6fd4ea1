/** get_or_add_implicit_producer of concurrentqueue.h: the chain of open-addressing tables that maps a
    thread to its implicit producer, as a state machine with one atomic operation per step.
    Allocation succeeds and no thread exits, so no producer is recycled. */
module ProducerHash {
  import opened Collections
  import opened Options

  type Tid = nat
  type Producer = nat

  /** A hash table. `pos` is auxiliary: how many slots past its home a key sits. */
  datatype Table = Table(keys: seq<Option<Tid>>, vals: seq<Option<Producer>>, pos: map<Tid, nat>)

  function Cap(tab: Table): nat { |tab.keys| }

  /** A new key may be put in a table while its number is below this: three quarters of the capacity. */
  function Limit(cap: nat): nat { cap / 2 + cap / 4 }

  /** index = (hashedId + k) & (capacity - 1), for a capacity that is a power of two */
  function Slot(home: nat, k: nat, cap: nat): (j: nat)
    requires cap > 0
    ensures j < cap
  {
    (home + k) % cap
  }

  /** The next atomic operation of a thread, with the locals it still needs. Tables are named by age,
      so `prev` of table i is table i - 1 and the main table is the youngest. */
  datatype Pc =
    | Idle
    | LoadMain
    | Find(main: nat, tab: nat, k: nat)
    | CountUp(main: nat)
    | TryLock(main: nat, c: nat)
    | Locked(c: nat)
    | Publish(main: nat, c: nat)
    | Unlock(main: nat, c: nat)
    | Decide(main: nat, c: nat)
    | Reload(c: nat)
    | Probe(main: nat, v: Producer, k: nat)
    | PutKey(main: nat, v: Producer, k: nat)
    | PutValue(main: nat, v: Producer, k: nat)
    | Done(v: Producer)

  datatype State = State(
    tables: seq<Table>,
    count: nat,                      // implicitProducerHashCount
    lock: Option<Tid>,               // implicitProducerHashResizeInProgress, and who set it
    pc: map<Tid, Pc>,
    home: map<Tid, nat>,             // hash_thread_id of each thread
    made: nat,                       // producers created so far
    num: map<Tid, nat>,              // auxiliary: newCount of each thread that reached it
    prod: map<Tid, Producer>,        // auxiliary: the producer created for each thread
    at: map<Tid, nat>,               // auxiliary: the table each thread was first put in
    returned: seq<(Tid, Producer)>   // auxiliary: the results of all calls
  )

  /** The smallest doubling of the capacity whose half exceeds the count. */
  function NewCapacity(c: nat, cap: nat): (r: nat)
    requires cap >= 1
    ensures r >= cap && c < r / 2
    decreases 2 * c + 2 - cap
  {
    if c >= cap / 2 then NewCapacity(c, 2 * cap) else cap
  }

  function EmptyTable(cap: nat): Table { Table(seq(cap, _ => None), seq(cap, _ => None), map[]) }

  // ---------------------------------------------------------------- steps

  function Goto(s: State, t: Tid, p: Pc): State { s.(pc := s.pc[t := p]) }

  /** A thread that meets its own key finds the value it wrote there. */
  predicate ValueStored(table: Table, t: Tid, j: nat)
    requires j < Cap(table)
  {
    |table.vals| == Cap(table) && (table.keys[j] == Some(t) ==> table.vals[j].Some?)
  }

  function StepFind(s: State, t: Tid): State
    requires t in s.pc && s.pc[t].Find? && t in s.home
    requires s.pc[t].tab < |s.tables| && Cap(s.tables[s.pc[t].tab]) > 0
    requires ValueStored(s.tables[s.pc[t].tab], t, Slot(s.home[t], s.pc[t].k, Cap(s.tables[s.pc[t].tab])))
  {
    var Find(main, tab, k) := s.pc[t];
    var table := s.tables[tab];
    var j := Slot(s.home[t], k, Cap(table));
    if table.keys[j] == Some(t) then
      var v := table.vals[j].value;
      Goto(s, t, if tab == main then Done(v) else Probe(main, v, 0))
    else if table.keys[j] == None then
      Goto(s, t, if tab == 0 then CountUp(main) else Find(main, tab - 1, 0))
    else
      Goto(s, t, Find(main, tab, k + 1))
  }

  function StepTryLock(s: State, t: Tid): State
    requires t in s.pc && s.pc[t].TryLock? && s.pc[t].main < |s.tables|
  {
    var TryLock(main, c) := s.pc[t];
    if c >= Cap(s.tables[main]) / 2 && s.lock == None then
      Goto(s, t, Locked(c)).(lock := Some(t))
    else
      Goto(s, t, Decide(main, c))
  }

  function StepLocked(s: State, t: Tid): State
    requires t in s.pc && s.pc[t].Locked? && s.tables != []
  {
    var c, main := s.pc[t].c, |s.tables| - 1;
    Goto(s, t, if c >= Cap(s.tables[main]) / 2 then Publish(main, c) else Unlock(main, c))
  }

  function StepPublish(s: State, t: Tid): State
    requires t in s.pc && s.pc[t].Publish? && s.pc[t].main < |s.tables| && Cap(s.tables[s.pc[t].main]) > 0
  {
    var Publish(main, c) := s.pc[t];
    Goto(s, t, Unlock(|s.tables|, c))
      .(tables := s.tables + [EmptyTable(NewCapacity(c, 2 * Cap(s.tables[main])))])
  }

  function StepDecide(s: State, t: Tid): State
    requires t in s.pc && s.pc[t].Decide? && s.pc[t].main < |s.tables|
  {
    var Decide(main, c) := s.pc[t];
    if c < Limit(Cap(s.tables[main])) then
      Goto(s, t, Probe(main, s.made, 0)).(made := s.made + 1, prod := s.prod[t := s.made])
    else
      Goto(s, t, Reload(c))
  }

  function StepProbe(s: State, t: Tid): State
    requires t in s.pc && s.pc[t].Probe? && t in s.home
    requires s.pc[t].main < |s.tables| && Cap(s.tables[s.pc[t].main]) > 0
  {
    var Probe(main, v, k) := s.pc[t];
    var table := s.tables[main];
    Goto(s, t, if table.keys[Slot(s.home[t], k, Cap(table))] == None then PutKey(main, v, k) else Probe(main, v, k + 1))
  }

  /** compare_exchange_strong(empty, id) on the key of a slot that was empty a moment ago */
  function StepPutKey(s: State, t: Tid): State
    requires t in s.pc && s.pc[t].PutKey? && t in s.home
    requires s.pc[t].main < |s.tables| && Cap(s.tables[s.pc[t].main]) > 0
  {
    var PutKey(main, v, k) := s.pc[t];
    var table := s.tables[main];
    var j := Slot(s.home[t], k, Cap(table));
    if table.keys[j] == None then
      Goto(s, t, PutValue(main, v, k))
        .(tables := s.tables[main := table.(keys := table.keys[j := Some(t)], pos := table.pos[t := k])],
          at := if t in s.at then s.at else s.at[t := main])
    else
      Goto(s, t, Probe(main, v, k + 1))
  }

  function StepPutValue(s: State, t: Tid): State
    requires t in s.pc && s.pc[t].PutValue? && t in s.home
    requires s.pc[t].main < |s.tables| && Cap(s.tables[s.pc[t].main]) > 0
    requires |s.tables[s.pc[t].main].vals| == Cap(s.tables[s.pc[t].main])
  {
    var PutValue(main, v, k) := s.pc[t];
    var table := s.tables[main];
    var j := Slot(s.home[t], k, Cap(table));
    Goto(s, t, Done(v)).(tables := s.tables[main := table.(vals := table.vals[j := Some(v)])])
  }

  function Step(s: State, t: Tid): State
    requires Inv(s) && t in s.pc
  {
    match s.pc[t]
    case Idle => Goto(s, t, LoadMain)
    case LoadMain => Goto(s, t, Find(|s.tables| - 1, |s.tables| - 1, 0))
    case Find(_, tab, _) => assert PcOk(s, t, s.pc[t]) && TableOk(s, tab); StepFind(s, t)
    case CountUp(main) => Goto(s, t, TryLock(main, s.count + 1)).(count := s.count + 1, num := s.num[t := s.count + 1])
    case TryLock(_, _) => StepTryLock(s, t)
    case Locked(_) => StepLocked(s, t)
    case Publish(main, _) => assert TableOk(s, main); StepPublish(s, t)
    case Unlock(main, c) => Goto(s, t, Decide(main, c)).(lock := None)
    case Decide(_, _) => StepDecide(s, t)
    case Reload(c) => Goto(s, t, TryLock(|s.tables| - 1, c))
    case Probe(main, _, _) => assert TableOk(s, main); StepProbe(s, t)
    case PutKey(main, _, _) => assert TableOk(s, main); StepPutKey(s, t)
    case PutValue(main, _, _) => assert TableOk(s, main); StepPutValue(s, t)
    case Done(v) => Goto(s, t, Idle).(returned := s.returned + [(t, v)])
  }

  // ---------------------------------------------------------------- invariant

  /** t sits k slots past its home in the table, with no empty slot on the way. */
  predicate KeyOk(s: State, tab: Table, t: Tid) {
    && t in tab.pos && t in s.num && t in s.home && t in s.prod && t in s.at
    && s.num[t] < Limit(Cap(tab))
    && tab.pos[t] < Cap(tab)
    && tab.keys[Slot(s.home[t], tab.pos[t], Cap(tab))] == Some(t)
    && (forall k :: 0 <= k < tab.pos[t] ==> tab.keys[Slot(s.home[t], k, Cap(tab))] != None)
  }

  predicate Writing(p: Pc, i: nat) { p.PutValue? && p.main == i }

  predicate TableOk(s: State, i: nat)
    requires i < |s.tables|
  {
    var tab := s.tables[i];
    && Cap(tab) > 0 && |tab.vals| == Cap(tab)
    && (forall t :: t in tab.pos ==> KeyOk(s, tab, t))
    && (forall j :: 0 <= j < Cap(tab) && tab.keys[j].Some? ==>
          var t := tab.keys[j].value; t in tab.pos && t in s.home && j == Slot(s.home[t], tab.pos[t], Cap(tab)))
    && (forall t :: t in tab.pos && t in s.home && t in s.prod && t in s.pc && !Writing(s.pc[t], i) ==>
          tab.vals[Slot(s.home[t], tab.pos[t], Cap(tab))] == Some(s.prod[t]))
  }

  /** t has been put in a table no younger than `upto`. */
  predicate Registered(s: State, t: Tid, upto: int) {
    && t in s.num && t in s.prod
    && t in s.at && s.at[t] <= upto && s.at[t] < |s.tables| && t in s.tables[s.at[t]].pos
  }

  /** The first k slots from t's home are taken by other keys. */
  predicate Path(s: State, t: Tid, i: nat, k: nat)
    requires i < |s.tables|
  {
    var tab := s.tables[i];
    && t in s.home && k <= Cap(tab)
    && (forall l :: 0 <= l < k ==> tab.keys[Slot(s.home[t], l, Cap(tab))] !in {None, Some(t)})
  }

  /** t is counted but not yet in any table. */
  predicate Counted(s: State, t: Tid, c: nat) {
    t in s.num && s.num[t] == c && t !in s.prod && t !in s.at
  }

  predicate ReadyToPut(s: State, t: Tid, main: nat, v: Producer) {
    && main < |s.tables|
    && t in s.num && s.num[t] < Limit(Cap(s.tables[main]))
    && t in s.prod && s.prod[t] == v
    && t !in s.tables[main].pos
    && (t in s.at ==> Registered(s, t, main))
  }

  predicate PcOk(s: State, t: Tid, p: Pc) {
    match p
    case Idle => t in s.num ==> Registered(s, t, |s.tables| - 1)
    case LoadMain => t in s.num ==> Registered(s, t, |s.tables| - 1)
    case Find(main, tab, k) =>
      && tab <= main < |s.tables|
      && (t in s.num ==> Registered(s, t, tab))
      && (forall i :: tab < i <= main ==> t !in s.tables[i].pos)
      && Path(s, t, tab, k)
    case CountUp(main) => main < |s.tables| && t !in s.num
    case TryLock(main, c) => main < |s.tables| && Counted(s, t, c)
    case Locked(c) => Counted(s, t, c) && s.lock == Some(t)
    case Publish(main, c) => main == |s.tables| - 1 && Counted(s, t, c) && s.lock == Some(t)
    case Unlock(main, c) => main < |s.tables| && Counted(s, t, c) && s.lock == Some(t)
    case Decide(main, c) => main < |s.tables| && Counted(s, t, c)
    case Reload(c) => Counted(s, t, c)
    case Probe(main, v, k) => ReadyToPut(s, t, main, v) && Path(s, t, main, k)
    case PutKey(main, v, k) => ReadyToPut(s, t, main, v) && Path(s, t, main, k) && k < Cap(s.tables[main])
    case PutValue(main, v, k) =>
      && Registered(s, t, main) && s.prod[t] == v && main < |s.tables|
      && t in s.tables[main].pos && s.tables[main].pos[t] == k
    case Done(v) => Registered(s, t, |s.tables| - 1) && s.prod[t] == v
  }

  predicate Injective(m: map<Tid, nat>) {
    forall t, u :: t in m && u in m && t != u ==> m[t] != m[u]
  }

  /** The parts of the invariant about numbers, producers and results, without the tables. */
  predicate Counts(s: State) {
    && (forall t :: t in s.num ==> t in s.pc && 1 <= s.num[t] <= s.count)
    && Injective(s.num)
    && (forall t :: t in s.prod ==> t in s.num && s.prod[t] < s.made)
    && Injective(s.prod)
    && (forall t :: t in s.at ==> t in s.prod)
    && (forall i :: 0 <= i < |s.returned| ==>
          s.returned[i].0 in s.prod && s.prod[s.returned[i].0] == s.returned[i].1)
  }

  predicate Inv(s: State) {
    && s.tables != []
    && (forall i, j :: 0 <= i < j < |s.tables| ==> 2 * Cap(s.tables[i]) <= Cap(s.tables[j]))
    && (forall i :: 0 <= i < |s.tables| ==> TableOk(s, i))
    && s.home.Keys == s.pc.Keys
    && (forall t :: t in s.pc ==> PcOk(s, t, s.pc[t]))
    && Counts(s)
  }

  // ---------------------------------------------------------------- preservation

  /** Keys never disappear; t only adds itself to empty slots and only writes its own values. */
  predicate TableGrows(tab: Table, tab': Table, t: Tid) {
    && Cap(tab') == Cap(tab) && |tab.vals| == Cap(tab) && |tab'.vals| == Cap(tab)
    && (forall j :: 0 <= j < Cap(tab) ==>
        tab'.keys[j] == tab.keys[j] || (tab.keys[j] == None && tab'.keys[j] == Some(t)))
    && (forall j :: 0 <= j < Cap(tab) ==> tab'.vals[j] == tab.vals[j] || tab'.keys[j] == Some(t))
    && tab.pos.Keys <= tab'.pos.Keys <= tab.pos.Keys + {t}
    && (forall u :: u in tab.pos ==> tab'.pos[u] == tab.pos[u])
  }

  ghost predicate MapGrows<T>(m: map<Tid, T>, m': map<Tid, T>, t: Tid) {
    && m.Keys <= m'.Keys <= m.Keys + {t}
    && (forall u :: u in m ==> m'[u] == m[u])
  }

  /** What every step of thread t has in common. */
  ghost predicate Grows(s: State, s': State, t: Tid) {
    && t in s.pc && t in s'.pc && s'.pc == s.pc[t := s'.pc[t]]
    && s'.home == s.home
    && |s.tables| <= |s'.tables| && (|s.tables| < |s'.tables| ==> s.lock == Some(t))
    && (forall i :: 0 <= i < |s.tables| ==> TableGrows(s.tables[i], s'.tables[i], t))
    && MapGrows(s.num, s'.num, t) && MapGrows(s.prod, s'.prod, t) && MapGrows(s.at, s'.at, t)
    && (s'.lock == s.lock || s.lock == None || s.lock == Some(t))
  }

  lemma OtherThreadKept(s: State, s': State, t: Tid, u: Tid)
    requires Grows(s, s', t) && u in s.pc && u != t && PcOk(s, u, s.pc[u])
    ensures PcOk(s', u, s.pc[u])
  {
  }

  lemma OtherKeyKept(s: State, s': State, t: Tid, i: nat, u: Tid)
    requires Grows(s, s', t) && i < |s.tables| && Cap(s.tables[i]) > 0
    requires u in s.tables[i].pos && KeyOk(s, s.tables[i], u)
    ensures KeyOk(s', s'.tables[i], u)
  {
    assert TableGrows(s.tables[i], s'.tables[i], t);
  }

  lemma TableKept(s: State, s': State, t: Tid, i: nat)
    requires Grows(s, s', t) && i < |s.tables| && TableOk(s, i)
    requires t in s'.tables[i].pos && t !in s.tables[i].pos ==> KeyOk(s', s'.tables[i], t)
    requires forall j :: 0 <= j < Cap(s.tables[i]) && s.tables[i].keys[j] == None && s'.tables[i].keys[j] == Some(t) ==>
               t in s'.tables[i].pos && t in s.home && j == Slot(s.home[t], s'.tables[i].pos[t], Cap(s.tables[i]))
    requires t in s'.tables[i].pos && t in s.home && t in s'.prod && !Writing(s'.pc[t], i) ==>
               s'.tables[i].vals[Slot(s.home[t], s'.tables[i].pos[t], Cap(s.tables[i]))] == Some(s'.prod[t])
    ensures TableOk(s', i)
  {
    assert TableGrows(s.tables[i], s'.tables[i], t);
    var tab, tab' := s.tables[i], s'.tables[i];
    forall u | u in tab'.pos ensures KeyOk(s', tab', u) {
      if u in tab.pos { OtherKeyKept(s, s', t, i, u); }
    }
    forall u | u in tab'.pos && u in s'.home && u in s'.prod && u in s'.pc && !Writing(s'.pc[u], i)
      ensures tab'.vals[Slot(s'.home[u], tab'.pos[u], Cap(tab'))] == Some(s'.prod[u])
    {
      if u != t {
        assert KeyOk(s, tab, u);
        assert tab'.keys[Slot(s.home[u], tab.pos[u], Cap(tab))] == Some(u);
      }
    }
  }

  lemma LocalStepKeepsInv(s: State, s': State, t: Tid)
    requires Inv(s) && Grows(s, s', t) && PcOk(s', t, s'.pc[t]) && Counts(s')
    requires forall i :: 0 <= i < |s'.tables| ==> TableOk(s', i)
    requires forall i, j :: 0 <= i < j < |s'.tables| ==> 2 * Cap(s'.tables[i]) <= Cap(s'.tables[j])
    ensures Inv(s')
  {
    forall u | u in s'.pc ensures PcOk(s', u, s'.pc[u]) {
      if u != t {
        assert PcOk(s, u, s.pc[u]);
        OtherThreadKept(s, s', t, u);
      }
    }
  }

  /** A step of t that leaves all tables as they are. */
  lemma SameTablesKeepInv(s: State, s': State, t: Tid)
    requires Inv(s) && t in s.pc && s'.tables == s.tables && !s.pc[t].PutValue?
    requires Grows(s, s', t) && PcOk(s', t, s'.pc[t]) && Counts(s')
    ensures Inv(s')
  {
    forall i | 0 <= i < |s'.tables| ensures TableOk(s', i) {
      assert TableOk(s, i);
      SameTableKept(s, s', t, i);
    }
    LocalStepKeepsInv(s, s', t);
  }

  lemma SameTableKept(s: State, s': State, t: Tid, i: nat)
    requires i < |s.tables| && TableOk(s, i) && t in s.pc && !s.pc[t].PutValue?
    requires Grows(s, s', t) && s'.tables == s.tables
    ensures TableOk(s', i)
  {
    assert t in s.tables[i].pos ==> KeyOk(s, s.tables[i], t);
    TableKept(s, s', t, i);
  }

  lemma SameTablesGrow(s: State)
    requires Inv(s)
    ensures forall i, t :: 0 <= i < |s.tables| ==> TableGrows(s.tables[i], s.tables[i], t)
  {
    forall i, t | 0 <= i < |s.tables| ensures TableGrows(s.tables[i], s.tables[i], t) {
      assert TableOk(s, i);
    }
  }

  /** If probing from t's home reaches an empty slot without meeting t, then t is not in the table. */
  lemma NotFound(s: State, t: Tid, i: nat, k: nat)
    requires i < |s.tables| && TableOk(s, i) && Path(s, t, i, k)
    requires s.tables[i].keys[Slot(s.home[t], k, Cap(s.tables[i]))] == None
    ensures t !in s.tables[i].pos
  {
    assert t in s.tables[i].pos ==> KeyOk(s, s.tables[i], t);
  }

  /** The slots a probe has passed are all different and taken, so there are fewer of them than
      the table's three-quarters limit: the pigeonhole of get_or_add_implicit_producer. */
  lemma PathShort(s: State, t: Tid, i: nat, k: nat)
    requires Counts(s) && i < |s.tables| && TableOk(s, i) && Path(s, t, i, k)
    ensures k == 0 || k < Limit(Cap(s.tables[i]))
    ensures k < Cap(s.tables[i])
  {
    var tab := s.tables[i];
    var passed := Passed(s.home[t], k, Cap(tab));
    PassedSize(s.home[t], k, Cap(tab));
    PassedOccupied(s, t, i, k);
    SubsetSize(passed, Occupied(tab.keys));
    OccupiedBound(s, i);
  }

  lemma PassedOccupied(s: State, t: Tid, i: nat, k: nat)
    requires i < |s.tables| && TableOk(s, i) && Path(s, t, i, k)
    ensures Passed(s.home[t], k, Cap(s.tables[i])) <= Occupied(s.tables[i].keys)
  {
    var tab := s.tables[i];
    forall j | j in Passed(s.home[t], k, Cap(tab)) ensures j in Occupied(tab.keys) {
      var l :| 0 <= l < k && j == Slot(s.home[t], l, Cap(tab));
    }
  }

  function Occupied(keys: seq<Option<Tid>>): set<nat> {
    set j: nat | j < |keys| && keys[j].Some?
  }

  function Passed(home: nat, k: nat, cap: nat): set<nat>
    requires cap > 0
  {
    set l: nat | l < k :: Slot(home, l, cap)
  }

  lemma SlotsDiffer(home: nat, k: nat, l: nat, cap: nat)
    requires 0 < cap && k < l < k + cap
    ensures Slot(home, k, cap) != Slot(home, l, cap)
  {
    var d := (home + l) / cap - (home + k) / cap;
    assert l - k == cap * d + Slot(home, l, cap) - Slot(home, k, cap);
    assert d <= 0 ==> cap * d <= 0;
    assert d >= 1 ==> cap * d >= cap;
  }

  lemma {:induction false} PassedSize(home: nat, k: nat, cap: nat)
    requires k <= cap && cap > 0
    ensures |Passed(home, k, cap)| == k
  {
    if k > 0 {
      PassedSize(home, k - 1, cap);
      var last := Slot(home, k - 1, cap);
      assert last !in Passed(home, k - 1, cap) by {
        forall l: nat | l < k - 1 ensures Slot(home, l, cap) != last {
          SlotsDiffer(home, l, k - 1, cap);
        }
      }
      assert Passed(home, k, cap) == Passed(home, k - 1, cap) + {last};
    } else {
      assert Passed(home, k, cap) == {};
    }
  }

  /** 1, 2, ... n */
  function UpTo(n: nat): (r: set<nat>)
    ensures |r| == n && forall x :: x in r <==> 1 <= x <= n
  {
    if n == 0 then {} else UpTo(n - 1) + {n}
  }

  /** Distinct occupied slots hold keys with distinct numbers. */
  lemma {:induction false} NumbersDiffer(keys: seq<Option<Tid>>, num: map<Tid, nat>, js: set<nat>)
    requires forall j :: j in js ==> j < |keys| && keys[j].Some? && keys[j].value in num
    requires forall i, j :: i in js && j in js && i != j ==> num[keys[i].value] != num[keys[j].value]
    ensures |set j | j in js :: num[keys[j].value]| == |js|
  {
    var image := set j | j in js :: num[keys[j].value];
    if js == {} {
      assert image == {};
    } else {
      var x :| x in js;
      var rest := js - {x};
      NumbersDiffer(keys, num, rest);
      var restImage := set j | j in rest :: num[keys[j].value];
      assert image == restImage + {num[keys[x].value]};
      assert num[keys[x].value] !in restImage;
    }
  }

  /** Every table holds fewer keys than three quarters of its capacity, lazily copied ones included. */
  lemma OccupiedBound(s: State, i: nat)
    requires Counts(s) && i < |s.tables| && TableOk(s, i)
    ensures |Occupied(s.tables[i].keys)| == 0 || |Occupied(s.tables[i].keys)| < Limit(Cap(s.tables[i]))
    ensures |Occupied(s.tables[i].keys)| < Cap(s.tables[i])
  {
    var tab := s.tables[i];
    var occ := Occupied(tab.keys);
    forall j | j in occ ensures tab.keys[j].value in s.num && 1 <= s.num[tab.keys[j].value] < Limit(Cap(tab)) {
      SlotKeyOk(s, i, j);
    }
    forall j, l | j in occ && l in occ && j != l ensures s.num[tab.keys[j].value] != s.num[tab.keys[l].value] {
      SlotKeyOk(s, i, j);
      SlotKeyOk(s, i, l);
    }
    NumbersDiffer(tab.keys, s.num, occ);
    var image := set j | j in occ :: s.num[tab.keys[j].value];
    if occ != {} {
      var j :| j in occ;
      assert s.num[tab.keys[j].value] < Limit(Cap(tab));
      SubsetSize(image, UpTo(Limit(Cap(tab)) - 1));
    }
  }

  lemma SlotKeyOk(s: State, i: nat, j: nat)
    requires i < |s.tables| && TableOk(s, i) && j < Cap(s.tables[i]) && s.tables[i].keys[j].Some?
    ensures var t := s.tables[i].keys[j].value;
            KeyOk(s, s.tables[i], t) && j == Slot(s.home[t], s.tables[i].pos[t], Cap(s.tables[i]))
  {
  }

  // ---------------------------------------------------------------- every step keeps the invariant

  /** A step that touches neither tables nor numbers. */
  ghost predicate Moves(s: State, s': State, t: Tid) {
    && t in s.pc && t in s'.pc
    && s' == Goto(s, t, s'.pc[t]).(lock := s'.lock)
    && (s'.lock == s.lock || s.lock == None || s.lock == Some(t))
  }

  lemma MoveKeepsInv(s: State, s': State, t: Tid)
    requires Inv(s) && Moves(s, s', t) && !s.pc[t].PutValue? && PcOk(s', t, s'.pc[t])
    ensures Inv(s')
  {
    SameTablesGrow(s);
    SameTablesKeepInv(s, s', t);
  }

  lemma FindMissPcOk(s: State, t: Tid)
    requires t in s.pc && s.pc[t].Find? && PcOk(s, t, s.pc[t]) && TableOk(s, s.pc[t].tab)
    requires s.pc[t].k < Cap(s.tables[s.pc[t].tab])
    requires s.pc[t].tab > 0 ==> TableOk(s, s.pc[t].tab - 1)
    requires s.tables[s.pc[t].tab].keys[Slot(s.home[t], s.pc[t].k, Cap(s.tables[s.pc[t].tab]))] == None
    ensures PcOk(StepFind(s, t), t, StepFind(s, t).pc[t])
  {
    NotFound(s, t, s.pc[t].tab, s.pc[t].k);
  }

  lemma FindHitPcOk(s: State, t: Tid)
    requires t in s.pc && s.pc[t].Find? && PcOk(s, t, s.pc[t]) && TableOk(s, s.pc[t].tab)
    requires s.pc[t].k < Cap(s.tables[s.pc[t].tab])
    requires TableOk(s, s.pc[t].main) && Cap(s.tables[s.pc[t].tab]) <= Cap(s.tables[s.pc[t].main])
    requires s.tables[s.pc[t].tab].keys[Slot(s.home[t], s.pc[t].k, Cap(s.tables[s.pc[t].tab]))] == Some(t)
    ensures PcOk(StepFind(s, t), t, StepFind(s, t).pc[t])
  {
    SlotKeyOk(s, s.pc[t].tab, Slot(s.home[t], s.pc[t].k, Cap(s.tables[s.pc[t].tab])));
  }

  lemma FindNextPcOk(s: State, t: Tid)
    requires t in s.pc && s.pc[t].Find? && PcOk(s, t, s.pc[t]) && TableOk(s, s.pc[t].tab)
    requires s.pc[t].k < Cap(s.tables[s.pc[t].tab])
    requires s.tables[s.pc[t].tab].keys[Slot(s.home[t], s.pc[t].k, Cap(s.tables[s.pc[t].tab]))] !in {None, Some(t)}
    ensures PcOk(StepFind(s, t), t, StepFind(s, t).pc[t])
  {
  }

  lemma CapsGrow(s: State, i: nat, j: nat)
    requires Inv(s) && i <= j < |s.tables|
    ensures Cap(s.tables[i]) <= Cap(s.tables[j])
  {
    assert i < j ==> 2 * Cap(s.tables[i]) <= Cap(s.tables[j]);
  }

  lemma StepFindKeepsInv(s: State, t: Tid)
    requires Inv(s) && t in s.pc && s.pc[t].Find?
    ensures Inv(Step(s, t))
  {
    var Find(main, tab, k) := s.pc[t];
    assert PcOk(s, t, s.pc[t]) && TableOk(s, tab) && TableOk(s, main);
    assert tab > 0 ==> TableOk(s, tab - 1);
    PathShort(s, t, tab, k);
    CapsGrow(s, tab, main);
    var key := s.tables[tab].keys[Slot(s.home[t], k, Cap(s.tables[tab]))];
    if key == None {
      FindMissPcOk(s, t);
    } else if key == Some(t) {
      FindHitPcOk(s, t);
    } else {
      FindNextPcOk(s, t);
    }
    MoveKeepsInv(s, Step(s, t), t);
  }

  lemma ProbePcOk(s: State, t: Tid)
    requires t in s.pc && (s.pc[t].Probe? || s.pc[t].PutKey?) && PcOk(s, t, s.pc[t])
    requires TableOk(s, s.pc[t].main) && s.pc[t].k < Cap(s.tables[s.pc[t].main])
    ensures s.pc[t].Probe? ==> PcOk(StepProbe(s, t), t, StepProbe(s, t).pc[t])
    ensures s.pc[t].PutKey?
            && s.tables[s.pc[t].main].keys[Slot(s.home[t], s.pc[t].k, Cap(s.tables[s.pc[t].main]))].Some? ==>
              PcOk(StepPutKey(s, t), t, StepPutKey(s, t).pc[t])
  {
  }

  lemma StepProbeKeepsInv(s: State, t: Tid)
    requires Inv(s) && t in s.pc && s.pc[t].Probe?
    ensures Inv(Step(s, t))
  {
    assert PcOk(s, t, s.pc[t]) && TableOk(s, s.pc[t].main);
    PathShort(s, t, s.pc[t].main, s.pc[t].k);
    ProbePcOk(s, t);
    MoveKeepsInv(s, Step(s, t), t);
  }

  lemma PlainPcOk(s: State, t: Tid, s': State)
    requires t in s.pc && t in s.home && PcOk(s, t, s.pc[t]) && s.tables != [] && TableOk(s, |s.tables| - 1)
    requires match s.pc[t]
             case Idle => s' == Goto(s, t, LoadMain)
             case LoadMain => s' == Goto(s, t, Find(|s.tables| - 1, |s.tables| - 1, 0))
             case TryLock(_, _) => s' == StepTryLock(s, t)
             case Locked(_) => s' == StepLocked(s, t)
             case Unlock(main, c) => s' == Goto(s, t, Decide(main, c)).(lock := None)
             case Reload(c) => s' == Goto(s, t, TryLock(|s.tables| - 1, c))
             case _ => false
    ensures Moves(s, s', t) && PcOk(s', t, s'.pc[t])
  {
  }

  lemma PlainStepKeepsInv(s: State, t: Tid)
    requires Inv(s) && t in s.pc
    requires s.pc[t].Idle? || s.pc[t].LoadMain? || s.pc[t].TryLock? || s.pc[t].Locked? || s.pc[t].Unlock?
             || s.pc[t].Reload?
    ensures Inv(Step(s, t))
  {
    assert PcOk(s, t, s.pc[t]) && TableOk(s, |s.tables| - 1);
    PlainPcOk(s, t, Step(s, t));
    MoveKeepsInv(s, Step(s, t), t);
  }

  lemma InjectiveFresh(m: map<Tid, nat>, t: Tid, v: nat)
    requires Injective(m) && t !in m && forall u :: u in m ==> m[u] != v
    ensures Injective(m[t := v])
  {
  }

  lemma NumberedCountsKept(s: State, s': State, t: Tid)
    requires Counts(s) && t in s.pc && t !in s.num
    requires s'.num == s.num[t := s.count + 1] && s'.count == s.count + 1 && s'.pc.Keys == s.pc.Keys
    requires s'.prod == s.prod && s'.made == s.made && s'.at == s.at && s'.returned == s.returned
    ensures Counts(s') && MapGrows(s.num, s'.num, t)
  {
    InjectiveFresh(s.num, t, s.count + 1);
  }

  lemma MadeCountsKept(s: State, s': State, t: Tid)
    requires Counts(s) && t in s.num && t !in s.prod
    requires s'.num == s.num && s'.count == s.count && s'.pc.Keys == s.pc.Keys
    requires (s'.prod == s.prod && s'.made == s.made) || (s'.prod == s.prod[t := s.made] && s'.made == s.made + 1)
    requires s'.at == s.at && s'.returned == s.returned
    ensures Counts(s') && MapGrows(s.prod, s'.prod, t)
  {
    InjectiveFresh(s.prod, t, s.made);
  }

  /** A thread without a number is in no table. */
  lemma NotCountedNowhere(s: State, t: Tid)
    requires Inv(s) && t in s.pc && t !in s.num
    ensures t !in s.prod && t !in s.at
  {
  }

  /** A step that gives t a number or a producer, or returns t's producer, but leaves the tables. */
  lemma CountingStepKeepsInv(s: State, s': State, t: Tid)
    requires Inv(s) && t in s.pc && t in s'.pc && !s.pc[t].PutValue? && Counts(s') && PcOk(s', t, s'.pc[t])
    requires s'.pc == s.pc[t := s'.pc[t]] && s'.tables == s.tables && s'.home == s.home && s'.lock == s.lock
    requires MapGrows(s.num, s'.num, t) && MapGrows(s.prod, s'.prod, t) && s'.at == s.at
    ensures Inv(s')
  {
    SameTablesGrow(s);
    SameTablesKeepInv(s, s', t);
  }

  lemma StepCountUpKeepsInv(s: State, t: Tid)
    requires Inv(s) && t in s.pc && s.pc[t].CountUp?
    ensures Inv(Step(s, t))
  {
    assert PcOk(s, t, s.pc[t]);
    NotCountedNowhere(s, t);
    hide Counts, TableOk;
    NumberedCountsKept(s, Step(s, t), t);
    CountingStepKeepsInv(s, Step(s, t), t);
  }

  lemma StepDecideKeepsInv(s: State, t: Tid)
    requires Inv(s) && t in s.pc && s.pc[t].Decide?
    ensures Inv(Step(s, t))
  {
    hide Counts, TableOk;
    assert PcOk(s, t, s.pc[t]) && TableOk(s, s.pc[t].main);
    DecidePcOk(s, t);
    assert t in s.num && t !in s.prod;
    MadeCountsKept(s, Step(s, t), t);
    CountingStepKeepsInv(s, Step(s, t), t);
  }

  lemma DecidePcOk(s: State, t: Tid)
    requires t in s.pc && s.pc[t].Decide? && t in s.home && PcOk(s, t, s.pc[t]) && TableOk(s, s.pc[t].main)
    ensures PcOk(StepDecide(s, t), t, StepDecide(s, t).pc[t])
  {
    var tab := s.tables[s.pc[t].main];
    assert t in tab.pos ==> KeyOk(s, tab, t);
  }

  lemma StepDoneKeepsInv(s: State, t: Tid)
    requires Inv(s) && t in s.pc && s.pc[t].Done?
    ensures Inv(Step(s, t))
  {
    assert PcOk(s, t, s.pc[t]);
    CountingStepKeepsInv(s, Step(s, t), t);
  }

  lemma StepPublishKeepsInv(s: State, t: Tid)
    requires Inv(s) && t in s.pc && s.pc[t].Publish?
    ensures Inv(Step(s, t))
  {
    var s' := Step(s, t);
    assert PcOk(s, t, s.pc[t]);
    PublishGrows(s, t);
    forall i | 0 <= i < |s'.tables| ensures TableOk(s', i) {
      PublishTable(s, s', t, i);
    }
    hide TableOk, Grows;
    LocalStepKeepsInv(s, s', t);
  }

  lemma PublishGrows(s: State, t: Tid)
    requires Inv(s) && t in s.pc && s.pc[t].Publish?
    ensures Cap(s.tables[|s.tables| - 1]) > 0 && s.pc[t].main == |s.tables| - 1 && Grows(s, StepPublish(s, t), t)
  {
    assert PcOk(s, t, s.pc[t]) && TableOk(s, |s.tables| - 1);
    SameTablesGrow(s);
    hide TableOk, Counts;
  }

  lemma PublishTable(s: State, s': State, t: Tid, i: nat)
    requires Inv(s) && t in s.pc && s.pc[t].Publish? && s.pc[t].main == |s.tables| - 1
    requires Cap(s.tables[|s.tables| - 1]) > 0 && s' == StepPublish(s, t) && Grows(s, s', t) && i < |s'.tables|
    ensures TableOk(s', i)
  {
    assert PcOk(s, t, s.pc[t]);
    if i < |s.tables| {
      assert TableOk(s, i);
      assert t in s.tables[i].pos ==> KeyOk(s, s.tables[i], t);
      hide Grows, Counts;
      TableKept(s, s', t, i);
    }
  }

  lemma StepPutKeyKeepsInv(s: State, t: Tid)
    requires Inv(s) && t in s.pc && s.pc[t].PutKey?
    ensures Inv(Step(s, t))
  {
    var PutKey(main, v, k) := s.pc[t];
    var s' := Step(s, t);
    assert PcOk(s, t, s.pc[t]) && TableOk(s, main);
    if s.tables[main].keys[Slot(s.home[t], k, Cap(s.tables[main]))] == None {
      PutKeyGrows(s, t);
      PutKeyTables(s, s', t);
      LocalStepKeepsInv(s, s', t);
    } else {
      ProbePcOk(s, t);
      MoveKeepsInv(s, s', t);
    }
  }

  lemma PutKeyGrows(s: State, t: Tid)
    requires Inv(s) && t in s.pc && s.pc[t].PutKey?
    requires PcOk(s, t, s.pc[t]) && TableOk(s, s.pc[t].main)
    requires var tab := s.tables[s.pc[t].main]; tab.keys[Slot(s.home[t], s.pc[t].k, Cap(tab))] == None
    ensures Grows(s, StepPutKey(s, t), t)
    ensures PcOk(StepPutKey(s, t), t, StepPutKey(s, t).pc[t])
  {
    PutKeyPcOk(s, t);
    PutKeyTableGrows(s, t);
    SameTablesGrow(s);
    hide TableGrows, TableOk, Counts, PcOk;
  }

  lemma PutKeyTableGrows(s: State, t: Tid)
    requires t in s.pc && s.pc[t].PutKey? && t in s.home && s.pc[t].main < |s.tables|
    requires TableOk(s, s.pc[t].main)
    requires var tab := s.tables[s.pc[t].main]; tab.keys[Slot(s.home[t], s.pc[t].k, Cap(tab))] == None
    requires t !in s.tables[s.pc[t].main].pos
    ensures TableGrows(s.tables[s.pc[t].main], StepPutKey(s, t).tables[s.pc[t].main], t)
  {
  }

  lemma PutKeyPcOk(s: State, t: Tid)
    requires t in s.pc && s.pc[t].PutKey? && PcOk(s, t, s.pc[t]) && TableOk(s, s.pc[t].main)
    requires var tab := s.tables[s.pc[t].main]; tab.keys[Slot(s.home[t], s.pc[t].k, Cap(tab))] == None
    ensures PcOk(StepPutKey(s, t), t, StepPutKey(s, t).pc[t]) && t !in s.tables[s.pc[t].main].pos
  {
    hide TableOk;
  }

  lemma PutKeyTables(s: State, s': State, t: Tid)
    requires Inv(s) && t in s.pc && s.pc[t].PutKey? && s' == StepPutKey(s, t)
    requires PcOk(s, t, s.pc[t]) && TableOk(s, s.pc[t].main) && Grows(s, s', t)
    requires var tab := s.tables[s.pc[t].main]; tab.keys[Slot(s.home[t], s.pc[t].k, Cap(tab))] == None
    ensures forall i :: 0 <= i < |s'.tables| ==> TableOk(s', i)
    ensures forall i, j :: 0 <= i < j < |s'.tables| ==> 2 * Cap(s'.tables[i]) <= Cap(s'.tables[j])
  {
    forall i | 0 <= i < |s'.tables| ensures TableOk(s', i) {
      assert TableOk(s, i);
      PutKeyTable(s, s', t, i);
    }
    SameCaps(s, s');
  }

  lemma PutKeyTable(s: State, s': State, t: Tid, i: nat)
    requires t in s.pc && s.pc[t].PutKey? && t in s.home && PcOk(s, t, s.pc[t]) && i < |s.tables| && TableOk(s, i)
    requires TableOk(s, s.pc[t].main) && s' == StepPutKey(s, t) && Grows(s, s', t)
    requires var tab := s.tables[s.pc[t].main]; tab.keys[Slot(s.home[t], s.pc[t].k, Cap(tab))] == None
    ensures TableOk(s', i)
  {
    assert t in s.tables[i].pos ==> KeyOk(s, s.tables[i], t);
    TableKept(s, s', t, i);
  }

  lemma SameCaps(s: State, s': State)
    requires Inv(s) && |s'.tables| == |s.tables|
    requires forall i :: 0 <= i < |s.tables| ==> Cap(s'.tables[i]) == Cap(s.tables[i])
    ensures forall i, j :: 0 <= i < j < |s'.tables| ==> 2 * Cap(s'.tables[i]) <= Cap(s'.tables[j])
  {
    forall i, j | 0 <= i < j < |s'.tables| ensures 2 * Cap(s'.tables[i]) <= Cap(s'.tables[j]) {
      assert 2 * Cap(s.tables[i]) <= Cap(s.tables[j]);
    }
  }

  lemma PutValueGrows(s: State, t: Tid)
    requires Inv(s) && t in s.pc && s.pc[t].PutValue?
    requires PcOk(s, t, s.pc[t]) && TableOk(s, s.pc[t].main)
    ensures Grows(s, StepPutValue(s, t), t)
    ensures PcOk(StepPutValue(s, t), t, StepPutValue(s, t).pc[t])
  {
    assert KeyOk(s, s.tables[s.pc[t].main], t);
    SameTablesGrow(s);
    assert TableGrows(s.tables[s.pc[t].main], StepPutValue(s, t).tables[s.pc[t].main], t);
  }

  lemma PutValueTable(s: State, s': State, t: Tid, i: nat)
    requires t in s.pc && s.pc[t].PutValue? && t in s.home && PcOk(s, t, s.pc[t]) && i < |s.tables| && TableOk(s, i)
    requires TableOk(s, s.pc[t].main) && s' == StepPutValue(s, t) && Grows(s, s', t)
    ensures TableOk(s', i)
  {
    assert t in s.tables[i].pos ==> KeyOk(s, s.tables[i], t);
    TableKept(s, s', t, i);
  }

  lemma StepPutValueKeepsInv(s: State, t: Tid)
    requires Inv(s) && t in s.pc && s.pc[t].PutValue?
    ensures Inv(Step(s, t))
  {
    var s' := Step(s, t);
    assert PcOk(s, t, s.pc[t]) && TableOk(s, s.pc[t].main);
    PutValueGrows(s, t);
    forall i | 0 <= i < |s'.tables| ensures TableOk(s', i) {
      assert TableOk(s, i);
      PutValueTable(s, s', t, i);
    }
    SameCaps(s, s');
    LocalStepKeepsInv(s, s', t);
  }

  lemma StepKeepsInv(s: State, t: Tid)
    requires Inv(s) && t in s.pc
    ensures Inv(Step(s, t))
  {
    match s.pc[t]
    case Find(_, _, _) => StepFindKeepsInv(s, t);
    case CountUp(_) => StepCountUpKeepsInv(s, t);
    case Decide(_, _) => StepDecideKeepsInv(s, t);
    case Done(_) => StepDoneKeepsInv(s, t);
    case Publish(_, _) => StepPublishKeepsInv(s, t);
    case Probe(_, _, _) => StepProbeKeepsInv(s, t);
    case PutKey(_, _, _) => StepPutKeyKeepsInv(s, t);
    case PutValue(_, _, _) => StepPutValueKeepsInv(s, t);
    case _ => PlainStepKeepsInv(s, t);
  }

  // ---------------------------------------------------------------- whole runs

  /** The queue as constructed: one empty table of INITIAL_IMPLICIT_PRODUCER_HASH_SIZE slots. */
  function Init(home: map<Tid, nat>, size: nat): State
    requires size > 0
  {
    State([EmptyTable(size)], 0, None, map t | t in home :: Idle, home, 0, map[], map[], map[], [])
  }

  lemma InitInv(home: map<Tid, nat>, size: nat)
    requires size > 0
    ensures Inv(Init(home, size))
  {
  }

  /** Any interleaving: the schedule names the thread that moves next. */
  function Run(s: State, schedule: seq<Tid>): (s': State)
    requires Inv(s)
    ensures Inv(s')
    decreases |schedule|
  {
    if schedule == [] then s
    else if schedule[0] in s.pc then
      StepKeepsInv(s, schedule[0]);
      Run(Step(s, schedule[0]), schedule[1..])
    else
      Run(s, schedule[1..])
  }

  /** In every run, all calls of one thread return the same producer and calls of different threads
      return different ones. */
  lemma SameThreadSameProducer(home: map<Tid, nat>, size: nat, schedule: seq<Tid>, i: nat, j: nat)
    requires size > 0
    ensures Inv(Init(home, size))
    ensures var r := Run(Init(home, size), schedule).returned;
            i < |r| && j < |r| ==> (r[i].0 == r[j].0 <==> r[i].1 == r[j].1)
  {
    InitInv(home, size);
    var s := Run(Init(home, size), schedule);
    assert Counts(s);
  }

  /** In every run, every table in the chain holds fewer keys than three quarters of its capacity
      (or none), so at least one of its slots is empty. */
  lemma TablesNeverFill(home: map<Tid, nat>, size: nat, schedule: seq<Tid>, i: nat)
    requires size > 0
    ensures Inv(Init(home, size))
    ensures var s := Run(Init(home, size), schedule);
            i < |s.tables| ==>
              && (Occupied(s.tables[i].keys) == {} || |Occupied(s.tables[i].keys)| < Limit(Cap(s.tables[i])))
              && exists j :: 0 <= j < Cap(s.tables[i]) && s.tables[i].keys[j] == None
  {
    InitInv(home, size);
    var s := Run(Init(home, size), schedule);
    if i < |s.tables| {
      assert TableOk(s, i);
      OccupiedBound(s, i);
      EmptySlotExists(s.tables[i].keys);
    }
  }

  lemma {:induction false} EmptySlotExists(keys: seq<Option<Tid>>)
    requires |Occupied(keys)| < |keys|
    ensures exists j :: 0 <= j < |keys| && keys[j] == None
  {
    var n := |keys| - 1;
    if keys[n] != None {
      assert Occupied(keys) == Occupied(keys[..n]) + {n};
      EmptySlotExists(keys[..n]);
      var j :| 0 <= j < n && keys[..n][j] == None;
      assert keys[j] == None;
    }
  }

  /** Every probe loop ends: a thread that is probing has passed fewer slots than three quarters
      of the table it probes. */
  lemma ProbesBounded(s: State, t: Tid)
    requires Inv(s) && t in s.pc
    ensures s.pc[t].Find? ==> s.pc[t].k == 0 || s.pc[t].k < Limit(Cap(s.tables[s.pc[t].tab]))
    ensures s.pc[t].Probe? || s.pc[t].PutKey? ==> s.pc[t].k == 0 || s.pc[t].k < Limit(Cap(s.tables[s.pc[t].main]))
  {
    assert PcOk(s, t, s.pc[t]);
    match s.pc[t]
    case Find(_, tab, k) =>
      assert TableOk(s, tab);
      PathShort(s, t, tab, k);
    case Probe(main, _, k) =>
      assert TableOk(s, main);
      PathShort(s, t, main, k);
    case PutKey(main, _, k) =>
      assert TableOk(s, main);
      PathShort(s, t, main, k);
    case _ =>
  }

  /** A thread that has just published a table never has to wait for another one: its number is
      below the new table's limit. */
  lemma FreshTableAccepts(s: State, t: Tid)
    requires Inv(s) && t in s.pc && s.pc[t].Publish?
    ensures var s' := Step(s, t);
            s'.pc[t].Unlock? && s'.pc[t].main < |s'.tables| && s'.pc[t].c < Limit(Cap(s'.tables[s'.pc[t].main]))
  {
  }

  // ---------------------------------------------------------------- a call by itself

  predicate HasLock(p: Pc) { p.Locked? || p.Publish? || p.Unlock? }

  /** The lock is held by a thread that is about to resize, if at all. */
  predicate LockOk(s: State) { s.lock.Some? ==> s.lock.value in s.pc && HasLock(s.pc[s.lock.value]) }

  /** The main tables that the points other than the probes refer to exist. */
  predicate Ready(s: State, t: Tid) {
    && t in s.pc && t in s.home && s.tables != []
    && match s.pc[t] {
         case Find(main, tab, k) =>
           && tab <= main < |s.tables| && Cap(s.tables[tab]) > 0
           && ValueStored(s.tables[tab], t, Slot(s.home[t], k, Cap(s.tables[tab])))
         case TryLock(main, _) => main < |s.tables|
         case Locked(_) => s.lock == Some(t)
         case Publish(main, c) => main == |s.tables| - 1 && Cap(s.tables[main]) > 0 && s.lock == Some(t)
         case Unlock(main, _) => main < |s.tables| && s.lock == Some(t)
         case Decide(main, _) => main < |s.tables| && t !in s.prod
         case Probe(main, _, k) => main < |s.tables| && Cap(s.tables[main]) > 0 && k < Cap(s.tables[main])
         case PutKey(main, _, k) => main < |s.tables| && Cap(s.tables[main]) > 0 && k < Cap(s.tables[main])
         case PutValue(main, _, _) =>
           main < |s.tables| && Cap(s.tables[main]) > 0 && |s.tables[main].vals| == Cap(s.tables[main])
         case Done(v) => t in s.prod && s.prod[t] == v
         case _ => true
       }
  }

  /** The same step, without the invariant. */
  function ReadyStep(s: State, t: Tid): State
    requires Ready(s, t)
  {
    match s.pc[t]
    case Idle => Goto(s, t, LoadMain)
    case LoadMain => Goto(s, t, Find(|s.tables| - 1, |s.tables| - 1, 0))
    case Find(_, _, _) => StepFind(s, t)
    case CountUp(main) => Goto(s, t, TryLock(main, s.count + 1)).(count := s.count + 1, num := s.num[t := s.count + 1])
    case TryLock(_, _) => StepTryLock(s, t)
    case Locked(_) => StepLocked(s, t)
    case Publish(_, _) => StepPublish(s, t)
    case Unlock(main, c) => Goto(s, t, Decide(main, c)).(lock := None)
    case Decide(_, _) => StepDecide(s, t)
    case Reload(c) => Goto(s, t, TryLock(|s.tables| - 1, c))
    case Probe(_, _, _) => StepProbe(s, t)
    case PutKey(_, _, _) => StepPutKey(s, t)
    case PutValue(_, _, _) => StepPutValue(s, t)
    case Done(v) => Goto(s, t, Idle).(returned := s.returned + [(t, v)])
  }

  lemma StepIsReady(s: State, t: Tid)
    requires Inv(s) && t in s.pc
    ensures Ready(s, t) && Step(s, t) == ReadyStep(s, t)
  {
    assert PcOk(s, t, s.pc[t]);
    match s.pc[t]
    case Find(_, tab, k) =>
      assert TableOk(s, tab);
      FindReady(s, t);
    case Publish(main, _) => assert TableOk(s, main);
    case Probe(main, _, k) =>
      assert TableOk(s, main);
      PathShort(s, t, main, k);
    case PutKey(main, _, _) => assert TableOk(s, main);
    case PutValue(main, _, _) => assert TableOk(s, main);
    case _ =>
  }

  lemma FindReady(s: State, t: Tid)
    requires Inv(s) && t in s.pc && s.pc[t].Find?
    ensures Ready(s, t)
  {
    var Find(main, tab, k) := s.pc[t];
    assert PcOk(s, t, s.pc[t]) && TableOk(s, tab);
    var j := Slot(s.home[t], k, Cap(s.tables[tab]));
    if s.tables[tab].keys[j] == Some(t) {
      SlotKeyOk(s, tab, j);
    }
  }

  lemma LockKept(s: State, t: Tid)
    requires Inv(s) && LockOk(s) && t in s.pc
    ensures LockOk(Step(s, t))
  {
    hide Inv, Step, Ready, ReadyStep;
    StepIsReady(s, t);
    match s.pc[t]
    case TryLock(_, _) => ResizeKeepsLock(s, t);
    case Locked(_) => ResizeKeepsLock(s, t);
    case Publish(_, _) => ResizeKeepsLock(s, t);
    case Unlock(_, _) => ResizeKeepsLock(s, t);
    case _ => OthersKeepLock(s, t);
  }

  lemma ResizeKeepsLock(s: State, t: Tid)
    requires Ready(s, t) && LockOk(s) && (s.pc[t].TryLock? || HasLock(s.pc[t]))
    ensures LockOk(ReadyStep(s, t))
  {
    hide Slot, ValueStored, NewCapacity;
    assert t in ReadyStep(s, t).pc;
  }

  lemma OthersKeepLock(s: State, t: Tid)
    requires Ready(s, t) && LockOk(s) && !s.pc[t].TryLock? && !HasLock(s.pc[t])
    ensures LockOk(ReadyStep(s, t))
  {
    hide Slot, ValueStored, NewCapacity, StepFind, StepProbe, StepPutKey, StepPutValue, StepDecide;
    match s.pc[t]
    case Find(_, _, _) => FindMoves(s, t);
    case Probe(_, _, _) => ProbeMoves(s, t);
    case PutKey(_, _, _) => PutKeyMoves(s, t);
    case PutValue(_, _, _) => PutValueMoves(s, t);
    case Decide(_, _) => DecideMoves(s, t);
    case _ =>
  }

  /** A step that moves t and leaves the lock alone. */
  ghost predicate LeavesLock(s: State, s': State, t: Tid) {
    s'.lock == s.lock && t in s.pc && t in s'.pc && s'.pc == s.pc[t := s'.pc[t]]
  }

  lemma FindMoves(s: State, t: Tid)
    requires Ready(s, t) && s.pc[t].Find?
    ensures LeavesLock(s, StepFind(s, t), t)
  {
    hide Slot;
  }

  lemma ProbeMoves(s: State, t: Tid)
    requires Ready(s, t) && s.pc[t].Probe?
    ensures LeavesLock(s, StepProbe(s, t), t)
  {
    hide Slot;
  }

  lemma PutKeyMoves(s: State, t: Tid)
    requires Ready(s, t) && s.pc[t].PutKey?
    ensures LeavesLock(s, StepPutKey(s, t), t)
  {
    hide Slot;
  }

  lemma PutValueMoves(s: State, t: Tid)
    requires Ready(s, t) && s.pc[t].PutValue?
    ensures LeavesLock(s, StepPutValue(s, t), t)
  {
    hide Slot;
  }

  lemma DecideMoves(s: State, t: Tid)
    requires Ready(s, t) && s.pc[t].Decide?
    ensures LeavesLock(s, StepDecide(s, t), t)
  {
  }

  lemma {:induction false} RunLockOk(s: State, schedule: seq<Tid>)
    requires Inv(s) && LockOk(s)
    ensures LockOk(Run(s, schedule))
    decreases |schedule|
  {
    hide Inv, LockOk, Step;
    if schedule != [] {
      if schedule[0] in s.pc {
        StepKeepsInv(s, schedule[0]);
        LockKept(s, schedule[0]);
        RunLockOk(Step(s, schedule[0]), schedule[1..]);
      } else {
        RunLockOk(s, schedule[1..]);
      }
    }
  }

  /** Nobody else is in the middle of a resize. */
  predicate MayResize(s: State, t: Tid) { LockOk(s) && (s.lock == None || s.lock == Some(t)) }

  /** The table has room for a thread with this number. */
  predicate Accepts(s: State, main: nat, c: nat) { main < |s.tables| && c < Limit(Cap(s.tables[main])) }

  function CapOf(s: State, i: nat): nat { if i < |s.tables| then Cap(s.tables[i]) else 0 }

  /** How far a call still has to go: the stage, the table, the slots. */
  function Stage(s: State, p: Pc): nat {
    match p
    case Idle => 0
    case Done(_) => 1
    case PutValue(_, _, _) => 2
    case Probe(_, _, _) => 3
    case PutKey(_, _, _) => 3
    case Decide(main, c) => if Accepts(s, main, c) then 4 else 10
    case Unlock(main, c) => if Accepts(s, main, c) then 5 else 11
    case Publish(_, _) => 6
    case Locked(_) => 7
    case TryLock(_, _) => 8
    case Reload(_) => 9
    case CountUp(_) => 12
    case Find(_, _, _) => 13
    case LoadMain => 14
  }

  function TableLeft(p: Pc): nat { if p.Find? then p.tab else 0 }

  function SlotsLeft(s: State, p: Pc): int {
    match p
    case Find(_, tab, k) => CapOf(s, tab) - k
    case Probe(main, _, k) => 2 * (CapOf(s, main) - k) + 1
    case PutKey(main, _, k) => 2 * (CapOf(s, main) - k)
    case _ => 0
  }

  ghost predicate Nearer(s: State, s': State, t: Tid)
    requires t in s.pc && t in s'.pc
  {
    var p, p' := s.pc[t], s'.pc[t];
    || Stage(s', p') < Stage(s, p)
    || (Stage(s', p') == Stage(s, p)
        && (TableLeft(p') < TableLeft(p)
            || (TableLeft(p') == TableLeft(p) && 0 <= SlotsLeft(s', p') < SlotsLeft(s, p))))
  }

  lemma GoesNearer(s: State, t: Tid)
    requires Inv(s) && MayResize(s, t) && t in s.pc && !s.pc[t].Idle?
    ensures t in Step(s, t).pc && Nearer(s, Step(s, t), t) && MayResize(Step(s, t), t)
    ensures MapGrows(s.prod, Step(s, t).prod, t)
    ensures Step(s, t).returned == if s.pc[t].Done? then s.returned + [(t, s.pc[t].v)] else s.returned
    ensures Step(s, t).pc[t].Idle? <==> s.pc[t].Done?
    ensures s.pc[t].Done? ==> t in s.prod && s.prod[t] == s.pc[t].v
  {
    hide Inv, Step, Ready, ReadyStep, Nearer;
    LockKept(s, t);
    StepIsReady(s, t);
    var s' := Step(s, t);
    StepKeepsInv(s, t);
    SlotsInRange(s, t);
    if t in s'.pc { SlotsInRange(s', t); }
    ReadyNearer(s, t);
  }

  lemma SlotsInRange(s: State, t: Tid)
    requires Inv(s) && t in s.pc
    ensures SlotsLeft(s, s.pc[t]) >= 0
  {
    assert PcOk(s, t, s.pc[t]);
    ProbesBounded(s, t);
    StepIsReady(s, t);
    hide Inv;
  }

  lemma ReadyNearer(s: State, t: Tid)
    requires Ready(s, t) && MayResize(s, t) && !s.pc[t].Idle?
    requires t in ReadyStep(s, t).pc ==> SlotsLeft(ReadyStep(s, t), ReadyStep(s, t).pc[t]) >= 0
    ensures var s' := ReadyStep(s, t);
            && t in s'.pc && Nearer(s, s', t) && (s'.lock == s.lock || s'.lock == None || s'.lock == Some(t))
            && MapGrows(s.prod, s'.prod, t)
            && s'.returned == (if s.pc[t].Done? then s.returned + [(t, s.pc[t].v)] else s.returned)
            && (s'.pc[t].Idle? <==> s.pc[t].Done?)
    ensures s.pc[t].Done? ==> t in s.prod && s.prod[t] == s.pc[t].v
  {
    hide ReadyStep, Nearer, MapGrows;
    match s.pc[t]
    case Find(_, _, _) => FindNearer(s, t);
    case Probe(_, _, _) => ProbeNearer(s, t);
    case PutKey(_, _, _) => ProbeNearer(s, t);
    case Publish(_, _) => ResizeNearer(s, t);
    case TryLock(_, _) => ResizeNearer(s, t);
    case Locked(_) => ResizeNearer(s, t);
    case Unlock(_, _) => ResizeNearer(s, t);
    case PutValue(_, _, _) => EndNearer(s, t);
    case Done(_) => EndNearer(s, t);
    case _ => OtherNearer(s, t);
  }

  lemma FindNearer(s: State, t: Tid)
    requires Ready(s, t) && s.pc[t].Find?
    requires t in ReadyStep(s, t).pc ==> SlotsLeft(ReadyStep(s, t), ReadyStep(s, t).pc[t]) >= 0
    ensures var s' := ReadyStep(s, t);
            && t in s'.pc && Nearer(s, s', t) && (s'.lock == s.lock || s'.lock == None || s'.lock == Some(t))
            && MapGrows(s.prod, s'.prod, t)
            && s'.returned == (if s.pc[t].Done? then s.returned + [(t, s.pc[t].v)] else s.returned)
            && (s'.pc[t].Idle? <==> s.pc[t].Done?)
  {
    hide Slot, ValueStored;
  }

  lemma ProbeNearer(s: State, t: Tid)
    requires Ready(s, t) && (s.pc[t].Probe? || s.pc[t].PutKey?)
    requires t in ReadyStep(s, t).pc ==> SlotsLeft(ReadyStep(s, t), ReadyStep(s, t).pc[t]) >= 0
    ensures var s' := ReadyStep(s, t);
            && t in s'.pc && Nearer(s, s', t) && (s'.lock == s.lock || s'.lock == None || s'.lock == Some(t))
            && MapGrows(s.prod, s'.prod, t)
            && s'.returned == (if s.pc[t].Done? then s.returned + [(t, s.pc[t].v)] else s.returned)
            && (s'.pc[t].Idle? <==> s.pc[t].Done?)
  {
    hide ValueStored;
  }

  lemma ResizeNearer(s: State, t: Tid)
    requires Ready(s, t) && MayResize(s, t)
             && (s.pc[t].Publish? || s.pc[t].TryLock? || s.pc[t].Locked? || s.pc[t].Unlock?)
    ensures var s' := ReadyStep(s, t);
            && t in s'.pc && Nearer(s, s', t) && (s'.lock == s.lock || s'.lock == None || s'.lock == Some(t))
            && MapGrows(s.prod, s'.prod, t)
            && s'.returned == (if s.pc[t].Done? then s.returned + [(t, s.pc[t].v)] else s.returned)
            && (s'.pc[t].Idle? <==> s.pc[t].Done?)
  {
    hide Slot, ValueStored, NewCapacity;
    if s.pc[t].Publish? { PublishedAccepts(s, t); }
  }

  lemma OtherNearer(s: State, t: Tid)
    requires Ready(s, t) && (s.pc[t].Decide? || s.pc[t].Reload? || s.pc[t].CountUp? || s.pc[t].LoadMain?)
    ensures var s' := ReadyStep(s, t);
            && t in s'.pc && Nearer(s, s', t) && (s'.lock == s.lock || s'.lock == None || s'.lock == Some(t))
            && MapGrows(s.prod, s'.prod, t)
            && s'.returned == (if s.pc[t].Done? then s.returned + [(t, s.pc[t].v)] else s.returned)
            && (s'.pc[t].Idle? <==> s.pc[t].Done?)
  {
    hide Slot, ValueStored, NewCapacity;
  }

  lemma EndNearer(s: State, t: Tid)
    requires Ready(s, t) && (s.pc[t].PutValue? || s.pc[t].Done?)
    ensures var s' := ReadyStep(s, t);
            && t in s'.pc && Nearer(s, s', t) && (s'.lock == s.lock || s'.lock == None || s'.lock == Some(t))
            && MapGrows(s.prod, s'.prod, t)
            && s'.returned == (if s.pc[t].Done? then s.returned + [(t, s.pc[t].v)] else s.returned)
            && (s'.pc[t].Idle? <==> s.pc[t].Done?)
  {
    hide Slot, ValueStored, NewCapacity;
  }

  lemma PublishedAccepts(s: State, t: Tid)
    requires Ready(s, t) && s.pc[t].Publish?
    ensures var s' := ReadyStep(s, t); s'.pc[t] == Unlock(|s.tables|, s.pc[t].c) && Accepts(s', |s.tables|, s.pc[t].c)
  {
  }

  /** Let thread t alone run its call to the end. */
  ghost function Finish(s: State, t: Tid): (s': State)
    requires Inv(s) && MayResize(s, t) && t in s.pc
    ensures Inv(s') && t in s'.pc && s'.pc[t].Idle?
    decreases Stage(s, s.pc[t]), TableLeft(s.pc[t]), if SlotsLeft(s, s.pc[t]) < 0 then 0 else SlotsLeft(s, s.pc[t])
  {
    if s.pc[t].Idle? then s
    else
      StepKeepsInv(s, t);
      GoesNearer(s, t);
      Finish(Step(s, t), t)
  }

  /** The thread's producer, once there is one, and what was returned. */
  lemma {:induction false} FinishReturns(s: State, t: Tid)
    requires Inv(s) && MayResize(s, t) && t in s.pc && !s.pc[t].Idle?
    ensures var s' := Finish(s, t);
            && |s'.returned| == |s.returned| + 1 && s'.returned[..|s.returned|] == s.returned
            && s'.returned[|s.returned|].0 == t && (t in s.prod ==> s'.returned[|s.returned|].1 == s.prod[t])
    decreases Stage(s, s.pc[t]), TableLeft(s.pc[t]), if SlotsLeft(s, s.pc[t]) < 0 then 0 else SlotsLeft(s, s.pc[t])
  {
    StepKeepsInv(s, t);
    GoesNearer(s, t);
    FinishStep(s, t);
    hide Inv, Step, Finish, MayResize, Registered;
    if !s.pc[t].Done? {
      FinishReturns(Step(s, t), t);
    }
  }

  lemma FinishStep(s: State, t: Tid)
    requires Inv(s) && MayResize(s, t) && t in s.pc && !s.pc[t].Idle?
    ensures Inv(Step(s, t)) && t in Step(s, t).pc && MayResize(Step(s, t), t)
    ensures Finish(s, t) == Finish(Step(s, t), t)
    ensures Step(s, t).pc[t].Idle? ==> Finish(s, t) == Step(s, t)
  {
    StepKeepsInv(s, t);
    GoesNearer(s, t);
    hide Inv, Step;
  }

  /** A call by a thread returns in a bounded number of its own steps, with the thread's producer, unless another thread
      is in the middle of a resize; all others may be anywhere else. */
  lemma CallReturns(s: State, t: Tid)
    requires Inv(s) && MayResize(s, t) && t in s.pc && s.pc[t].Idle?
    ensures Inv(Step(s, t)) && t in Step(s, t).pc && MayResize(Step(s, t), t)
    ensures var s' := Finish(Step(s, t), t);
            && |s'.returned| == |s.returned| + 1 && s'.returned[|s.returned|].0 == t
            && (t in s.prod ==> s'.returned[|s.returned|].1 == s.prod[t])
  {
    StepKeepsInv(s, t);
    LockKept(s, t);
    Begins(s, t);
    FinishReturns(Step(s, t), t);
  }

  lemma Begins(s: State, t: Tid)
    requires Inv(s) && t in s.pc && s.pc[t].Idle?
    ensures Step(s, t) == Goto(s, t, LoadMain)
  {
  }
}
