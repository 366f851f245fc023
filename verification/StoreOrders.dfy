/**
 * Order identity after an append: it survives whatever follows exactly when the session's deletion is not pending.
 * The other way there is a continuation that gives the event's order away a second time: after a crash a scan reads
 * the event, the retried delete removes its transcript without looking at it again, a repair from the old scan writes
 * its entry and fails before the cache knows, the sequence file is lost, and the next inventory misses the order.
 */
module StoreOrders {
  import opened Wrappers
  import opened Sequences
  import opened StoreState
  import opened StoreJournal
  import opened StoreProtocol
  import opened StoreInvariant
  import opened StoreSteps
  import opened StoreSafety

  /** A careful run leads from `s` to `t`. */
  ghost predicate Leads(s: Store, t: Store) {
    exists states: seq<Store>, steps: seq<Step> :: Continues(s, states, steps) && states[|steps|] == t
  }

  lemma {:induction false} Stays(s: Store)
    ensures Leads(s, s)
  {
    var states, steps: seq<Step> := [s], [];
    assert Continues(s, states, steps) && states[|steps|] == s;
  }

  lemma {:induction false} Then(s: Store, t: Store, step: Step, u: Store)
    requires Leads(s, t) && Next(t, step, u) && AvoidsPendingDelete(t, step)
    ensures Leads(s, u)
  {
    hide Next, AvoidsPendingDelete;
    var states: seq<Store>, steps: seq<Step> :| Continues(s, states, steps) && states[|steps|] == t;
    var states', steps' := states + [u], steps + [step];
    forall i | 0 <= i < |steps'|
      ensures Next(states'[i], steps'[i], states'[i + 1]) && AvoidsPendingDelete(states'[i], steps'[i])
    {
      if i < |steps| { assert Next(states[i], steps[i], states[i + 1]) && AvoidsPendingDelete(states[i], steps[i]); }
    }
    assert Continues(s, states', steps') && states'[|steps'|] == u;
  }

  ghost predicate OneToOne(d: Disk) {
    forall id1, order1, id2, order2 :: Stored(d, id1, order1) && Stored(d, id2, order2) ==> (id1 == id2 <==> order1 == order2)
  }

  /** Order identity holds in whatever state a careful run reaches from `t`. */
  ghost predicate OrdersStay(t: Store) { forall u :: Leads(t, u) ==> OneToOne(u.disk) }

  lemma {:induction false} InvMeansOneToOne(s: Store, issued: Registry)
    requires Inv(s, issued)
    ensures OneToOne(s.disk)
  {
    hide Stored, Described, Bounded, Placement, Shaped, Settling;
    forall id1, order1, id2, order2 | Stored(s.disk, id1, order1) && Stored(s.disk, id2, order2)
      ensures id1 == id2 <==> order1 == order2
    {
      StoredIsIssued(s, issued, id1, order1);
      StoredIsIssued(s, issued, id2, order2);
    }
  }

  lemma {:induction false} InvMeansOrdersStay(t: Store, issued: Registry)
    requires Inv(t, issued)
    ensures OrdersStay(t)
  {
    hide Inv, OneToOne, Next, AvoidsPendingDelete;
    forall u | Leads(t, u) ensures OneToOne(u.disk) {
      var states: seq<Store>, steps: seq<Step> :| Continues(t, states, steps) && states[|steps|] == u;
      var now := InvAlongPath(states, steps, issued, |steps|);
      InvMeansOneToOne(u, now);
    }
  }

  // Scanning after a crash.

  function Opened(d: Disk): Disk { d.(app := LoadedJournal(d.app)) }

  function Walking(cached: seq<Entry>, scan: Scan): Memory { Memory(None, Some(cached), map[], map[0 := scan], None) }

  function Walked(d: Disk, visited: set<Key>): Disk {
    d.(logs := map k | k in d.logs :: if k in visited then LoadedLog(d.logs[k]) else d.logs[k])
  }

  lemma {:induction false} CrashAndBegin(t: Store, u: Store)
    requires Leads(t, u)
    ensures var d := Opened(u.disk); Leads(t, Store(d, Walking(u.disk.app.entries, Scan(Incarnations(d), {}, []))))
  {
    hide Leads, NextOfSession;
    var d, cached := u.disk, u.disk.app.entries;
    var u1, u2 := Store(d, NO_MEMORY), Store(Opened(d), NO_MEMORY.(cached := Some(cached)));
    assert Next(u, Crash(d.logs, d.app, d.users), u1);
    Then(t, u, Crash(d.logs, d.app, d.users), u1);
    assert Next(u1, ReadShared, u2);
    Then(t, u1, ReadShared, u2);
    var u3 := Store(Opened(d), Walking(cached, Scan(Incarnations(Opened(d)), {}, [])));
    assert Next(u2, ScanBegin(0), u3);
    Then(t, u2, ScanBegin(0), u3);
  }

  lemma {:induction false} WalkNone(d: Disk)
    ensures Walked(d, {}) == d
  {
    assert Walked(d, {}).logs == d.logs;
  }

  lemma {:induction false} WalkOne(d: Disk, visited: set<Key>, k: Key)
    requires k in d.logs && k !in visited
    ensures Walked(d, visited).logs[k := LoadedLog(Walked(d, visited).logs[k])] == Walked(d, visited + {k}).logs
  {}

  lemma {:induction false} CanRead(d: Disk, cached: seq<Entry>, visited: set<Key>, records: seq<StateRecord>, k: Key)
    requires k in d.logs && k !in visited && !d.logs[k].tail.Garbled?
    ensures Next(Store(Walked(d, visited), Walking(cached, Scan(Incarnations(d), visited, records))), ScanRead(0, k),
                 Store(Walked(d, visited + {k}), Walking(cached, Scan(Incarnations(d), visited + {k}, records + d.logs[k].records))))
  {
    hide NextOfSession;
    WalkOne(d, visited, k);
  }

  lemma {:induction false} ReadAll(t: Store, d: Disk, cached: seq<Entry>, visited: set<Key>) returns (records: seq<StateRecord>)
    requires Leads(t, Store(d, Walking(cached, Scan(Incarnations(d), {}, []))))
    requires visited <= d.logs.Keys && forall k :: k in d.logs ==> !d.logs[k].tail.Garbled?
    ensures Leads(t, Store(Walked(d, visited), Walking(cached, Scan(Incarnations(d), visited, records))))
    ensures forall x :: x in records ==> InLogs(d, x)
    ensures forall k, x :: k in visited && x in d.logs[k].records ==> x in records
    decreases |visited|
  {
    hide Leads, Next, Walked;
    if visited == {} {
      WalkNone(d);
      records := [];
    } else {
      var k :| k in visited;
      var rest := visited - {k};
      var before := ReadAll(t, d, cached, rest);
      records := before + d.logs[k].records;
      CanRead(d, cached, rest, before, k);
      assert rest + {k} == visited;
      var s1 := Store(Walked(d, rest), Walking(cached, Scan(Incarnations(d), rest, before)));
      var s2 := Store(Walked(d, visited), Walking(cached, Scan(Incarnations(d), visited, records)));
      Then(t, s1, ScanRead(0, k), s2);
      forall x | x in records ensures InLogs(d, x) {
        if x !in before { assert x in d.logs[k].records; }
      }
    }
  }

  // The retried delete.

  function Gone(d: Disk, k: Key): Disk {
    d.(logs := d.logs - {k}, creating := d.creating - {k}, deleting := d.deleting - {k})
  }

  lemma {:induction false} CanFinish(s: Store, k: Key)
    requires At(s, k, DeleteUnlogged)
    ensures var s1 := WithOp(s.(disk := s.disk.(creating := s.disk.creating - {k})), k, DeleteUncreated);
      && Next(s, DeleteCreateMarker(k), s1)
      && Next(s1, DeleteFinish(k), WithoutOp(s1.(disk := s1.disk.(deleting := s1.disk.deleting - {k})), k))
  {
    hide NextOfApplication;
  }

  lemma {:induction false} DeleteRetried(t: Store, d: Disk, m: Memory, k: Key)
    requires Leads(t, Store(d, m)) && m.ops == map[] && k in d.deleting && k in d.logs
    requires d.deleting[k] == d.logs[k].incarnation && !d.logs[k].tail.Garbled?
    ensures Leads(t, Store(Gone(d, k), m))
  {
    hide Leads, Next;
    var s0 := Store(d, m);
    var s1 := Resumed(s0, k);
    CanResume(s0, k);
    Then(t, s0, ResumeDelete(k), s1);
    var s2 := Unlogged(s1, k);
    CanDeleteLog(s1, k);
    Then(t, s1, DeleteLog(k), s2);
    CanFinish(s2, k);
    var s3 := WithOp(s2.(disk := s2.disk.(creating := s2.disk.creating - {k})), k, DeleteUncreated);
    Then(t, s2, DeleteCreateMarker(k), s3);
    var s4 := WithoutOp(s3.(disk := s3.disk.(deleting := s3.disk.deleting - {k})), k);
    Then(t, s3, DeleteFinish(k), s4);
    assert s1.disk.logs - {k} == d.logs - {k} && s3.memory.ops - {k} == m.ops;
    assert s4 == Store(Gone(d, k), m);
  }

  // The repair from the old scan.

  lemma {:induction false} Inserted(r: StateRecord, rs: seq<StateRecord>) returns (out: seq<StateRecord>)
    requires OrderedRecords(rs)
    ensures OrderedRecords(out) && multiset(out) == multiset(rs) + multiset{r}
  {
    if rs == [] || r.order <= rs[0].order {
      out := [r] + rs;
    } else {
      var rest := Inserted(r, rs[1..]);
      out := [rs[0]] + rest;
      assert rs == [rs[0]] + rs[1..];
      forall j | 0 <= j < |rest| ensures rs[0].order <= rest[j].order {
        assert rest[j] in multiset(rest);
        assert rest[j] == r || rest[j] in rs[1..];
      }
    }
  }

  lemma {:induction false} Sorted(rs: seq<StateRecord>) returns (out: seq<StateRecord>)
    ensures OrderedRecords(out) && multiset(out) == multiset(rs)
  {
    if rs == [] {
      out := [];
    } else {
      SplitLast(rs);
      var front := Sorted(rs[..|rs| - 1]);
      out := Inserted(rs[|rs| - 1], front);
    }
  }

  function Repairing(cached: seq<Entry>, user: string, records: seq<StateRecord>, left: seq<Entry>): Memory {
    Memory(None, Some(cached), map[], map[], Some(Repair(user, records, false, left, None)))
  }

  function WithApp(d: Disk, entries: seq<Entry>): Disk { d.(app := Journal(entries, Clean)) }

  lemma {:induction false} AppendRest(t: Store, d: Disk, cached: seq<Entry>, user: string, records: seq<StateRecord>, entries: seq<Entry>, left: seq<Entry>)
    requires Leads(t, Store(WithApp(d, entries), Repairing(cached, user, records, left)))
    ensures Leads(t, Store(WithApp(d, entries + left), Repairing(cached, user, records, [])))
    decreases |left|
  {
    hide Leads, NextOfSession;
    if left == [] {
      assert entries + left == entries;
    } else {
      var s1 := Store(WithApp(d, entries), Repairing(cached, user, records, left));
      var s2 := Store(WithApp(d, entries + [left[0]]), Repairing(cached, user, records, left[1..]));
      assert Next(s1, RepairAppend, s2);
      Then(t, s1, RepairAppend, s2);
      AppendRest(t, d, cached, user, records, entries + [left[0]], left[1..]);
      assert entries + [left[0]] + left[1..] == entries + left;
    }
  }

  function Resting(cached: seq<Entry>, inventory: Option<nat>): Memory { Memory(inventory, Some(cached), map[], map[], None) }

  function HalfRepaired(d: Disk, user: string, entries: seq<Entry>): Disk {
    WithApp(d, entries).(users := d.users[user := UserJournalOf(d, user)])
  }

  lemma {:induction false} RepairFromOldScan(t: Store, d: Disk, cached: seq<Entry>, scan: Scan, user: string) returns (entries: seq<Entry>)
    requires Leads(t, Store(d, Walking(cached, scan)))
    requires forall k :: k in scan.start ==> k in scan.visited
    requires d.app.tail.Clean? && Distinct(d.app.entries)
    requires forall records: seq<StateRecord> :: (forall x :: x in records <==> x in scan.records) ==>
      Additions(d.app.entries, EntriesFor(AppJournal, records)).Some?
    ensures Leads(t, Store(HalfRepaired(d, user, entries), Resting(cached, None)))
    ensures forall x :: x in scan.records ==> EntryFor(AppJournal, x) in entries
  {
    hide Leads, Additions, EntriesFor, Distinct, NextOfSession;
    var records := Sorted(scan.records);
    SameRecords(records, scan.records);
    var left := Additions(d.app.entries, EntriesFor(AppJournal, records)).value;
    var s1, s2 := Store(d, Walking(cached, scan)), Store(WithApp(d, d.app.entries), Repairing(cached, user, records, left));
    assert s1.memory.scans - {0} == map[];
    assert WithApp(d, d.app.entries) == Opened(d);
    assert Next(s1, RepairBegin(0, user, None, records), s2);
    Then(t, s1, RepairBegin(0, user, None, records), s2);
    AppendRest(t, d, cached, user, records, d.app.entries, left);
    entries := d.app.entries + left;
    AdditionsComplete(d.app.entries, EntriesFor(AppJournal, records));
    EntriesForMembers(AppJournal, records);
    var s3, s4 := Store(WithApp(d, entries), Repairing(cached, user, records, [])), Store(HalfRepaired(d, user, entries), Resting(cached, None));
    var fail := RepairFail(Clean, UserJournalOf(d, user).tail, Some(cached));
    assert Next(s3, fail, s4);
    Then(t, s3, fail, s4);
  }

  // The lost sequence file and the inventory that misses an order.

  lemma {:induction false} GreatestOf(orders: set<int>) returns (m: nat)
    requires forall o :: o in orders ==> 0 <= o
    ensures (forall o :: o in orders ==> o <= m) && (m == 0 || m in orders)
  {
    if o :| o in orders {
      m := GreatestOf(orders - {o});
      assert forall x :: x in orders ==> x == o || x in orders - {o};
      if m < o { m := o; }
    } else {
      m := 0;
    }
  }

  function OrdersIn(entries: seq<Entry>): set<int> { set e | e in entries :: e.order }

  function OrdersOf(records: seq<StateRecord>): set<int> { set r | r in records :: r.order }

  function CachedOrders(s: Store): set<int>
    requires s.memory.cached.Some?
  {
    OrdersIn(s.memory.cached.value)
  }

  function UserOrders(d: Disk): set<int> { set u, o | u in d.users && o in OrdersIn(d.users[u].entries) :: o }

  function LogOrders(d: Disk): set<int> { set k, o | k in d.logs && o in OrdersOf(d.logs[k].records) :: o }

  function MarkerOrders(d: Disk): set<int> { set k | k in d.creating :: d.creating[k].order as int }

  lemma {:induction false} OrdersCovered(s: Store, m: nat)
    requires s.memory.cached.Some?
    requires forall o :: o in CachedOrders(s) || o in UserOrders(s.disk) || o in LogOrders(s.disk) || o in MarkerOrders(s.disk) ==> o <= m
    requires m == 0 || m in CachedOrders(s) || m in UserOrders(s.disk) || m in LogOrders(s.disk) || m in MarkerOrders(s.disk)
    ensures Inventories(s, m)
  {
    forall e | e in s.memory.cached.value ensures e.order <= m { assert e.order in CachedOrders(s); }
    forall u, e | u in s.disk.users && e in s.disk.users[u].entries ensures e.order <= m {
      assert e.order in OrdersIn(s.disk.users[u].entries) && e.order in UserOrders(s.disk);
    }
    forall k, r | k in s.disk.logs && r in s.disk.logs[k].records ensures r.order <= m {
      assert r.order in OrdersOf(s.disk.logs[k].records) && r.order in LogOrders(s.disk);
    }
    forall k | k in s.disk.creating ensures s.disk.creating[k].order <= m { assert s.disk.creating[k].order in MarkerOrders(s.disk); }
  }

  lemma {:induction false} OrdersBounded(s: Store, o: int, bound: nat)
    requires s.memory.cached.Some?
    requires forall e :: e in s.memory.cached.value ==> e.order <= bound
    requires forall u, e :: InUsers(s.disk, u, e) ==> e.order <= bound
    requires forall r :: InLogs(s.disk, r) || InMarkers(s.disk, r) ==> r.order <= bound
    ensures o in CachedOrders(s) || o in UserOrders(s.disk) || o in LogOrders(s.disk) || o in MarkerOrders(s.disk) ==> 0 <= o <= bound
  {
    if o in UserOrders(s.disk) {
      var u, e :| u in s.disk.users && e in s.disk.users[u].entries && e.order == o;
      assert InUsers(s.disk, u, e);
    }
    if o in LogOrders(s.disk) {
      var k, r :| k in s.disk.logs && r in s.disk.logs[k].records && r.order == o;
      assert InLogs(s.disk, r);
    }
    if o in MarkerOrders(s.disk) {
      var k :| k in s.disk.creating && s.disk.creating[k].order == o;
      assert InMarkers(s.disk, s.disk.creating[k]);
    }
  }

  lemma {:induction false} CanBuild(s: Store, bound: nat) returns (m: nat)
    requires s.memory.cached.Some?
    requires forall e :: e in s.memory.cached.value ==> e.order <= bound
    requires forall u, e :: InUsers(s.disk, u, e) ==> e.order <= bound
    requires forall r :: InLogs(s.disk, r) || InMarkers(s.disk, r) ==> r.order <= bound
    ensures Inventories(s, m) && m <= bound
  {
    hide Inventories, CachedOrders, UserOrders, LogOrders, MarkerOrders, InUsers, InLogs, InMarkers;
    var orders := CachedOrders(s) + UserOrders(s.disk) + LogOrders(s.disk) + MarkerOrders(s.disk);
    forall o | o in orders ensures 0 <= o <= bound { OrdersBounded(s, o, bound); }
    m := GreatestOf(orders);
    OrdersCovered(s, m);
  }

  lemma {:induction false} CountUp(t: Store, d: Disk, cached: seq<Entry>, m: nat, n: nat)
    requires Leads(t, Store(d, Resting(cached, Some(m)))) && d.sequence.Missing? && m <= n
    ensures Leads(t, Store(d, Resting(cached, Some(n))))
  {
    hide Leads, NextOfSession;
    for i := m to n
      invariant Leads(t, Store(d, Resting(cached, Some(i))))
    {
      var s1, s2 := Store(d, Resting(cached, Some(i))), Store(d, Resting(cached, Some(i + 1)));
      assert Next(s1, FailReservation, s2);
      Then(t, s1, FailReservation, s2);
    }
  }

  function Recreated(k: Key, order: Order): StateRecord { CreateRecord(k, order, map[], map[]) }

  /** With the sequence file lost, a new session gets any order the inventory no longer covers. */
  lemma {:induction false} HandOutAgain(t: Store, d: Disk, cached: seq<Entry>, k: Key, order: Order) returns (u: Store)
    requires Leads(t, Store(d, Resting(cached, None))) && k !in d.logs && k !in d.creating && k !in d.deleting
    requires forall e :: e in cached ==> e.order < order
    requires forall u, e :: InUsers(d, u, e) ==> e.order < order
    requires forall r :: InLogs(d, r) || InMarkers(d, r) ==> r.order < order
    ensures Leads(t, u) && u.disk.app == d.app && InMarkers(u.disk, Recreated(k, order))
  {
    hide Leads, Inventories;
    var s1 := Store(d, Resting(cached, None));
    var lost := d.(sequence := Missing);
    var s2 := Store(lost, Resting(cached, None));
    assert Next(s1, LoseSequence(Missing), s2);
    Then(t, s1, LoseSequence(Missing), s2);
    assert InUsersAsBefore(d, lost);
    var m := CanBuild(s2, order - 1);
    assert Next(s2, BuildInventory(m), Store(lost, Resting(cached, Some(m))));
    Then(t, s2, BuildInventory(m), Store(lost, Resting(cached, Some(m))));
    CountUp(t, lost, cached, m, order - 1);
    u := CreateAt(t, lost, cached, k, order);
  }

  ghost predicate InUsersAsBefore(d: Disk, lost: Disk) {
    && (forall u, e :: InUsers(lost, u, e) ==> InUsers(d, u, e))
    && (forall r :: InLogs(lost, r) ==> InLogs(d, r))
    && (forall r :: InMarkers(lost, r) ==> InMarkers(d, r))
  }

  lemma {:induction false} CreateAt(t: Store, d: Disk, cached: seq<Entry>, k: Key, order: Order) returns (u: Store)
    requires Leads(t, Store(d, Resting(cached, Some(order - 1)))) && d.sequence.Missing?
    requires k !in d.logs && k !in d.creating && k !in d.deleting
    ensures Leads(t, u) && u.disk.app == d.app && InMarkers(u.disk, Recreated(k, order))
  {
    hide Leads, NextOfApplication;
    var s1, r := Store(d, Resting(cached, Some(order - 1))), Recreated(k, order);
    var s2 := WithOp(Reserve(s1), k, CreateReserved(r));
    assert Next(s1, CreateReserve(k, map[], map[]), s2);
    Then(t, s1, CreateReserve(k, map[], map[]), s2);
    u := WithOp(s2.(disk := s2.disk.(creating := d.creating[k := r])), k, CreateMarked(r));
    assert Next(s2, CreateMark(k), u);
    Then(t, s2, CreateMark(k), u);
    assert u.disk.creating[k] == r;
  }

  // Putting the continuation together.

  lemma {:induction false} AppendFrame(s: Store, step: Step, t: Store)
    requires Next(s, step, t) && step.AppendReserve?
    ensures t.disk.creating == s.disk.creating && t.disk.users == s.disk.users
  {}

  /** The state after the append, a crash, a scan, the retried delete and the repair that failed half way. */
  ghost predicate Remains(s: Store, k: Key, r: StateRecord, d: Disk) {
    && k !in d.logs && k !in d.creating && k !in d.deleting
    && EntryFor(AppJournal, r) in d.app.entries
    && (forall u, e :: InUsers(d, u, e) ==> InUsers(s.disk, u, e))
    && (forall x :: InLogs(d, x) ==> InLogs(s.disk, x))
    && (forall x :: InMarkers(d, x) ==> InMarkers(s.disk, x))
  }

  /** The transcripts after the append was committed. */
  function Grown(d: Disk, k: Key, r: StateRecord): Disk
    requires k in d.logs
  {
    d.(logs := d.logs[k := LoadedLog(d.logs[k]).(records := d.logs[k].records + [r])])
  }

  lemma {:induction false} CommittedDisk(s: Store, step: Step, t: Store)
    requires Next(s, step, t) && step.AppendReserve?
    ensures var k := step.k;
      && k in s.disk.logs && k in t.disk.logs && k in t.memory.ops && t.memory.ops[k].Appending?
      && Committed(t, k).disk == Grown(s.disk, k, t.memory.ops[k].record).(sequence := t.disk.sequence)
  {
    hide Next;
    AppendReserved(s, step, t);
    AppendFrame(s, step, t);
  }

  lemma {:induction false} RemainsAre(s: Store, d: Disk, k: Key, r: StateRecord, q: Sequence, visited: set<Key>, user: string, entries: seq<Entry>)
    requires k in s.disk.logs && d == Opened(Grown(s.disk, k, r).(sequence := q)) && EntryFor(AppJournal, r) in entries
    ensures Remains(s, k, r, HalfRepaired(Gone(Walked(d, visited), k), user, entries))
  {
    var e := HalfRepaired(Gone(Walked(d, visited), k), user, entries);
    forall x | InLogs(e, x) ensures InLogs(s.disk, x) {
      var j :| j in e.logs && x in e.logs[j].records;
      assert j in s.disk.logs && x in s.disk.logs[j].records;
    }
    forall x | InMarkers(e, x) ensures InMarkers(s.disk, x) {
      var j :| j in e.creating && e.creating[j] == x;
      assert j in s.disk.creating && s.disk.creating[j] == x;
    }
  }

  lemma {:induction false} CommittedIsIssued(t: Store, k: Key, now: Registry)
    requires Described(t, now) && k in t.memory.ops && t.memory.ops[k].Appending? && k in t.disk.logs
    ensures forall x :: InLogs(Committed(t, k).disk, x) ==> Issued(now, x)
  {
    forall x | InLogs(Committed(t, k).disk, x) ensures Issued(now, x) {
      var j :| j in Committed(t, k).disk.logs && x in Committed(t, k).disk.logs[j].records;
      if x == t.memory.ops[k].record {
        assert InOps(t.memory, x) by { assert Holds(t.memory.ops[k], x); }
      } else {
        assert j in t.disk.logs && x in t.disk.logs[j].records && InLogs(t.disk, x) && Published(t, x);
      }
    }
  }

  /** No scan of the grown transcripts contradicts the app journal. */
  lemma {:induction false} GrownAgrees(s: Store, step: Step, t: Store, issued: Registry, records: seq<StateRecord>)
    requires Inv(s, issued) && Next(s, step, t) && step.AppendReserve?
    requires step.k in t.memory.ops && t.memory.ops[step.k].Appending? && step.k in t.disk.logs
    requires forall x :: x in records ==> InLogs(Committed(t, step.k).disk, x)
    ensures Additions(s.disk.app.entries, EntriesFor(AppJournal, records)).Some?
  {
    hide Next, Shaped, Settling, Bounded, Placement, IsRegistry, InLogs, Additions, EntriesFor, Distinct, Published, InOps, InUsers;
    var now := KeepsDescribed(s, step, t, issued);
    AppendReserved(s, step, t);
    CommittedIsIssued(t, step.k, now);
    AppIsDistinct(s);
    ScanAgrees(s, now, AppJournal, s.disk.app.entries, records);
  }

  lemma {:induction false} AfterPendingAppend(s: Store, step: Step, t: Store, issued: Registry) returns (d: Disk)
    requires Inv(s, issued) && Next(s, step, t) && step.AppendReserve? && step.k in s.disk.deleting
    ensures step.k in t.memory.ops && t.memory.ops[step.k].Appending?
    ensures Leads(t, Store(d, Resting(s.disk.app.entries, None))) && Remains(s, step.k, t.memory.ops[step.k].record, d)
  {
    hide Next, Shaped, Settling, Bounded, Placement, IsRegistry, Described, InLogs, Additions, EntriesFor, Distinct, Published, InOps, InUsers, Leads, Remains, AvoidsPendingDelete;
    var k := step.k;
    InvShaped(s, issued);
    AppendReserved(s, step, t);
    CommittedDisk(s, step, t);
    var r, t1, cached := t.memory.ops[k].record, Committed(t, k), s.disk.app.entries;
    CanCommit(t, k);
    ThenCommit(t, k);
    var d1 := Opened(t1.disk);
    CrashAndBegin(t, t1);
    OpenedShape(s, k, r, t.disk.sequence);
    var records := ReadAll(t, d1, cached, d1.logs.Keys);
    var d2 := Walked(d1, d1.logs.Keys);
    var scan := Scan(Incarnations(d1), d1.logs.Keys, records);
    DeleteRetried(t, d2, Walking(cached, scan), k);
    var d3 := Gone(d2, k);
    forall sorted: seq<StateRecord> | forall x :: x in sorted <==> x in records
      ensures Additions(cached, EntriesFor(AppJournal, sorted)).Some?
    {
      OpenedLogs(t1.disk);
      GrownAgrees(s, step, t, issued, sorted);
    }
    var entries := RepairFromOldScan(t, d3, cached, scan, k.user);
    assert r in d1.logs[k].records;
    d := HalfRepaired(d3, k.user, entries);
    RemainsAre(s, d1, k, r, t.disk.sequence, d1.logs.Keys, k.user, entries);
  }

  lemma {:induction false} ThenCommit(t: Store, k: Key)
    requires k in t.memory.ops && t.memory.ops[k].Appending? && k in t.disk.logs && Next(t, AppendCommit(k), Committed(t, k))
    ensures Leads(t, Committed(t, k))
  {
    hide Next, Leads;
    Stays(t);
    Then(t, t, AppendCommit(k), Committed(t, k));
  }

  lemma {:induction false} OpenedLogs(d: Disk)
    ensures forall x :: InLogs(Opened(d), x) <==> InLogs(d, x)
  {}

  lemma {:induction false} OpenedShape(s: Store, k: Key, r: StateRecord, q: Sequence)
    requires Shaped(s) && k in s.disk.logs && k in s.disk.deleting
    ensures var d := Opened(Grown(s.disk, k, r).(sequence := q));
      && (forall j :: j in d.logs ==> !d.logs[j].tail.Garbled?)
      && d.deleting[k] == d.logs[k].incarnation && d.app.tail.Clean? && Distinct(d.app.entries) && d.app.entries == s.disk.app.entries
  {
    hide Distinct;
    forall j | j in s.disk.logs ensures !s.disk.logs[j].tail.Garbled? { assert LogShape(j, s.disk.logs[j]); }
  }

  lemma {:induction false} ReservedAbove(s: Store, step: Step, t: Store, issued: Registry)
    requires Inv(s, issued) && Next(s, step, t) && step.AppendReserve?
    ensures step.k in t.memory.ops && t.memory.ops[step.k].Appending? && t.memory.ops[step.k].record.id.EventId?
    ensures var n := t.memory.ops[step.k].record.order;
      && (forall r :: InLogs(s.disk, r) || InMarkers(s.disk, r) ==> r.order < n)
      && (forall e :: e in s.disk.app.entries ==> e.order < n)
      && (forall u, e :: InUsers(s.disk, u, e) ==> e.order < n)
  {
    hide Next, Shaped, Settling, Placement, IsRegistry, Described, InLogs, InMarkers, InUsers, InOps;
    AppendReserved(s, step, t);
    WhereverPublished(s);
  }

  /** An event reserved for a session whose deletion is pending can end up sharing its order with a new session. */
  lemma {:induction false} OrderGivenTwice(s: Store, step: Step, t: Store, issued: Registry) returns (u: Store)
    requires Inv(s, issued) && Next(s, step, t) && step.AppendReserve? && step.k in s.disk.deleting
    ensures step.k in t.memory.ops && t.memory.ops[step.k].Appending?
    ensures var r := t.memory.ops[step.k].record; var twin := Recreated(step.k, r.order);
      Leads(t, u) && Stored(u.disk, r.id, r.order) && Stored(u.disk, twin.id, r.order) && twin.id != r.id
  {
    hide Next, Inv, InLogs, InMarkers, InUsers, Leads;
    var d := AfterPendingAppend(s, step, t, issued);
    var k, r := step.k, t.memory.ops[step.k].record;
    ReservedAbove(s, step, t, issued);
    u := HandOutAgain(t, d, s.disk.app.entries, k, r.order);
    assert EntryFor(AppJournal, r) in u.disk.app.entries;
    assert InMarkers(u.disk, Recreated(k, r.order));
  }

  /** Orders stay one to one, whatever follows an append, exactly when no delete marker of its session is pending. */
  lemma {:induction false} AppendOrderIff(s: Store, step: Step, t: Store, issued: Registry)
    requires Inv(s, issued) && Next(s, step, t) && step.AppendReserve?
    ensures OrdersStay(t) <==> step.k !in s.disk.deleting
  {
    hide Inv, Next, Stored, Leads;
    if step.k in s.disk.deleting {
      var u := OrderGivenTwice(s, step, t, issued);
    } else {
      var now := InvStep(s, step, t, issued);
      InvMeansOrdersStay(t, now);
    }
  }
}
