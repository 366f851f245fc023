/**
 * A pending deletion is reachable, and one append to such a session lets two records end up with one order: an
 * explicit run to the pending deletion, continued as in StoreOrders.
 */
module StoreLostOrder {
  import opened Wrappers
  import opened StoreState
  import opened StoreJournal
  import opened StoreProtocol
  import opened StoreInvariant
  import opened StoreOrders
  import opened StoreSafety
  import opened StoreSteps

  lemma {:induction false} OneKey<K, V>(k: K, v: V, w: V)
    ensures map[k := v][k := w] == map[k := w]
  {}

  const A := Key("u", "a")
  const B := Key("u", "b")
  const HEADER_A := CreateRecord(A, 1, map[], map[])
  const HEADER_B := CreateRecord(B, 2, map[], map[])
  const EVENT_A := EventRecord(A, 1, "e", 3, map[], map[])
  const EVENT_B := EventRecord(B, 2, "f", 3, map[], map[])

  function AppEntry(r: StateRecord): Entry { EntryFor(AppJournal, r) }
  function UserEntry(r: StateRecord): Entry { EntryFor(UserJournal("u"), r) }

  function Made(logs: map<Key, Log>, n: nat): Store {
    Store(Disk(logs, map[], map[], Journal([], Clean), map[], if n == 0 then Missing else Reads(n)), Memory(Some(n), Some([]), map[], map[], None))
  }

  lemma {:induction false} OpenStore()
    ensures Leads(EMPTY_STORE, Made(map[], 0))
  {
    Stays(EMPTY_STORE);
    var s1 := EMPTY_STORE.(memory := EMPTY_STORE.memory.(cached := Some([])));
    assert Next(EMPTY_STORE, ReadShared, s1);
    Then(EMPTY_STORE, EMPTY_STORE, ReadShared, s1);
    assert Next(s1, BuildInventory(0), Made(map[], 0));
    Then(EMPTY_STORE, s1, BuildInventory(0), Made(map[], 0));
  }

  function Making(logs: map<Key, Log>, n: nat, k: Key, marked: map<Key, StateRecord>, op: Op): Store {
    Store(Disk(logs, marked, map[], Journal([], Clean), map[], Reads(n)), Memory(Some(n), Some([]), map[k := op], map[], None))
  }

  lemma {:induction false} MarkSession(logs: map<Key, Log>, n: nat, k: Key)
    requires k !in logs && Leads(EMPTY_STORE, Made(logs, n))
    ensures var r := CreateRecord(k, n + 1, map[], map[]); Leads(EMPTY_STORE, Making(logs, n + 1, k, map[k := r], CreateMarked(r)))
  {
    hide Leads, NextOfApplication;
    var s0, r := Made(logs, n), CreateRecord(k, n + 1, map[], map[]);
    var s1, s2 := Making(logs, n + 1, k, map[], CreateReserved(r)), Making(logs, n + 1, k, map[k := r], CreateMarked(r));
    assert Next(s0, CreateReserve(k, map[], map[]), s1);
    Then(EMPTY_STORE, s0, CreateReserve(k, map[], map[]), s1);
    OneKey(k, CreateReserved(r), CreateMarked(r));
    assert Next(s1, CreateMark(k), s2);
    Then(EMPTY_STORE, s1, CreateMark(k), s2);
  }

  lemma {:induction false} MakeSession(logs: map<Key, Log>, n: nat, k: Key)
    requires k !in logs && Leads(EMPTY_STORE, Made(logs, n))
    ensures Leads(EMPTY_STORE, Made(logs[k := Log(n + 1, [CreateRecord(k, n + 1, map[], map[])], Clean)], n + 1))
  {
    hide Leads, NextOfApplication;
    MarkSession(logs, n, k);
    var r := CreateRecord(k, n + 1, map[], map[]);
    var with := logs[k := Log(n + 1, [r], Clean)];
    var s2, s3 := Making(logs, n + 1, k, map[k := r], CreateMarked(r)), Making(with, n + 1, k, map[k := r], CreateCommitted(r));
    OneKey(k, CreateMarked(r), CreateCommitted(r));
    assert Next(s2, CreateCommit(k), s3);
    Then(EMPTY_STORE, s2, CreateCommit(k), s3);
    var s4 := Made(with, n + 1);
    assert s3.disk.creating - {k} == map[] && s3.memory.ops - {k} == map[];
    assert Next(s3, CreateFinish(k), s4);
    Then(EMPTY_STORE, s3, CreateFinish(k), s4);
  }

  const LOG_A := Log(1, [HEADER_A], Clean)
  const LOG_B := Log(2, [HEADER_B], Clean)
  const BOTH := map[A := LOG_A, B := LOG_B]

  lemma {:induction false} TwoSessions()
    ensures Leads(EMPTY_STORE, Made(BOTH, 2))
  {
    hide Leads;
    OpenStore();
    MakeSession(map[], 0, A);
    MakeSession(map[A := LOG_A], 1, B);
    assert map[][A := LOG_A] == map[A := LOG_A] && map[A := LOG_A][B := LOG_B] == BOTH;
  }

  // The deletion of session a, up to its marker.

  const HEADERS := [HEADER_A, HEADER_B]
  const APP_HEADERS := [AppEntry(HEADER_A), AppEntry(HEADER_B)]
  const USER_HEADERS := [UserEntry(HEADER_A), UserEntry(HEADER_B)]

  lemma {:induction false} EntriesOfTwo(kind: JournalKind, a: StateRecord, b: StateRecord)
    requires Wants(kind, a) && Wants(kind, b)
    ensures EntriesFor(kind, [a, b]) == [EntryFor(kind, a), EntryFor(kind, b)]
  {
    assert [a, b][..1] == [a] && [a][..0] == [];
    assert EntriesFor(kind, [a]) == [EntryFor(kind, a)];
  }

  lemma {:induction false} AllNew(x: Entry, y: Entry)
    requires !Claims(x, y)
    ensures Additions([], [x, y]) == Some([x, y])
  {
    assert [x, y][1..] == [y] && [y][1..] == [] && [] + [x] == [x] && [x] + [y] == [x, y] && [y] + [] == [y];
    assert Additions([x, y], []) == Some([]);
    assert Additions([x], [y]) == Some([y]);
  }

  function Files(logs: map<Key, Log>, deleting: map<Key, Order>, app: seq<Entry>, user: seq<Entry>, sequence: Sequence): Disk {
    Disk(logs, map[], deleting, Journal(app, Clean), if user == [] then map[] else map["u" := Journal(user, Clean)], sequence)
  }

  function Repairing(appDone: bool, left: seq<Entry>): Memory {
    Memory(Some(2), Some([]), map[A := DeleteScanning(0)], map[], Some(Repair("u", HEADERS, appDone, left, Some(A))))
  }

  function ScanningFor(visited: set<Key>, records: seq<StateRecord>): Memory {
    Memory(Some(2), Some([]), map[A := DeleteScanning(0)], map[0 := Scan(map[A := 1, B := 2], visited, records)], None)
  }

  lemma {:induction false} BeginDelete()
    ensures Leads(EMPTY_STORE, Store(Files(BOTH, map[], [], [], Reads(2)), ScanningFor({}, [])))
  {
    hide Leads;
    TwoSessions();
    var s0 := Made(BOTH, 2);
    var s1 := Store(Files(BOTH, map[], [], [], Reads(2)), ScanningFor({}, []));
    assert BOTH[A := LOG_A] == BOTH && Incarnations(s0.disk) == map[A := 1, B := 2];
    assert Next(s0, DeleteBegin(A, 0), s1);
    Then(EMPTY_STORE, s0, DeleteBegin(A, 0), s1);
  }

  lemma {:induction false} ScanForDelete()
    ensures Leads(EMPTY_STORE, Store(Files(BOTH, map[], [], [], Reads(2)), ScanningFor({A, B}, HEADERS)))
  {
    hide Leads;
    BeginDelete();
    var d := Files(BOTH, map[], [], [], Reads(2));
    var s1, s2, s3 := Store(d, ScanningFor({}, [])), Store(d, ScanningFor({A}, [HEADER_A])), Store(d, ScanningFor({A, B}, HEADERS));
    assert BOTH[A := LOG_A] == BOTH && BOTH[B := LOG_B] == BOTH;
    assert {} + {A} == {A} && [] + [HEADER_A] == [HEADER_A];
    OneKey(0, Scan(map[A := 1, B := 2], {}, []), Scan(map[A := 1, B := 2], {A}, [HEADER_A]));
    assert Next(s1, ScanRead(0, A), s2);
    Then(EMPTY_STORE, s1, ScanRead(0, A), s2);
    assert {A} + {B} == {A, B} && [HEADER_A] + [HEADER_B] == HEADERS;
    OneKey(0, Scan(map[A := 1, B := 2], {A}, [HEADER_A]), Scan(map[A := 1, B := 2], {A, B}, HEADERS));
    assert Next(s2, ScanRead(0, B), s3);
    Then(EMPTY_STORE, s2, ScanRead(0, B), s3);
  }

  lemma {:induction false} BeginRepair()
    ensures Leads(EMPTY_STORE, Store(Files(BOTH, map[], [], [], Reads(2)), Repairing(false, APP_HEADERS)))
  {
    hide Leads;
    ScanForDelete();
    var d := Files(BOTH, map[], [], [], Reads(2));
    var s3, s4 := Store(d, ScanningFor({A, B}, HEADERS)), Store(d, Repairing(false, APP_HEADERS));
    EntriesOfTwo(AppJournal, HEADER_A, HEADER_B);
    AllNew(AppEntry(HEADER_A), AppEntry(HEADER_B));
    assert s3.memory.scans - {0} == map[];
    hide Additions, EntriesFor;
    assert Next(s3, RepairBegin(0, "u", Some(A), HEADERS), s4);
    Then(EMPTY_STORE, s3, RepairBegin(0, "u", Some(A), HEADERS), s4);
  }

  lemma {:induction false} RepairForDelete()
    ensures Leads(EMPTY_STORE, Store(Files(BOTH, map[], APP_HEADERS, USER_HEADERS, Reads(2)), Repairing(true, [])))
  {
    hide Leads;
    BeginRepair();
    var s0 := Store(Files(BOTH, map[], [], [], Reads(2)), Repairing(false, APP_HEADERS));
    var s1 := Store(Files(BOTH, map[], APP_HEADERS[..1], [], Reads(2)), Repairing(false, APP_HEADERS[1..]));
    assert [] + [APP_HEADERS[0]] == APP_HEADERS[..1];
    assert Next(s0, RepairAppend, s1);
    Then(EMPTY_STORE, s0, RepairAppend, s1);
    var s2 := Store(Files(BOTH, map[], APP_HEADERS, [], Reads(2)), Repairing(false, []));
    assert APP_HEADERS[..1] + [APP_HEADERS[1]] == APP_HEADERS && APP_HEADERS[1..][1..] == [] && APP_HEADERS[1..][0] == APP_HEADERS[1];
    assert Next(s1, RepairAppend, s2);
    Then(EMPTY_STORE, s1, RepairAppend, s2);
    var s3 := Store(s2.disk.(users := map["u" := Journal([], Clean)]), Repairing(true, USER_HEADERS));
    EntriesOfTwo(UserJournal("u"), HEADER_A, HEADER_B);
    AllNew(UserEntry(HEADER_A), UserEntry(HEADER_B));
    hide Additions, EntriesFor;
    assert Next(s2, RepairTurn, s3);
    Then(EMPTY_STORE, s2, RepairTurn, s3);
    var s4 := Store(Files(BOTH, map[], APP_HEADERS, USER_HEADERS[..1], Reads(2)), Repairing(true, USER_HEADERS[1..]));
    assert [] + [USER_HEADERS[0]] == USER_HEADERS[..1];
    assert s3.disk.users["u" := Journal(USER_HEADERS[..1], Clean)] == s4.disk.users;
    assert Next(s3, RepairAppend, s4);
    Then(EMPTY_STORE, s3, RepairAppend, s4);
    var s5 := Store(Files(BOTH, map[], APP_HEADERS, USER_HEADERS, Reads(2)), Repairing(true, []));
    assert USER_HEADERS[..1] + [USER_HEADERS[1]] == USER_HEADERS && USER_HEADERS[1..][1..] == [] && USER_HEADERS[1..][0] == USER_HEADERS[1];
    assert s4.disk.users["u" := Journal(USER_HEADERS, Clean)] == s5.disk.users;
    assert Next(s4, RepairAppend, s5);
    Then(EMPTY_STORE, s4, RepairAppend, s5);
  }

  /** Session a's delete marker is written, and the delete stops there. */
  const PENDING := Store(Files(BOTH, map[A := 1], APP_HEADERS, USER_HEADERS, Reads(2)), Memory(Some(2), Some(APP_HEADERS), map[], map[], None))

  lemma {:induction false} DeletePending()
    ensures Leads(EMPTY_STORE, PENDING)
  {
    hide Leads;
    RepairForDelete();
    var d := Files(BOTH, map[], APP_HEADERS, USER_HEADERS, Reads(2));
    var s0 := Store(d, Repairing(true, []));
    var s1 := Store(d, Memory(Some(2), Some(APP_HEADERS), map[A := DeleteRepaired], map[], None));
    assert s0.memory.ops[A := DeleteRepaired] == s1.memory.ops;
    assert Next(s0, RepairEnd, s1);
    Then(EMPTY_STORE, s0, RepairEnd, s1);
    var s2 := Store(PENDING.disk, PENDING.memory.(ops := map[A := DeleteMarked]));
    assert s1.memory.ops[A := DeleteMarked] == s2.memory.ops;
    assert Next(s1, DeleteMark(A), s2);
    Then(EMPTY_STORE, s1, DeleteMark(A), s2);
    assert s2.memory.ops - {A} == map[];
    assert Next(s2, LeaveOp(A), PENDING);
    Then(EMPTY_STORE, s2, LeaveOp(A), PENDING);
  }

  // The forbidden append.

  lemma {:induction false} PendingIsRegular() returns (issued: Registry)
    ensures Inv(PENDING, issued)
  {
    hide Inv, Next;
    DeletePending();
    var states: seq<Store>, steps: seq<Step> :| Continues(EMPTY_STORE, states, steps) && states[|steps|] == PENDING;
    InvInitially();
    issued := InvAlongPath(states, steps, map[], |steps|);
  }

  /**
   * One order, two records: a careful run reaches a pending deletion, one append goes to that session, and a careful
   * run from there ends with the event's order on a second record.
   */
  lemma {:induction false} OrderReused() returns (t: Store, u: Store)
    ensures Leads(EMPTY_STORE, PENDING) && Next(PENDING, AppendReserve(A, "e", map[], map[]), t) && Leads(t, u)
    ensures Stored(u.disk, EVENT_A.id, 3) && Stored(u.disk, CreateRecord(A, 3, map[], map[]).id, 3)
    ensures EVENT_A.id != CreateRecord(A, 3, map[], map[]).id
  {
    hide Leads, Inv, Stored;
    DeletePending();
    var issued := PendingIsRegular();
    t := Store(Files(BOTH, map[A := 1], APP_HEADERS, USER_HEADERS, Reads(3)), Memory(Some(3), Some(APP_HEADERS), map[A := Appending(EVENT_A)], map[], None));
    assert BOTH[A := LOG_A] == BOTH;
    assert Next(PENDING, AppendReserve(A, "e", map[], map[]), t);
    hide Next;
    u := OrderGivenTwice(PENDING, AppendReserve(A, "e", map[], map[]), t, issued);
  }
}
