/**
 * One application of the session store as a state machine: disk files, the in-memory state of one process,
 * and every atomic step of create, append, delete, scan, repair and crash.
 */
module StoreProtocol {
  import opened Numbers
  import opened Wrappers
  import opened StoreState
  import opened StoreJournal

  datatype Key = Key(user: string, session: string)

  /** The end of an append-only file. A torn end is cut off by the next load; appending to it would garble a line. */
  datatype Tail = Clean | Torn | Garbled

  datatype Log = Log(incarnation: Order, records: seq<StateRecord>, tail: Tail)

  datatype Journal = Journal(entries: seq<Entry>, tail: Tail)

  datatype Sequence = Missing | Unreadable | Reads(value: nat)

  datatype Disk = Disk(
    logs: map<Key, Log>,
    creating: map<Key, StateRecord>,
    deleting: map<Key, Order>,
    app: Journal,
    users: map<string, Journal>,
    sequence: Sequence)

  /** The operation that holds a session's operation lock. */
  datatype Op =
    | CreateReserved(record: StateRecord)
    | CreateMarked(record: StateRecord)
    | CreateCommitted(record: StateRecord)
    | Appending(record: StateRecord)
    | DeleteScanning(scan: nat)
    | DeleteRepaired
    | DeleteMarked
    | DeleteUnlogged
    | DeleteUncreated

  /** A walk over the transcripts: which incarnations existed when it began, which sessions it has come to, what it found. */
  datatype Scan = Scan(start: map<Key, Order>, visited: set<Key>, records: seq<StateRecord>)

  /** A repair holds the project lock. `left` are the entries it has still to append to the journal of its phase. */
  datatype Repair = Repair(user: string, records: seq<StateRecord>, appDone: bool, left: seq<Entry>, purpose: Option<Key>)

  datatype Memory = Memory(
    inventory: Option<nat>,
    cached: Option<seq<Entry>>,
    ops: map<Key, Op>,
    scans: map<nat, Scan>,
    repair: Option<Repair>)

  datatype Store = Store(disk: Disk, memory: Memory)

  const NO_MEMORY := Memory(None, None, map[], map[], None)
  const EMPTY_STORE := Store(Disk(map[], map[], map[], Journal([], Clean), map[], Missing), NO_MEMORY)

  function UserJournalOf(d: Disk, user: string): Journal {
    if user in d.users then d.users[user] else Journal([], Clean)
  }

  function SequenceValue(q: Sequence): nat { if q.Reads? then q.value else 0 }

  /** The order a reservation hands out. */
  function NextOrder(q: Sequence, maximum: nat): Order { Max(SequenceValue(q), maximum) + 1 }

  /** What loading does to the end of a file. */
  function Loaded(t: Tail): Tail { if t.Torn? then Clean else t }

  function LoadedLog(l: Log): Log { l.(tail := Loaded(l.tail)) }

  function LoadedJournal(j: Journal): Journal { j.(tail := Loaded(j.tail)) }

  function Extend(j: Journal, e: Entry): Journal {
    if j.tail.Clean? then j.(entries := j.entries + [e]) else j.(tail := Garbled)
  }

  function CreateRecord(k: Key, order: Order, app: State, userDelta: State): StateRecord {
    StateRecord(CreateId(k.user, k.session, order), order, k.user, app, userDelta)
  }

  function EventRecord(k: Key, incarnation: Order, event: string, order: Order, app: State, userDelta: State): StateRecord {
    StateRecord(EventId(k.user, k.session, incarnation, event), order, k.user, app, userDelta)
  }

  predicate InLog(l: Log, id: RecordId) { exists r :: r in l.records && r.id == id }

  /** `LoseSequence`: the sequence file goes missing, becomes unreadable, or turns up with any other value. */
  datatype Step =
    | ReadShared
    | BuildInventory(maximum: nat)
    | LoseSequence(sequence: Sequence)
    | FailReservation
    | CreateReserve(k: Key, app: State, userDelta: State)
    | CreateMark(k: Key)
    | CreateCommit(k: Key)
    | CreateRollback(k: Key)
    | CreateFinish(k: Key)
    | LeaveOp(k: Key)
    | ResumeCreate(k: Key)
    | FindCreated(k: Key)
    | AppendReserve(k: Key, event: string, app: State, userDelta: State)
    | AppendCommit(k: Key)
    | AppendFail(k: Key, tail: Tail)
    | ScanBegin(scan: nat)
    | ScanRead(scan: nat, k: Key)
    | RepairBegin(scan: nat, user: string, purpose: Option<Key>, records: seq<StateRecord>)
    | RepairAppend
    | RepairTurn
    | RepairEnd
    | RepairFail(appTail: Tail, userTail: Tail, cached: Option<seq<Entry>>)
    | DeleteBegin(k: Key, scan: nat)
    | DeleteMark(k: Key)
    | DeleteLog(k: Key)
    | DeleteCreateMarker(k: Key)
    | DeleteFinish(k: Key)
    | ResumeDelete(k: Key)
    | DeletePendingCreate(k: Key)
    | Crash(logs: map<Key, Log>, appJournal: Journal, userJournals: map<string, Journal>)

  predicate Idle(s: Store, k: Key) { k !in s.memory.ops }

  predicate At(s: Store, k: Key, op: Op) { k in s.memory.ops && s.memory.ops[k] == op }

  function WithOp(s: Store, k: Key, op: Op): Store { s.(memory := s.memory.(ops := s.memory.ops[k := op])) }

  function WithoutOp(s: Store, k: Key): Store { s.(memory := s.memory.(ops := s.memory.ops - {k})) }

  /** A reservation: the next order is taken, the inventory's maximum and the sequence file follow. */
  function Reserve(s: Store): Store
    requires s.memory.inventory.Some?
  {
    var n := NextOrder(s.disk.sequence, s.memory.inventory.value);
    Store(s.disk.(sequence := Reads(n)), s.memory.(inventory := Some(n)))
  }

  function Reserved(s: Store): Order
    requires s.memory.inventory.Some?
  {
    NextOrder(s.disk.sequence, s.memory.inventory.value)
  }

  function Incarnations(d: Disk): map<Key, Order> { map k | k in d.logs :: d.logs[k].incarnation }

  /** A walk may miss whatever was created after it began, also under a name that existed then. */
  predicate ScanComplete(s: Store, scan: Scan) {
    forall k :: k in scan.start && k in s.disk.logs && s.disk.logs[k].incarnation == scan.start[k] ==> k in scan.visited
  }

  predicate OwnedByDelete(s: Store, scan: nat) {
    exists k :: k in s.memory.ops && s.memory.ops[k] == DeleteScanning(scan)
  }

  predicate OrderedRecords(rs: seq<StateRecord>) {
    forall i, j :: 0 <= i < j < |rs| ==> rs[i].order <= rs[j].order
  }

  /** A journal may lose the line it was being given, nothing else. */
  predicate Tears(before: Tail, after: Tail) { after == before || (before.Clean? && after.Torn?) }

  predicate TornLogs(before: map<Key, Log>, after: map<Key, Log>) {
    && after.Keys == before.Keys
    && forall k :: k in before ==> Tears(before[k].tail, after[k].tail) && after[k] == before[k].(tail := after[k].tail)
  }

  predicate TornJournal(before: Journal, after: Journal) {
    after.entries == before.entries && Tears(before.tail, after.tail)
  }

  predicate TornUsers(before: map<string, Journal>, after: map<string, Journal>) {
    after.Keys == before.Keys && forall u :: u in before ==> TornJournal(before[u], after[u])
  }

  /** `maximum` is the greatest order the inventory scan finds. */
  ghost predicate Inventories(s: Store, maximum: nat) {
    && s.memory.cached.Some?
    && (forall e :: e in s.memory.cached.value ==> e.order <= maximum)
    && (forall u, e :: u in s.disk.users && e in s.disk.users[u].entries ==> e.order <= maximum)
    && (forall k, r :: k in s.disk.logs && r in s.disk.logs[k].records ==> r.order <= maximum)
    && (forall k :: k in s.disk.creating ==> s.disk.creating[k].order <= maximum)
    && (maximum == 0
        || (exists e :: e in s.memory.cached.value && e.order == maximum)
        || (exists u, e :: u in s.disk.users && e in s.disk.users[u].entries && e.order == maximum)
        || (exists k, r :: k in s.disk.logs && r in s.disk.logs[k].records && r.order == maximum)
        || (exists k :: k in s.disk.creating && s.disk.creating[k].order == maximum))
  }

  /** All of `base`, and otherwise only entries of the scan. */
  predicate Rebuilt(base: seq<Entry>, scanned: seq<Entry>, cached: seq<Entry>) {
    && (forall e :: e in base ==> e in cached)
    && (forall e :: e in cached ==> e in base || e in scanned)
  }

  /**
   * The cache after a repair that failed. A delete gives up and leaves it; other operations may rebuild it from
   * the journal or from the old cache, with the scan.
   */
  predicate FallbackCache(s: Store, r: Repair, cached: Option<seq<Entry>>) {
    || cached == s.memory.cached
    || (r.purpose.None? && cached.Some? && Rebuilt(s.disk.app.entries, EntriesFor(AppJournal, r.records), cached.value))
    || (r.purpose.None? && cached.Some? && s.memory.cached.Some? && Rebuilt(s.memory.cached.value, EntriesFor(AppJournal, r.records), cached.value))
  }

  /** Steps of the whole application; all others belong to the operation on one session. */
  predicate OfApplication(step: Step) {
    || step.ReadShared? || step.BuildInventory? || step.LoseSequence? || step.FailReservation? || step.ScanBegin? || step.ScanRead?
    || step.RepairBegin? || step.RepairAppend? || step.RepairTurn? || step.RepairEnd? || step.RepairFail? || step.Crash?
  }

  ghost predicate NextOfApplication(s: Store, step: Step, t: Store) {
    var d, m := s.disk, s.memory;
    match step
    case ReadShared =>
      && m.repair.None?
      && t == Store(d.(app := LoadedJournal(d.app)), m.(cached := Some(d.app.entries)))
    case BuildInventory(maximum) =>
      && m.repair.None? && m.inventory.None? && Inventories(s, maximum)
      && t == s.(memory := m.(inventory := Some(maximum)))
    case LoseSequence(sequence) => t == s.(disk := d.(sequence := sequence))
    case FailReservation =>
      && m.inventory.Some?
      && t == s.(memory := m.(inventory := Some(Reserved(s))))
    case ScanBegin(scan) =>
      && scan !in m.scans && !OwnedByDelete(s, scan)
      && t == s.(memory := m.(scans := m.scans[scan := Scan(Incarnations(d), {}, [])]))
    case ScanRead(scan, k) =>
      && scan in m.scans
      && var seen := m.scans[scan].(visited := m.scans[scan].visited + {k});
      if k in d.logs then
        && !d.logs[k].tail.Garbled?
        && t == Store(
          d.(logs := d.logs[k := LoadedLog(d.logs[k])]),
          m.(scans := m.scans[scan := seen.(records := seen.records + d.logs[k].records)]))
      else t == s.(memory := m.(scans := m.scans[scan := seen]))
    case RepairBegin(scan, user, purpose, records) =>
      && m.repair.None? && scan in m.scans && ScanComplete(s, m.scans[scan])
      && (if purpose.Some? then At(s, purpose.value, DeleteScanning(scan)) && user == purpose.value.user else !OwnedByDelete(s, scan))
      && OrderedRecords(records) && multiset(records) == multiset(m.scans[scan].records)
      && !d.app.tail.Garbled? && Additions(d.app.entries, EntriesFor(AppJournal, records)).Some?
      && t == Store(
        d.(app := LoadedJournal(d.app)),
        m.(scans := m.scans - {scan},
           repair := Some(Repair(user, records, false, Additions(d.app.entries, EntriesFor(AppJournal, records)).value, purpose))))
    case RepairAppend =>
      && m.repair.Some? && m.repair.value.left != []
      && var r := m.repair.value;
      var rest := m.(repair := Some(r.(left := r.left[1..])));
      if !r.appDone then t == Store(d.(app := Extend(d.app, r.left[0])), rest)
      else t == Store(d.(users := d.users[r.user := Extend(UserJournalOf(d, r.user), r.left[0])]), rest)
    case RepairTurn =>
      && m.repair.Some? && !m.repair.value.appDone && m.repair.value.left == []
      && var r := m.repair.value;
      var j := UserJournalOf(d, r.user);
      && !j.tail.Garbled? && Additions(j.entries, EntriesFor(UserJournal(r.user), r.records)).Some?
      && t == Store(
        d.(users := d.users[r.user := LoadedJournal(j)]),
        m.(repair := Some(r.(appDone := true, left := Additions(j.entries, EntriesFor(UserJournal(r.user), r.records)).value))))
    case RepairEnd =>
      && m.repair.Some? && m.repair.value.appDone && m.repair.value.left == []
      && var purpose := m.repair.value.purpose;
      var ops := if purpose.Some? then m.ops[purpose.value := DeleteRepaired] else m.ops;
      t == s.(memory := m.(repair := None, cached := Some(d.app.entries), ops := ops))
    case RepairFail(appTail, userTail, cached) =>
      && m.repair.Some?
      && var r := m.repair.value;
      && Tears(d.app.tail, appTail) && Tears(UserJournalOf(d, r.user).tail, userTail) && FallbackCache(s, r, cached)
      && t == Store(
        d.(app := d.app.(tail := appTail), users := d.users[r.user := UserJournalOf(d, r.user).(tail := userTail)]),
        m.(repair := None, cached := cached, ops := if r.purpose.Some? then m.ops - {r.purpose.value} else m.ops))
    case Crash(logs, app, users) =>
      && TornLogs(d.logs, logs) && TornJournal(d.app, app) && TornUsers(d.users, users)
      && t == Store(d.(logs := logs, app := app, users := users), NO_MEMORY)
    case _ => false
  }

  ghost predicate NextOfSession(s: Store, step: Step, t: Store) {
    var d, m := s.disk, s.memory;
    match step
    case CreateReserve(k, app, userDelta) =>
      && m.inventory.Some? && Idle(s, k) && k !in d.deleting && k !in d.creating && k !in d.logs
      && t == WithOp(Reserve(s), k, CreateReserved(CreateRecord(k, Reserved(s), app, userDelta)))
    case CreateMark(k) =>
      && !Idle(s, k) && m.ops[k].CreateReserved?
      && t == WithOp(s.(disk := d.(creating := d.creating[k := m.ops[k].record])), k, CreateMarked(m.ops[k].record))
    case CreateCommit(k) =>
      && !Idle(s, k) && m.ops[k].CreateMarked? && k !in d.logs
      && var r := m.ops[k].record;
      t == WithOp(s.(disk := d.(logs := d.logs[k := Log(r.order, [r], Clean)])), k, CreateCommitted(r))
    case CreateRollback(k) =>
      && !Idle(s, k) && m.ops[k].CreateMarked?
      && t == WithoutOp(s.(disk := d.(creating := d.creating - {k})), k)
    case CreateFinish(k) =>
      && !Idle(s, k) && m.ops[k].CreateCommitted?
      && t == WithoutOp(s.(disk := d.(creating := d.creating - {k})), k)
    case LeaveOp(k) =>
      && !Idle(s, k) && !m.ops[k].Appending? && (m.repair.Some? ==> m.repair.value.purpose != Some(k))
      && t == WithoutOp(s, k)
    case ResumeCreate(k) =>
      && m.inventory.Some? && Idle(s, k) && k !in d.deleting && k in d.creating
      && var n := Max(m.inventory.value, d.creating[k].order);
      var q := if d.sequence.Reads? && n <= d.sequence.value then d.sequence else Reads(n);
      t == WithOp(Store(d.(sequence := q), m.(inventory := Some(n))), k, CreateMarked(d.creating[k]))
    case FindCreated(k) =>
      && !Idle(s, k) && m.ops[k].CreateMarked? && k in d.logs && d.logs[k].records != [] && d.logs[k].records[0] == m.ops[k].record
      && t == WithOp(s.(disk := d.(logs := d.logs[k := LoadedLog(d.logs[k])])), k, CreateCommitted(m.ops[k].record))
    case AppendReserve(k, event, app, userDelta) =>
      && m.inventory.Some? && Idle(s, k) && k in d.logs && !d.logs[k].tail.Garbled?
      && !InLog(d.logs[k], EventId(k.user, k.session, d.logs[k].incarnation, event))
      && var r := EventRecord(k, d.logs[k].incarnation, event, Reserved(s), app, userDelta);
      t == WithOp(Reserve(s.(disk := d.(logs := d.logs[k := LoadedLog(d.logs[k])]))), k, Appending(r))
    case AppendCommit(k) =>
      && !Idle(s, k) && m.ops[k].Appending? && k in d.logs
      && var l := d.logs[k];
      var grown := if l.tail.Clean? then l.(records := l.records + [m.ops[k].record]) else l.(tail := Garbled);
      t == WithoutOp(s.(disk := d.(logs := d.logs[k := grown])), k)
    case AppendFail(k, tail) =>
      && !Idle(s, k) && m.ops[k].Appending? && k in d.logs && Tears(d.logs[k].tail, tail)
      && t == WithoutOp(s.(disk := d.(logs := d.logs[k := d.logs[k].(tail := tail)])), k)
    case DeleteBegin(k, scan) =>
      && Idle(s, k) && k in d.logs && k !in d.deleting && !d.logs[k].tail.Garbled? && scan !in m.scans && !OwnedByDelete(s, scan)
      && t == Store(
        d.(logs := d.logs[k := LoadedLog(d.logs[k])]),
        m.(ops := m.ops[k := DeleteScanning(scan)], scans := m.scans[scan := Scan(Incarnations(d), {}, [])]))
    case DeleteMark(k) =>
      && At(s, k, DeleteRepaired) && k in d.logs
      && t == WithOp(s.(disk := d.(deleting := d.deleting[k := d.logs[k].incarnation])), k, DeleteMarked)
    case DeleteLog(k) =>
      && At(s, k, DeleteMarked)
      && t == WithOp(s.(disk := d.(logs := d.logs - {k})), k, DeleteUnlogged)
    case DeleteCreateMarker(k) =>
      && At(s, k, DeleteUnlogged)
      && t == WithOp(s.(disk := d.(creating := d.creating - {k})), k, DeleteUncreated)
    case DeleteFinish(k) =>
      && At(s, k, DeleteUncreated)
      && t == WithoutOp(s.(disk := d.(deleting := d.deleting - {k})), k)
    case ResumeDelete(k) =>
      && Idle(s, k) && k in d.deleting
      && (if k !in d.logs then t == WithOp(s, k, DeleteUnlogged)
          else if d.logs[k].incarnation != d.deleting[k] then t == WithOp(s, k, DeleteUncreated)
          else !d.logs[k].tail.Garbled? && t == WithOp(s.(disk := d.(logs := d.logs[k := LoadedLog(d.logs[k])])), k, DeleteMarked))
    case DeletePendingCreate(k) =>
      && Idle(s, k) && k !in d.deleting && k !in d.logs && k in d.creating
      && t == WithOp(s.(disk := d.(deleting := d.deleting[k := d.creating[k].order])), k, DeleteUnlogged)
    case _ => false
  }

  ghost predicate Next(s: Store, step: Step, t: Store) {
    if OfApplication(step) then NextOfApplication(s, step, t) else NextOfSession(s, step, t)
  }

  /** The caller's side of the bargain: no event goes to a session whose deletion is pending. */
  predicate AvoidsPendingDelete(s: Store, step: Step) {
    step.AppendReserve? ==> step.k !in s.disk.deleting
  }
}
