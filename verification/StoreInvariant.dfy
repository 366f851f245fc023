/** What holds in every reachable state of the session store. */
module StoreInvariant {
  import opened Wrappers
  import opened StoreState
  import opened StoreJournal
  import opened StoreProtocol

  // Where a record can be: published (readable by others) or only reserved by a running operation.

  ghost predicate InLogs(d: Disk, r: StateRecord) { exists k :: k in d.logs && r in d.logs[k].records }

  ghost predicate InMarkers(d: Disk, r: StateRecord) { exists k :: k in d.creating && d.creating[k] == r }

  ghost predicate InScans(m: Memory, r: StateRecord) { exists i :: i in m.scans && r in m.scans[i].records }

  predicate InRepair(m: Memory, r: StateRecord) { m.repair.Some? && r in m.repair.value.records }

  predicate Holds(op: Op, r: StateRecord) {
    (op.CreateReserved? || op.CreateMarked? || op.CreateCommitted? || op.Appending?) && op.record == r
  }

  ghost predicate InOps(m: Memory, r: StateRecord) { exists k :: k in m.ops && Holds(m.ops[k], r) }

  ghost predicate Published(s: Store, r: StateRecord) {
    InLogs(s.disk, r) || InMarkers(s.disk, r) || InScans(s.memory, r) || InRepair(s.memory, r)
  }

  predicate InUsers(d: Disk, u: string, e: Entry) { u in d.users && e in d.users[u].entries }

  /** The record a step reserves. */
  predicate Reserves(s: Store, step: Step, r: StateRecord) {
    && s.memory.inventory.Some?
    && match step
       case CreateReserve(k, app, userDelta) => r == CreateRecord(k, Reserved(s), app, userDelta)
       case AppendReserve(k, event, app, userDelta) =>
         k in s.disk.logs && r == EventRecord(k, s.disk.logs[k].incarnation, event, Reserved(s), app, userDelta)
       case _ => false
  }

  /** The reserved record a step puts on disk. */
  predicate Publishes(s: Store, step: Step, r: StateRecord) {
    && (step.CreateMark? || step.CreateCommit? || step.AppendCommit?)
    && step.k in s.memory.ops && Holds(s.memory.ops[step.k], r)
  }

  /** The entry a step appends to a journal. */
  predicate Journals(s: Store, e: Entry) {
    s.memory.repair.Some? && s.memory.repair.value.left != [] && e == s.memory.repair.value.left[0]
  }

  lemma {:induction false} LogsFrom(s: Store, step: Step, t: Store)
    requires Next(s, step, t)
    ensures forall r :: InLogs(t.disk, r) ==> InLogs(s.disk, r) || Publishes(s, step, r)
  {
    hide Additions, EntriesFor, Inventories, FallbackCache, ScanComplete, OwnedByDelete, OrderedRecords, Extend, TornJournal, TornUsers, InLog;
    if OfApplication(step) {
      hide NextOfSession;
    } else {
      hide NextOfApplication;
    }
  }

  lemma {:induction false} MarkersFrom(s: Store, step: Step, t: Store)
    requires Next(s, step, t)
    ensures forall r :: InMarkers(t.disk, r) ==> InMarkers(s.disk, r) || Publishes(s, step, r)
  {
    hide Additions, EntriesFor, Inventories, FallbackCache, ScanComplete, OwnedByDelete, OrderedRecords, Extend, TornJournal, TornUsers, TornLogs, InLog;
    if OfApplication(step) {
      hide NextOfSession;
    } else {
      hide NextOfApplication;
    }
  }

  lemma {:induction false} ScansFrom(s: Store, step: Step, t: Store)
    requires Next(s, step, t)
    ensures forall r :: InScans(t.memory, r) ==> InScans(s.memory, r) || InLogs(s.disk, r)
  {
    hide Additions, EntriesFor, Inventories, FallbackCache, ScanComplete, OwnedByDelete, OrderedRecords, Extend, TornJournal, TornUsers, TornLogs, InLog;
    if OfApplication(step) {
      hide NextOfSession;
    } else {
      hide NextOfApplication;
    }
  }

  lemma {:induction false} SameRecords(a: seq<StateRecord>, b: seq<StateRecord>)
    requires multiset(a) == multiset(b)
    ensures forall r :: r in a <==> r in b
  {
    forall r ensures r in a <==> r in b { assert r in a <==> r in multiset(a); assert r in b <==> r in multiset(b); }
  }

  lemma {:induction false} RepairFrom(s: Store, step: Step, t: Store)
    requires Next(s, step, t)
    ensures forall r :: InRepair(t.memory, r) ==> InRepair(s.memory, r) || InScans(s.memory, r)
  {
    if step.RepairBegin? { SameRecords(step.records, s.memory.scans[step.scan].records); }
  }

  lemma {:induction false} OpsFrom(s: Store, step: Step, t: Store)
    requires Next(s, step, t)
    ensures forall r :: InOps(t.memory, r) ==>
      InOps(s.memory, r) || (InMarkers(s.disk, r) && s.memory.inventory.Some?) || Reserves(s, step, r)
  {
    hide Additions, EntriesFor, Inventories, FallbackCache, ScanComplete, OwnedByDelete, OrderedRecords, Extend, TornJournal, TornUsers, TornLogs, InLog;
    if OfApplication(step) {
      hide NextOfSession;
    } else {
      hide NextOfApplication;
    }
  }

  lemma {:induction false} EntriesFrom(s: Store, step: Step, t: Store)
    requires Next(s, step, t)
    ensures forall e :: e in t.disk.app.entries ==>
      e in s.disk.app.entries || (Journals(s, e) && !s.memory.repair.value.appDone)
    ensures forall u, e :: InUsers(t.disk, u, e) ==>
      InUsers(s.disk, u, e) || (Journals(s, e) && s.memory.repair.value.appDone && u == s.memory.repair.value.user)
  {
    hide Additions, EntriesFor, Inventories, FallbackCache, ScanComplete, OwnedByDelete, OrderedRecords, TornLogs, InLog;
    if OfApplication(step) {
      hide NextOfSession;
    } else {
      hide NextOfApplication;
    }
  }

  // The registry: which record every order stands for. It is a witness carried along a run, not part of the store.

  type Registry = map<Order, StateRecord>

  predicate WellFormed(r: StateRecord) {
    && r.user == r.id.user
    && match r.id
       case CreateId(_, _, incarnation) => incarnation == r.order
       case EventId(_, _, incarnation, _) => incarnation < r.order
  }

  ghost predicate IsRegistry(issued: Registry) {
    && (forall o :: o in issued ==> issued[o].order == o && WellFormed(issued[o]))
    && (forall o, p :: o in issued && p in issued && issued[o].id == issued[p].id ==> o == p)
  }

  predicate Issued(issued: Registry, r: StateRecord) { r.order in issued && issued[r.order] == r }

  predicate IssuedEntry(issued: Registry, kind: JournalKind, e: Entry) {
    e.order in issued && Wants(kind, issued[e.order]) && e == EntryFor(kind, issued[e.order])
  }

  function PhaseKind(r: Repair): JournalKind { if r.appDone then UserJournal(r.user) else AppJournal }

  /** What a repair still has to append are entries of its scan. */
  ghost predicate LeftFromScan(r: Repair) {
    forall e :: e in r.left ==> exists x :: x in r.records && Wants(PhaseKind(r), x) && e == EntryFor(PhaseKind(r), x)
  }

  /** Every copy of a record, whole or as a journal entry, is the record the registry names. */
  ghost predicate Described(s: Store, issued: Registry) {
    && (forall r :: Published(s, r) ==> Issued(issued, r))
    && (forall r :: InOps(s.memory, r) ==> Issued(issued, r))
    && (forall e :: e in s.disk.app.entries ==> IssuedEntry(issued, AppJournal, e))
    && (forall u, e :: InUsers(s.disk, u, e) ==> IssuedEntry(issued, UserJournal(u), e))
    && (s.memory.repair.Some? ==> LeftFromScan(s.memory.repair.value))
  }

  /** Every copy's order is at most the inventory's maximum, once there is an inventory. */
  ghost predicate Bounded(s: Store) {
    && (forall r :: InOps(s.memory, r) ==> s.memory.inventory.Some?)
    && (s.memory.inventory.Some? ==>
        var m := s.memory.inventory.value;
        && (forall r :: Published(s, r) ==> r.order <= m)
        && (forall r :: InOps(s.memory, r) ==> r.order <= m)
        && (forall e :: e in s.disk.app.entries ==> e.order <= m)
        && (forall u, e :: InUsers(s.disk, u, e) ==> e.order <= m))
  }

  function KeyOf(id: RecordId): Key { Key(id.user, id.session) }

  /** A published copy of a live incarnation is in its transcript; one of a pending creation is the creation itself. */
  predicate Placed(s: Store, id: RecordId) {
    var k := KeyOf(id);
    && (k in s.disk.logs && s.disk.logs[k].incarnation == id.incarnation ==> InLog(s.disk.logs[k], id))
    && (k in s.disk.creating && k !in s.disk.logs && k !in s.disk.deleting && s.disk.creating[k].order == id.incarnation ==>
        id == s.disk.creating[k].id)
    && (k in s.memory.ops && s.memory.ops[k].CreateReserved? ==> s.memory.ops[k].record.order != id.incarnation)
  }

  ghost predicate Placement(s: Store) {
    && (forall r :: Published(s, r) ==> Placed(s, r.id))
    && (forall e :: e in s.disk.app.entries ==> Placed(s, e.id))
    && (forall u, e :: InUsers(s.disk, u, e) ==> Placed(s, e.id))
  }

  predicate DistinctIds(rs: seq<StateRecord>) {
    forall i, j :: 0 <= i < j < |rs| ==> rs[i].id != rs[j].id
  }

  predicate LogShape(k: Key, l: Log) {
    && l.records != [] && !l.tail.Garbled?
    && l.records[0].id == CreateId(k.user, k.session, l.incarnation) && l.records[0].order == l.incarnation
    && (forall r :: r in l.records ==> KeyOf(r.id) == k && r.id.incarnation == l.incarnation)
    && DistinctIds(l.records)
  }

  predicate IsCreation(k: Key, r: StateRecord) { r.id == CreateId(k.user, k.session, r.order) }

  predicate OpShape(s: Store, k: Key, op: Op) {
    var d := s.disk;
    match op
    case CreateReserved(r) => IsCreation(k, r) && k !in d.logs && k !in d.creating && k !in d.deleting
    case CreateMarked(r) => k in d.creating && d.creating[k] == r && k !in d.deleting
    case CreateCommitted(r) => IsCreation(k, r) && k in d.logs && k !in d.deleting
    case Appending(r) =>
      && k in d.logs && d.logs[k].tail.Clean? && k !in d.deleting
      && r.id.EventId? && KeyOf(r.id) == k && r.id.incarnation == d.logs[k].incarnation && !InLog(d.logs[k], r.id)
    case DeleteScanning(i) =>
      && k in d.logs && k !in d.deleting
      && (i in s.memory.scans ==>
          && k in s.memory.scans[i].start && s.memory.scans[i].start[k] == d.logs[k].incarnation
          && (k in s.memory.scans[i].visited ==> forall r :: r in d.logs[k].records ==> r in s.memory.scans[i].records))
    case DeleteRepaired => k in d.logs && k !in d.deleting
    case DeleteMarked => k in d.deleting && (k in d.logs ==> d.logs[k].incarnation == d.deleting[k])
    case DeleteUnlogged => k in d.deleting && k !in d.logs
    case DeleteUncreated => k in d.deleting && (k in d.logs || k !in d.creating)
  }

  function PhaseJournal(d: Disk, r: Repair): Journal { if r.appDone then UserJournalOf(d, r.user) else d.app }

  predicate RepairShape(s: Store, r: Repair) {
    && PhaseJournal(s.disk, r).tail.Clean? && Distinct(PhaseJournal(s.disk, r).entries + r.left)
    && (r.purpose.Some? ==>
        var k := r.purpose.value;
        && k in s.memory.ops && s.memory.ops[k].DeleteScanning? && s.memory.ops[k].scan !in s.memory.scans
        && k in s.disk.logs && r.user == k.user
        && forall x :: x in s.disk.logs[k].records ==> x in r.records)
  }

  ghost predicate Shaped(s: Store) {
    var d := s.disk;
    && (forall k :: k in d.logs ==> LogShape(k, d.logs[k]))
    && (forall k :: k in d.creating ==> IsCreation(k, d.creating[k]))
    && (forall k :: k in d.creating && k in d.logs ==> d.creating[k] == d.logs[k].records[0])
    && (forall k :: k in d.deleting && k in d.logs ==> d.deleting[k] == d.logs[k].incarnation)
    && (forall k :: k in s.memory.ops ==> OpShape(s, k, s.memory.ops[k]))
    && !d.app.tail.Garbled? && Distinct(d.app.entries)
    && (forall u :: u in d.users ==> !d.users[u].tail.Garbled? && Distinct(d.users[u].entries))
    && (s.memory.repair.Some? ==> RepairShape(s, s.memory.repair.value))
  }

  predicate Remembered(m: Memory, e: Entry) { m.cached.None? || e in m.cached.value }

  /** In the app journal, and the cache knows it. */
  predicate Settled(s: Store, e: Entry) { e in s.disk.app.entries && Remembered(s.memory, e) }

  ghost predicate LiveEntry(d: Disk, e: Entry) { exists r :: InLogs(d, r) && e == EntryFor(AppJournal, r) }

  predicate SettledRecord(s: Store, user: string, r: StateRecord) {
    && Settled(s, EntryFor(AppJournal, r))
    && EntryFor(UserJournal(user), r) in UserJournalOf(s.disk, user).entries
  }

  predicate Doomed(s: Store, k: Key) {
    && k in s.disk.logs
    && (At(s, k, DeleteRepaired) || (k in s.disk.deleting && s.disk.deleting[k] == s.disk.logs[k].incarnation))
  }

  /** How far a repair has got. */
  predicate Progress(s: Store, r: Repair) {
    && (forall x :: x in r.records ==>
        EntryFor(AppJournal, x) in s.disk.app.entries || (!r.appDone && EntryFor(AppJournal, x) in r.left))
    && (r.appDone ==> forall x :: x in r.records && Wants(UserJournal(r.user), x) ==>
        EntryFor(UserJournal(r.user), x) in UserJournalOf(s.disk, r.user).entries || EntryFor(UserJournal(r.user), x) in r.left)
  }

  ghost predicate Backed(s: Store, r: StateRecord) {
    InLogs(s.disk, r) || Settled(s, EntryFor(AppJournal, r))
  }

  ghost predicate Settling(s: Store) {
    && (forall r :: InScans(s.memory, r) || InRepair(s.memory, r) ==> Backed(s, r))
    && (forall e :: e in s.disk.app.entries ==> Remembered(s.memory, e) || LiveEntry(s.disk, e))
    && (forall k :: Doomed(s, k) ==> forall r :: r in s.disk.logs[k].records ==> SettledRecord(s, k.user, r))
    && (s.memory.repair.Some? ==> Progress(s, s.memory.repair.value))
  }

  ghost predicate Inv(s: Store, issued: Registry) {
    IsRegistry(issued) && Described(s, issued) && Bounded(s) && Placement(s) && Shaped(s) && Settling(s)
  }

  lemma {:induction false} InvInitially()
    ensures Inv(EMPTY_STORE, map[])
  {}

  // Bounded.

  lemma {:induction false} PublishedFrom(s: Store, step: Step, t: Store)
    requires Next(s, step, t)
    ensures forall r :: Published(t, r) ==> Published(s, r) || Publishes(s, step, r)
    ensures forall r :: Publishes(s, step, r) ==> InOps(s.memory, r)
  {
    LogsFrom(s, step, t);
    MarkersFrom(s, step, t);
    ScansFrom(s, step, t);
    RepairFrom(s, step, t);
  }

  /** The inventory only grows, except that a crash forgets it. */
  lemma {:induction false} InventoryGrows(s: Store, step: Step, t: Store)
    requires Next(s, step, t)
    ensures t.memory.inventory.Some? && s.memory.inventory.Some? ==> s.memory.inventory.value <= t.memory.inventory.value
    ensures t.memory.inventory.Some? && s.memory.inventory.None? ==> step.BuildInventory? && s.memory.repair.None? && Inventories(s, t.memory.inventory.value)
    ensures t.memory.inventory.None? ==> s.memory.inventory.None? || (step.Crash? && t.memory == NO_MEMORY)
    ensures forall r :: Reserves(s, step, r) ==>
      && s.memory.inventory.Some? && t.memory.inventory == Some(r.order) && s.memory.inventory.value < r.order
  {
    hide Additions, EntriesFor, Inventories, FallbackCache, ScanComplete, OwnedByDelete, OrderedRecords, Extend, TornJournal, TornUsers, TornLogs, InLog;
    if OfApplication(step) {
      hide NextOfSession;
    } else {
      hide NextOfApplication;
    }
  }

  lemma {:induction false} WhereverPublished(s: Store)
    ensures forall r :: InLogs(s.disk, r) ==> Published(s, r)
    ensures forall r :: InMarkers(s.disk, r) ==> Published(s, r)
    ensures forall r :: InScans(s.memory, r) ==> Published(s, r)
    ensures forall r :: InRepair(s.memory, r) ==> Published(s, r)
  {}

  /** What a step journals comes from a record the repair holds. */
  lemma {:induction false} JournaledRecord(s: Store, e: Entry) returns (x: StateRecord)
    requires s.memory.repair.Some? && LeftFromScan(s.memory.repair.value) && Journals(s, e)
    ensures Published(s, x) && InRepair(s.memory, x) && Wants(PhaseKind(s.memory.repair.value), x)
    ensures e == EntryFor(PhaseKind(s.memory.repair.value), x)
  {
    var r := s.memory.repair.value;
    assert e in r.left;
    x :| x in r.records && Wants(PhaseKind(r), x) && e == EntryFor(PhaseKind(r), x);
  }

  /** Built from the cache, the user journals, the transcripts and the create markers, the inventory covers every copy. */
  lemma {:induction false} InventoryCovers(s: Store, maximum: nat)
    requires Settling(s) && Inventories(s, maximum) && s.memory.repair.None?
    ensures forall r :: Published(s, r) ==> r.order <= maximum
    ensures forall e :: e in s.disk.app.entries ==> e.order <= maximum
    ensures forall u, e :: InUsers(s.disk, u, e) ==> e.order <= maximum
  {
    forall e | e in s.disk.app.entries ensures e.order <= maximum {
      if !Remembered(s.memory, e) {
        var r :| InLogs(s.disk, r) && e == EntryFor(AppJournal, r);
      }
    }
    forall r | Published(s, r) ensures r.order <= maximum {
      if InScans(s.memory, r) && !InLogs(s.disk, r) { assert Settled(s, EntryFor(AppJournal, r)); }
    }
  }

  lemma {:induction false} NoOpsAfterCrash()
    ensures forall r :: !InOps(NO_MEMORY, r)
  {}

  lemma {:induction false} KeepsBounded(s: Store, step: Step, t: Store, issued: Registry)
    requires Inv(s, issued) && Next(s, step, t)
    ensures Bounded(t)
  {
    hide Next, Placement, Shaped, Settling, Published, InLogs, InMarkers, InScans, InRepair, InOps, Reserves, Publishes, Inventories, LeftFromScan, InUsers;
    PublishedFrom(s, step, t);
    OpsFrom(s, step, t);
    EntriesFrom(s, step, t);
    InventoryGrows(s, step, t);
    NoOpsAfterCrash();
    WhereverPublished(s);
    if t.memory.inventory.Some? {
      if s.memory.inventory.None? { InventoryCovers(s, t.memory.inventory.value); }
      forall e | Journals(s, e) ensures exists x :: Published(s, x) && x.order == e.order {
        var x := JournaledRecord(s, e);
      }
    }
  }

  // Described.

  lemma {:induction false} EntriesForMembers(kind: JournalKind, records: seq<StateRecord>)
    ensures forall e :: e in EntriesFor(kind, records) ==> exists x :: x in records && Wants(kind, x) && e == EntryFor(kind, x)
    ensures forall x :: x in records && Wants(kind, x) ==> EntryFor(kind, x) in EntriesFor(kind, records)
  {
    if records != [] {
      var front, last := records[..|records| - 1], records[|records| - 1];
      EntriesForMembers(kind, front);
      assert records == front + [last];
    }
  }

  function Issue(issued: Registry, r: StateRecord): Registry {
    (map o | o in issued && issued[o].id != r.id :: issued[o])[r.order := r]
  }

  /** No copy shares the ID or the order of `r`. */
  ghost predicate Fresh(s: Store, r: StateRecord) {
    && (forall x :: Published(s, x) || InOps(s.memory, x) ==> x.id != r.id && x.order != r.order)
    && (forall e :: e in s.disk.app.entries ==> e.id != r.id && e.order != r.order)
    && (forall u, e :: InUsers(s.disk, u, e) ==> e.id != r.id && e.order != r.order)
  }

  lemma {:induction false} CreateIsFresh(s: Store, issued: Registry, r: StateRecord)
    requires IsRegistry(issued) && Described(s, issued) && Bounded(s) && s.memory.inventory.Some?
    requires s.memory.inventory.value < r.order && r.id.CreateId? && r.id.incarnation == r.order
    ensures Fresh(s, r)
  {
    hide Published, InOps;
  }

  lemma {:induction false} OpsAreAtTheirKey(s: Store, x: StateRecord)
    requires Shaped(s) && InOps(s.memory, x)
    ensures KeyOf(x.id) in s.memory.ops
  {
    var k :| k in s.memory.ops && Holds(s.memory.ops[k], x);
    assert OpShape(s, k, s.memory.ops[k]);
  }

  lemma {:induction false} EventIsFresh(s: Store, issued: Registry, k: Key, r: StateRecord)
    requires Inv(s, issued) && s.memory.inventory.Some? && s.memory.inventory.value < r.order
    requires Idle(s, k) && k in s.disk.logs && KeyOf(r.id) == k && r.id.incarnation == s.disk.logs[k].incarnation
    requires !InLog(s.disk.logs[k], r.id)
    ensures Fresh(s, r)
  {
    hide Published, InOps, InUsers, Shaped, InLog, Settling;
    forall x | InOps(s.memory, x) ensures x.id != r.id { OpsAreAtTheirKey(s, x); }
    forall id | Placed(s, id) ensures id != r.id {}
  }

  lemma {:induction false} HeaderIsPublished(s: Store, k: Key)
    requires Shaped(s) && k in s.disk.logs
    ensures exists r :: Published(s, r) && r.order == s.disk.logs[k].incarnation
  {
    var r := s.disk.logs[k].records[0];
    assert LogShape(k, s.disk.logs[k]) && InLogs(s.disk, r) && Published(s, r);
  }

  lemma {:induction false} ReservedIsFresh(s: Store, step: Step, t: Store, issued: Registry, r: StateRecord)
    requires Inv(s, issued) && Next(s, step, t) && Reserves(s, step, r)
    ensures Fresh(s, r) && WellFormed(r)
  {
    hide Described, Placement, Settling, Published, InOps, InLog, Placed, Shaped, Bounded;
    match step
    case CreateReserve(k, app, userDelta) => CreateIsFresh(s, issued, r);
    case AppendReserve(k, event, app, userDelta) =>
      HeaderIsPublished(s, k);
      BoundedOrders(s);
      EventIsFresh(s, issued, k, r);
    case _ =>
  }

  lemma {:induction false} BoundedOrders(s: Store)
    requires Bounded(s) && s.memory.inventory.Some?
    ensures forall r :: Published(s, r) ==> r.order <= s.memory.inventory.value
  {}

  lemma {:induction false} IssuedSurvives(issued: Registry, r: StateRecord)
    requires IsRegistry(issued)
    ensures forall x :: Issued(issued, x) && x.id != r.id && x.order != r.order ==> Issued(Issue(issued, r), x)
    ensures forall kind, e :: IssuedEntry(issued, kind, e) && e.id != r.id && e.order != r.order ==> IssuedEntry(Issue(issued, r), kind, e)
  {}

  lemma {:induction false} IssueIsRegistry(issued: Registry, r: StateRecord)
    requires IsRegistry(issued) && WellFormed(r)
    ensures IsRegistry(Issue(issued, r)) && Issued(Issue(issued, r), r)
  {}

  lemma {:induction false} IssueKeeps(s: Store, issued: Registry, r: StateRecord)
    requires IsRegistry(issued) && Described(s, issued) && Fresh(s, r) && WellFormed(r)
    ensures IsRegistry(Issue(issued, r)) && Described(s, Issue(issued, r)) && Issued(Issue(issued, r), r)
  {
    IssuedSurvives(issued, r);
    IssueIsRegistry(issued, r);
    hide Published, InOps, InUsers, LeftFromScan, Issue, Issued, IssuedEntry, IsRegistry;
  }

  /** The additions of a repair are entries of its scan, and with the journal they hold every one of them. */
  lemma {:induction false} AdditionsOfScan(journal: seq<Entry>, kind: JournalKind, records: seq<StateRecord>)
    requires Distinct(journal) && Additions(journal, EntriesFor(kind, records)).Some?
    ensures var a := Additions(journal, EntriesFor(kind, records)).value;
      && Distinct(journal + a)
      && (forall e :: e in a ==> exists x :: x in records && Wants(kind, x) && e == EntryFor(kind, x))
      && (forall x :: x in records && Wants(kind, x) ==> EntryFor(kind, x) in journal || EntryFor(kind, x) in a)
  {
    hide Additions, EntriesFor, EntryFor;
    AdditionsComplete(journal, EntriesFor(kind, records));
    EntriesForMembers(kind, records);
    var a := Additions(journal, EntriesFor(kind, records)).value;
    forall e | e in a ensures e in EntriesFor(kind, records) {
      NotInJournal(journal, a, e);
      assert e in journal + a;
    }
    forall x | x in records && Wants(kind, x) ensures EntryFor(kind, x) in journal || EntryFor(kind, x) in a {
      assert EntryFor(kind, x) in journal + a;
    }
  }

  lemma {:induction false} NotInJournal(journal: seq<Entry>, a: seq<Entry>, e: Entry)
    requires Distinct(journal + a) && e in a
    ensures e !in journal
  {
    var j :| 0 <= j < |a| && a[j] == e;
    forall i | 0 <= i < |journal| ensures journal[i] != e {
      assert !Claims((journal + a)[i], (journal + a)[|journal| + j]);
    }
  }

  lemma {:induction false} RepairFrame(s: Store, step: Step, t: Store)
    requires Next(s, step, t) && t.memory.repair.Some?
    ensures
      if step.RepairBegin? then
        && s.memory.repair.None? && step.scan in s.memory.scans
        && multiset(step.records) == multiset(s.memory.scans[step.scan].records)
        && Additions(s.disk.app.entries, EntriesFor(AppJournal, step.records)).Some? && !s.disk.app.tail.Garbled?
        && t.memory.repair.value == Repair(step.user, step.records, false,
                                           Additions(s.disk.app.entries, EntriesFor(AppJournal, step.records)).value, step.purpose)
      else
        && s.memory.repair.Some?
        && var r := s.memory.repair.value;
        if step.RepairAppend? then r.left != [] && t.memory.repair.value == r.(left := r.left[1..])
        else if step.RepairTurn? then
          && var j := UserJournalOf(s.disk, r.user);
          && var wanted := EntriesFor(UserJournal(r.user), r.records);
          && !r.appDone && r.left == [] && !j.tail.Garbled? && Additions(j.entries, wanted).Some?
          && t.memory.repair.value == r.(appDone := true, left := Additions(j.entries, wanted).value)
        else t.memory.repair.value == r
  {
    hide Additions, EntriesFor, Inventories, FallbackCache, ScanComplete, OwnedByDelete, OrderedRecords, TornJournal, TornUsers, TornLogs, InLog;
  }

  lemma {:induction false} RepairLeftFrom(s: Store, step: Step, t: Store)
    requires Shaped(s) && Next(s, step, t) && t.memory.repair.Some?
    requires s.memory.repair.Some? ==> LeftFromScan(s.memory.repair.value)
    ensures LeftFromScan(t.memory.repair.value)
  {
    RepairFrame(s, step, t);
    hide Next, Additions, EntriesFor, Distinct, LogShape, OpShape, RepairShape;
    match step
    case RepairBegin(scan, user, purpose, records) => AdditionsOfScan(s.disk.app.entries, AppJournal, records);
    case RepairAppend =>
      assert forall e :: e in t.memory.repair.value.left ==> e in s.memory.repair.value.left;
    case RepairTurn =>
      var r := s.memory.repair.value;
      NoEntriesDistinct();
      AdditionsOfScan(UserJournalOf(s.disk, r.user).entries, UserJournal(r.user), r.records);
    case _ =>
  }

  lemma {:induction false} NoEntriesDistinct()
    ensures Distinct([])
  {}

  lemma {:induction false} KeepsDescribed(s: Store, step: Step, t: Store, issued: Registry) returns (now: Registry)
    requires Inv(s, issued) && Next(s, step, t)
    ensures IsRegistry(now) && Described(t, now)
  {
    hide Next, Placement, Settling, Bounded, Published, InLogs, InMarkers, InScans, InRepair, InOps, Reserves, Publishes, InUsers, Fresh, IsRegistry, LeftFromScan, WellFormed, Issue, Shaped;
    now := issued;
    if r :| Reserves(s, step, r) {
      ReservedIsFresh(s, step, t, issued, r);
      IssueKeeps(s, issued, r);
      now := Issue(issued, r);
      OneReservation(s, step, r);
    }
    PublishedFrom(s, step, t);
    WhereverPublished(s);
    OpsFrom(s, step, t);
    EntriesFrom(s, step, t);
    if t.memory.repair.Some? { RepairLeftFrom(s, step, t); }
    forall e | Journals(s, e) ensures IssuedEntry(now, PhaseKind(s.memory.repair.value), e) {
      var x := JournaledRecord(s, e);
    }
  }

  lemma {:induction false} OneReservation(s: Store, step: Step, r: StateRecord)
    requires Reserves(s, step, r)
    ensures forall x :: Reserves(s, step, x) ==> x == r
  {}
}
