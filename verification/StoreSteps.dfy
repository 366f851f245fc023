/** Every step keeps the invariant: where copies are placed, the shape of files and operations, what deletions rely on. */
module StoreSteps {
  import opened Wrappers
  import opened StoreState
  import opened StoreJournal
  import opened StoreProtocol
  import opened StoreInvariant

  // What a step does to one session.

  predicate LogMoves(s: Store, step: Step, t: Store, k: Key) {
    if k in s.disk.logs && k in t.disk.logs then
      var before, after := s.disk.logs[k], t.disk.logs[k];
      && after.incarnation == before.incarnation
      && if step == AppendCommit(k) then
           && k in s.memory.ops && s.memory.ops[k].Appending?
           && after == if before.tail.Clean? then before.(records := before.records + [s.memory.ops[k].record]) else before.(tail := Garbled)
         else
           && after.records == before.records
           && (after.tail == before.tail || after.tail == Loaded(before.tail)
               || ((step.Crash? || (step.AppendFail? && step.k == k)) && Tears(before.tail, after.tail)))
    else if k in t.disk.logs then
      && step == CreateCommit(k) && k in s.memory.ops && s.memory.ops[k].CreateMarked?
      && t.disk.logs[k] == Log(s.memory.ops[k].record.order, [s.memory.ops[k].record], Clean)
    else k in s.disk.logs ==> step == DeleteLog(k) && At(s, k, DeleteMarked)
  }

  predicate MarkerMoves(s: Store, step: Step, t: Store, k: Key) {
    if step == CreateMark(k) then
      && k in s.memory.ops && s.memory.ops[k].CreateReserved?
      && k in t.disk.creating && t.disk.creating[k] == s.memory.ops[k].record
    else if k in t.disk.creating then k in s.disk.creating && t.disk.creating[k] == s.disk.creating[k]
    else
      k in s.disk.creating ==>
        || (step == CreateRollback(k) && k in s.memory.ops && s.memory.ops[k].CreateMarked?)
        || (step == CreateFinish(k) && k in s.memory.ops && s.memory.ops[k].CreateCommitted?)
        || (step == DeleteCreateMarker(k) && At(s, k, DeleteUnlogged))
  }

  predicate DeletingMoves(s: Store, step: Step, t: Store, k: Key) {
    if step == DeleteMark(k) then
      && At(s, k, DeleteRepaired) && k in s.disk.logs
      && k in t.disk.deleting && t.disk.deleting[k] == s.disk.logs[k].incarnation
    else if step == DeletePendingCreate(k) then
      k !in s.disk.deleting && k !in s.disk.logs && k in s.disk.creating && k in t.disk.deleting && k !in s.memory.ops
    else if k in t.disk.deleting then k in s.disk.deleting && t.disk.deleting[k] == s.disk.deleting[k]
    else k in s.disk.deleting ==> step == DeleteFinish(k) && At(s, k, DeleteUncreated)
  }

  /** The steps that change which operation holds session `k`. */
  predicate Touches(s: Store, step: Step, k: Key) {
    match step
    case CreateReserve(x, _, _) => x == k
    case CreateMark(x) => x == k
    case CreateCommit(x) => x == k
    case CreateRollback(x) => x == k
    case CreateFinish(x) => x == k
    case LeaveOp(x) => x == k
    case ResumeCreate(x) => x == k
    case FindCreated(x) => x == k
    case AppendReserve(x, _, _, _) => x == k
    case AppendCommit(x) => x == k
    case AppendFail(x, _) => x == k
    case DeleteBegin(x, _) => x == k
    case DeleteMark(x) => x == k
    case DeleteLog(x) => x == k
    case DeleteCreateMarker(x) => x == k
    case DeleteFinish(x) => x == k
    case ResumeDelete(x) => x == k
    case DeletePendingCreate(x) => x == k
    case RepairEnd => s.memory.repair.Some? && s.memory.repair.value.purpose == Some(k)
    case RepairFail(_, _, _) => s.memory.repair.Some? && s.memory.repair.value.purpose == Some(k)
    case Crash(_, _, _) => true
    case _ => false
  }

  predicate LoadsLog(s: Store, step: Step) {
    && (step.FindCreated? || step.AppendReserve? || step.ScanRead? || step.DeleteBegin?
        || (step.ResumeDelete? && step.k in s.disk.logs && step.k in s.disk.deleting && s.disk.logs[step.k].incarnation == s.disk.deleting[step.k]))
    && step.k in s.disk.logs
  }

  lemma {:induction false} ApplicationSpares(s: Store, step: Step, t: Store)
    requires Next(s, step, t) && OfApplication(step)
    ensures t.disk.creating == s.disk.creating && t.disk.deleting == s.disk.deleting
    ensures !step.ScanRead? && !step.Crash? ==> t.disk.logs == s.disk.logs
    ensures !step.RepairEnd? && !step.RepairFail? && !step.Crash? ==> t.memory.ops == s.memory.ops
  {
    hide Additions, EntriesFor, Inventories, FallbackCache, ScanComplete, OwnedByDelete, OrderedRecords, Extend, TornJournal, TornUsers, TornLogs, InLog;
    hide NextOfSession;
  }

  lemma {:induction false} SessionSpares(s: Store, step: Step, t: Store)
    requires Next(s, step, t) && !OfApplication(step)
    ensures t.disk.app == s.disk.app && t.disk.users == s.disk.users
    ensures t.memory.repair == s.memory.repair && t.memory.cached == s.memory.cached
  {
    hide Additions, EntriesFor, Inventories, FallbackCache, ScanComplete, OwnedByDelete, OrderedRecords, Extend, TornJournal, TornUsers, TornLogs, InLog;
    hide NextOfApplication;
  }

  lemma {:induction false} LogsFrame(s: Store, step: Step, t: Store)
    requires Next(s, step, t)
    ensures
      if step.CreateCommit? then
        && step.k in s.memory.ops && s.memory.ops[step.k].CreateMarked?
        && var r := s.memory.ops[step.k].record;
        t.disk.logs == s.disk.logs[step.k := Log(r.order, [r], Clean)] && step.k !in s.disk.logs
      else if step.AppendCommit? then
        && step.k in s.memory.ops && s.memory.ops[step.k].Appending? && step.k in s.disk.logs
        && var l := s.disk.logs[step.k];
        t.disk.logs == s.disk.logs[step.k :=
            if l.tail.Clean? then l.(records := l.records + [s.memory.ops[step.k].record]) else l.(tail := Garbled)]
      else if step.AppendFail? then
        && step.k in s.disk.logs && Tears(s.disk.logs[step.k].tail, step.tail)
        && t.disk.logs == s.disk.logs[step.k := s.disk.logs[step.k].(tail := step.tail)]
      else if step.DeleteLog? then At(s, step.k, DeleteMarked) && t.disk.logs == s.disk.logs - {step.k}
      else if step.Crash? then TornLogs(s.disk.logs, t.disk.logs)
      else if LoadsLog(s, step) then t.disk.logs == s.disk.logs[step.k := LoadedLog(s.disk.logs[step.k])]
      else t.disk.logs == s.disk.logs
  {
    hide Additions, EntriesFor, Inventories, FallbackCache, ScanComplete, OwnedByDelete, OrderedRecords, Extend, TornJournal, TornUsers, TornLogs, InLog;
    if OfApplication(step) {
      hide NextOfSession;
    } else {
      hide NextOfApplication;
    }
  }

  lemma {:induction false} LogAt(s: Store, step: Step, t: Store, k: Key)
    requires Next(s, step, t)
    ensures LogMoves(s, step, t, k)
  {
    LogsFrame(s, step, t);
    hide Next;
  }

  lemma {:induction false} MarkersFrame(s: Store, step: Step, t: Store)
    requires Next(s, step, t)
    ensures
      if step.CreateMark? then
        && step.k in s.memory.ops && s.memory.ops[step.k].CreateReserved?
        && t.disk.creating == s.disk.creating[step.k := s.memory.ops[step.k].record]
      else if step.CreateRollback? || step.CreateFinish? || step.DeleteCreateMarker? then
        && step.k in s.memory.ops && t.disk.creating == s.disk.creating - {step.k}
        && (step.CreateRollback? ==> s.memory.ops[step.k].CreateMarked?)
        && (step.CreateFinish? ==> s.memory.ops[step.k].CreateCommitted?)
        && (step.DeleteCreateMarker? ==> s.memory.ops[step.k].DeleteUnlogged?)
      else t.disk.creating == s.disk.creating
  {
    hide Additions, EntriesFor, Inventories, FallbackCache, ScanComplete, OwnedByDelete, OrderedRecords, Extend, TornJournal, TornUsers, TornLogs, InLog;
    if OfApplication(step) {
      hide Next;
      ApplicationSpares(s, step, t);
    } else {
      hide NextOfApplication;
    }
  }

  lemma {:induction false} MarkerAt(s: Store, step: Step, t: Store, k: Key)
    requires Next(s, step, t)
    ensures MarkerMoves(s, step, t, k)
  {
    MarkersFrame(s, step, t);
    hide Next;
  }

  lemma {:induction false} DeletingFrame(s: Store, step: Step, t: Store)
    requires Next(s, step, t)
    ensures
      if step.DeleteMark? then
        && At(s, step.k, DeleteRepaired) && step.k in s.disk.logs
        && t.disk.deleting == s.disk.deleting[step.k := s.disk.logs[step.k].incarnation]
      else if step.DeletePendingCreate? then
        && step.k !in s.disk.deleting && step.k !in s.disk.logs && step.k in s.disk.creating && step.k !in s.memory.ops
        && t.disk.deleting == s.disk.deleting[step.k := s.disk.creating[step.k].order]
      else if step.DeleteFinish? then At(s, step.k, DeleteUncreated) && t.disk.deleting == s.disk.deleting - {step.k}
      else t.disk.deleting == s.disk.deleting
  {
    hide Additions, EntriesFor, Inventories, FallbackCache, ScanComplete, OwnedByDelete, OrderedRecords, Extend, TornJournal, TornUsers, TornLogs, InLog;
    if OfApplication(step) {
      hide Next;
      ApplicationSpares(s, step, t);
    } else {
      hide NextOfApplication;
    }
  }

  lemma {:induction false} DeletingAt(s: Store, step: Step, t: Store, k: Key)
    requires Next(s, step, t)
    ensures DeletingMoves(s, step, t, k)
  {
    DeletingFrame(s, step, t);
    hide Next;
  }

  lemma {:induction false} OpAt(s: Store, step: Step, t: Store, k: Key)
    requires Next(s, step, t) && !Touches(s, step, k)
    ensures k in t.memory.ops <==> k in s.memory.ops
    ensures k in s.memory.ops ==> t.memory.ops[k] == s.memory.ops[k]
  {
    hide Additions, EntriesFor, Inventories, FallbackCache, ScanComplete, OwnedByDelete, OrderedRecords, Extend, TornJournal, TornUsers, TornLogs, InLog;
    if OfApplication(step) {
      hide NextOfSession;
    } else {
      hide NextOfApplication;
    }
  }

  lemma {:induction false} ReservedOpAt(s: Store, step: Step, t: Store, k: Key)
    requires Next(s, step, t) && k in t.memory.ops && t.memory.ops[k].CreateReserved?
    ensures (k in s.memory.ops && t.memory.ops[k] == s.memory.ops[k])
      || (step.CreateReserve? && s.memory.inventory.Some? && t.memory.ops[k].record.order == Reserved(s))
  {
    hide Additions, EntriesFor, Inventories, FallbackCache, ScanComplete, OwnedByDelete, OrderedRecords, Extend, TornJournal, TornUsers, TornLogs, InLog;
    if OfApplication(step) {
      hide NextOfSession;
    } else {
      hide NextOfApplication;
    }
  }

  // Placement.

  lemma {:induction false} PlacedStays(s: Store, step: Step, t: Store, id: RecordId)
    requires Shaped(s) && Next(s, step, t) && Placed(s, id)
    requires step.CreateReserve? ==> s.memory.inventory.Some? && id.incarnation < Reserved(s)
    ensures Placed(t, id)
  {
    hide Next, Shaped, OpShape, InLog;
    var k := KeyOf(id);
    LogAt(s, step, t, k);
    MarkerAt(s, step, t, k);
    DeletingAt(s, step, t, k);
    if k in s.memory.ops { OpShapeOf(s, k); }
    if k in t.memory.ops && t.memory.ops[k].CreateReserved? { ReservedOpAt(s, step, t, k); }
    if k in s.disk.logs && k in t.disk.logs { InLogGrows(s.disk.logs[k], t.disk.logs[k], id); }
    SoleRecord(s, k, id);
  }

  lemma {:induction false} OpShapeOf(s: Store, k: Key)
    requires Shaped(s) && k in s.memory.ops
    ensures OpShape(s, k, s.memory.ops[k])
    ensures match s.memory.ops[k]
      case CreateReserved(r) => IsCreation(k, r) && k !in s.disk.logs && k !in s.disk.creating && k !in s.disk.deleting
      case CreateMarked(r) => k in s.disk.creating && s.disk.creating[k] == r && k !in s.disk.deleting
      case CreateCommitted(r) => k in s.disk.logs
      case Appending(r) => k in s.disk.logs
      case DeleteScanning(i) => k in s.disk.logs
      case DeleteRepaired => k in s.disk.logs
      case DeleteMarked => k in s.disk.deleting
      case DeleteUnlogged => k in s.disk.deleting && k !in s.disk.logs
      case DeleteUncreated => k in s.disk.logs || k !in s.disk.creating
  {}

  lemma {:induction false} InLogGrows(before: Log, after: Log, id: RecordId)
    ensures before.records <= after.records && InLog(before, id) ==> InLog(after, id)
    ensures after.records == before.records ==> InLog(before, id) == InLog(after, id)
  {}

  lemma {:induction false} SoleRecord(s: Store, k: Key, id: RecordId)
    ensures k in s.memory.ops && s.memory.ops[k].CreateMarked? && s.memory.ops[k].record.id == id ==>
      InLog(Log(s.memory.ops[k].record.order, [s.memory.ops[k].record], Clean), id)
  {
    if k in s.memory.ops && s.memory.ops[k].CreateMarked? {
      var r := s.memory.ops[k].record;
      assert r in [r];
    }
  }

  lemma {:induction false} NewlyPlaced(s: Store, step: Step, t: Store, r: StateRecord)
    requires Shaped(s) && Next(s, step, t) && Publishes(s, step, r)
    ensures Placed(t, r.id)
  {
    assert OpShape(s, step.k, s.memory.ops[step.k]);
    if step.AppendCommit? { assert r in t.disk.logs[step.k].records; }
  }

  /** Published incarnations are older than any order still to be handed out. */
  lemma {:induction false} OldIncarnations(s: Store, issued: Registry)
    requires IsRegistry(issued) && Described(s, issued) && Bounded(s) && s.memory.inventory.Some?
    ensures forall r :: Published(s, r) ==> r.id.incarnation <= s.memory.inventory.value
    ensures forall e :: e in s.disk.app.entries ==> e.id.incarnation <= s.memory.inventory.value
    ensures forall u, e :: InUsers(s.disk, u, e) ==> e.id.incarnation <= s.memory.inventory.value
  {
    hide Published, InOps, InUsers, LeftFromScan;
  }

  lemma {:induction false} KeepsPlacement(s: Store, step: Step, t: Store, issued: Registry)
    requires Inv(s, issued) && Next(s, step, t)
    ensures Placement(t)
  {
    hide Next, Described, Bounded, Shaped, Settling, Published, Publishes, InUsers, InRepair, Placed;
    forall id | Placed(s, id) && (step.CreateReserve? ==> s.memory.inventory.Some? && id.incarnation < Reserved(s)) ensures Placed(t, id) {
      PlacedStays(s, step, t, id);
    }
    if step.CreateReserve? { Reserving(s, step, t); OldIncarnations(s, issued); }
    PublishedFrom(s, step, t);
    EntriesFrom(s, step, t);
    forall r | Publishes(s, step, r) ensures Placed(t, r.id) { NewlyPlaced(s, step, t, r); }
    forall e | Journals(s, e) ensures exists x :: Published(s, x) && x.id == e.id {
      LeftOfScan(s, issued);
      var x := JournaledRecord(s, e);
    }
  }

  lemma {:induction false} Reserving(s: Store, step: Step, t: Store)
    requires Next(s, step, t) && step.CreateReserve?
    ensures s.memory.inventory.Some?
  {}

  lemma {:induction false} LeftOfScan(s: Store, issued: Registry)
    requires Described(s, issued) && s.memory.repair.Some?
    ensures LeftFromScan(s.memory.repair.value)
  {}


  // Shape of files.

  lemma {:induction false} DistinctIdsSnoc(rs: seq<StateRecord>, r: StateRecord)
    requires DistinctIds(rs) && forall x :: x in rs ==> x.id != r.id
    ensures DistinctIds(rs + [r])
  {
    forall i, j | 0 <= i < j < |rs + [r]| ensures (rs + [r])[i].id != (rs + [r])[j].id {
      if j == |rs| { assert rs[i] in rs; }
    }
  }

  lemma {:induction false} ShapeAt(s: Store, k: Key)
    requires Shaped(s)
    ensures k in s.disk.logs ==> LogShape(k, s.disk.logs[k])
    ensures k in s.memory.ops ==> OpShape(s, k, s.memory.ops[k])
    ensures k in s.disk.creating ==> IsCreation(k, s.disk.creating[k])
    ensures k in s.disk.creating && k in s.disk.logs ==> s.disk.creating[k] == s.disk.logs[k].records[0]
    ensures k in s.disk.deleting && k in s.disk.logs ==> s.disk.deleting[k] == s.disk.logs[k].incarnation
  {}

  lemma {:induction false} LogsKeepShape(s: Store, step: Step, t: Store, k: Key)
    requires Shaped(s) && Next(s, step, t) && k in t.disk.logs
    ensures LogShape(k, t.disk.logs[k])
  {
    hide Next, Shaped;
    LogAt(s, step, t, k);
    ShapeAt(s, k);
    if step == AppendCommit(k) && k in s.disk.logs { DistinctIdsSnoc(s.disk.logs[k].records, s.memory.ops[k].record); }
  }

  lemma {:induction false} HeadersAgree(s: Store, step: Step, t: Store, k: Key)
    requires Shaped(s) && Next(s, step, t) && k in t.disk.creating
    ensures IsCreation(k, t.disk.creating[k])
    ensures k in t.disk.logs ==> t.disk.logs[k].records != [] && t.disk.creating[k] == t.disk.logs[k].records[0]
  {
    hide Next, Shaped, DistinctIds, InLog;
    LogAt(s, step, t, k);
    MarkerAt(s, step, t, k);
    ShapeAt(s, k);
  }

  /** A delete marker never names an incarnation other than the one on disk. */
  lemma {:induction false} MarkersMatch(s: Store, step: Step, t: Store, k: Key)
    requires Shaped(s) && Next(s, step, t) && k in t.disk.deleting && k in t.disk.logs
    ensures t.disk.deleting[k] == t.disk.logs[k].incarnation
  {
    hide Next, Shaped, DistinctIds, InLog;
    LogAt(s, step, t, k);
    DeletingAt(s, step, t, k);
    ShapeAt(s, k);
  }

  /** Only these steps touch a journal. */
  predicate TouchesJournals(step: Step) {
    step.ReadShared? || step.RepairBegin? || step.RepairAppend? || step.RepairTurn? || step.RepairFail? || step.Crash?
  }

  lemma {:induction false} JournalsUntouched(s: Store, step: Step, t: Store)
    requires Next(s, step, t) && !TouchesJournals(step)
    ensures t.disk.app == s.disk.app && t.disk.users == s.disk.users
  {
    hide Additions, EntriesFor, Inventories, FallbackCache, ScanComplete, OwnedByDelete, OrderedRecords, TornJournal, TornUsers, TornLogs, InLog;
    if OfApplication(step) {
      hide NextOfSession;
    } else {
      hide Next;
      SessionSpares(s, step, t);
    }
  }

  lemma {:induction false} AppTorn(s: Store, step: Step, t: Store)
    requires Next(s, step, t) && (step.RepairFail? || step.Crash?)
    ensures TornJournal(s.disk.app, t.disk.app)
  {}

  lemma {:induction false} AppWritten(s: Store, step: Step, t: Store)
    requires Next(s, step, t) && (step.ReadShared? || step.RepairBegin? || step.RepairTurn?)
    ensures t.disk.app == if step.RepairTurn? then s.disk.app else LoadedJournal(s.disk.app)
  {
    hide Additions, EntriesFor, Inventories, FallbackCache, ScanComplete, OwnedByDelete, OrderedRecords, TornJournal, TornUsers, TornLogs, InLog;
  }

  lemma {:induction false} AppAppended(s: Store, step: Step, t: Store)
    requires Next(s, step, t) && step.RepairAppend?
    ensures s.memory.repair.Some? && s.memory.repair.value.left != []
    ensures var r := s.memory.repair.value; t.disk.app == if r.appDone then s.disk.app else Extend(s.disk.app, r.left[0])
  {}

  lemma {:induction false} AppFrame(s: Store, step: Step, t: Store)
    requires Next(s, step, t)
    ensures step.RepairAppend? ==> s.memory.repair.Some? && s.memory.repair.value.left != []
    ensures
      if step.ReadShared? || step.RepairBegin? then t.disk.app == LoadedJournal(s.disk.app)
      else if step.RepairAppend? && !s.memory.repair.value.appDone then t.disk.app == Extend(s.disk.app, s.memory.repair.value.left[0])
      else if step.RepairFail? || step.Crash? then TornJournal(s.disk.app, t.disk.app)
      else t.disk.app == s.disk.app
  {
    hide Next, Extend, TornJournal, LoadedJournal;
    if !TouchesJournals(step) { JournalsUntouched(s, step, t); }
    if step.RepairFail? || step.Crash? { AppTorn(s, step, t); }
    if step.ReadShared? || step.RepairBegin? || step.RepairTurn? { AppWritten(s, step, t); }
    if step.RepairAppend? { AppAppended(s, step, t); }
  }

  lemma {:induction false} UsersFrame(s: Store, step: Step, t: Store)
    requires Next(s, step, t)
    ensures
      if step.RepairTurn? then
        && s.memory.repair.Some?
        && var u := s.memory.repair.value.user;
        t.disk.users == s.disk.users[u := LoadedJournal(UserJournalOf(s.disk, u))]
      else if step.RepairAppend? && s.memory.repair.Some? && s.memory.repair.value.appDone && s.memory.repair.value.left != [] then
        var u := s.memory.repair.value.user;
        t.disk.users == s.disk.users[u := Extend(UserJournalOf(s.disk, u), s.memory.repair.value.left[0])]
      else if step.RepairFail? then
        && s.memory.repair.Some?
        && var u := s.memory.repair.value.user;
        && Tears(UserJournalOf(s.disk, u).tail, step.userTail)
        && t.disk.users == s.disk.users[u := UserJournalOf(s.disk, u).(tail := step.userTail)]
      else if step.Crash? then TornUsers(s.disk.users, t.disk.users)
      else t.disk.users == s.disk.users
  {
    hide Additions, EntriesFor, Inventories, FallbackCache, ScanComplete, OwnedByDelete, OrderedRecords, TornJournal, TornUsers, TornLogs, InLog;
    if !TouchesJournals(step) { hide Next; JournalsUntouched(s, step, t); }
  }

  lemma {:induction false} DistinctShift(js: seq<Entry>, left: seq<Entry>)
    requires left != [] && Distinct(js + left)
    ensures Distinct(js + [left[0]] + left[1..]) && Distinct(js + [left[0]])
  {
    assert js + [left[0]] + left[1..] == js + left;
    forall i, j | 0 <= i < j < |js + [left[0]]| ensures !Claims((js + [left[0]])[i], (js + [left[0]])[j]) {
      assert (js + [left[0]])[i] == (js + left)[i] && (js + [left[0]])[j] == (js + left)[j];
    }
  }

  lemma {:induction false} JournalsKeepShape(s: Store, step: Step, t: Store)
    requires Shaped(s) && Next(s, step, t)
    ensures !t.disk.app.tail.Garbled? && Distinct(t.disk.app.entries)
    ensures forall u :: u in t.disk.users ==> !t.disk.users[u].tail.Garbled? && Distinct(t.disk.users[u].entries)
  {
    AppFrame(s, step, t);
    UsersFrame(s, step, t);
    hide Next, Distinct, LogShape, OpShape;
    NoEntriesDistinct();
    if step.RepairAppend? {
      DistinctShift(PhaseJournal(s.disk, s.memory.repair.value).entries, s.memory.repair.value.left);
    }
  }

  lemma {:induction false} RepairKeepsJournal(s: Store, step: Step, t: Store)
    requires Shaped(s) && Next(s, step, t) && t.memory.repair.Some?
    ensures var r := t.memory.repair.value;
      PhaseJournal(t.disk, r).tail.Clean? && Distinct(PhaseJournal(t.disk, r).entries + r.left)
  {
    hide Next, Distinct, LogShape, OpShape, Additions, EntriesFor;
    AppFrame(s, step, t);
    UsersFrame(s, step, t);
    RepairFrame(s, step, t);
    RepairGoesOn(s, step, t);
    NoEntriesDistinct();
    match step
    case RepairBegin(_, _, _, records) => AdditionsOfScan(s.disk.app.entries, AppJournal, records);
    case RepairTurn =>
      var r := s.memory.repair.value;
      AdditionsOfScan(UserJournalOf(s.disk, r.user).entries, UserJournal(r.user), r.records);
    case RepairAppend => DistinctShift(PhaseJournal(s.disk, s.memory.repair.value).entries, s.memory.repair.value.left);
    case _ =>
  }

  lemma {:induction false} RepairGoesOn(s: Store, step: Step, t: Store)
    requires Next(s, step, t) && t.memory.repair.Some?
    ensures !step.Crash? && !step.RepairFail? && !step.RepairEnd?
  {}

  // Shape of operations.

  lemma {:induction false} ScanNew(s: Store, step: Step, t: Store, i: nat)
    requires Next(s, step, t) && i in t.memory.scans && i !in s.memory.scans
    ensures (step.ScanBegin? || step.DeleteBegin?) && !OwnedByDelete(s, i) && t.memory.scans[i] == Scan(Incarnations(s.disk), {}, [])
  {
    hide Additions, EntriesFor, Inventories, FallbackCache, ScanComplete, OwnedByDelete, OrderedRecords, TornJournal, TornUsers, TornLogs, InLog;
  }

  lemma {:induction false} ScanKept(s: Store, step: Step, t: Store, i: nat)
    requires Next(s, step, t) && i in t.memory.scans && i in s.memory.scans
    ensures
      || t.memory.scans[i] == s.memory.scans[i]
      || (step.ScanRead?
          && t.memory.scans[i].start == s.memory.scans[i].start
          && t.memory.scans[i].visited == s.memory.scans[i].visited + {step.k}
          && t.memory.scans[i].records ==
            if step.k in s.disk.logs then s.memory.scans[i].records + s.disk.logs[step.k].records else s.memory.scans[i].records)
  {
    hide Additions, EntriesFor, Inventories, FallbackCache, ScanComplete, OwnedByDelete, OrderedRecords, TornJournal, TornUsers, TornLogs, InLog;
  }

  lemma {:induction false} ScanAt(s: Store, step: Step, t: Store, i: nat)
    requires Next(s, step, t) && i in t.memory.scans
    ensures
      if i in s.memory.scans then
        var before, after := s.memory.scans[i], t.memory.scans[i];
        && after.start == before.start
        && (forall r :: r in before.records ==> r in after.records)
        && (forall k :: k in after.visited && k in s.disk.logs ==>
              k in before.visited || forall r :: r in s.disk.logs[k].records ==> r in after.records)
      else (step.ScanBegin? || step.DeleteBegin?) && !OwnedByDelete(s, i) && t.memory.scans[i] == Scan(Incarnations(s.disk), {}, [])
  {
    hide Next, OwnedByDelete;
    if i in s.memory.scans { ScanKept(s, step, t, i); } else { ScanNew(s, step, t, i); }
  }

  /** An operation that a step does not touch keeps its shape, whatever the step does to the files. */
  lemma {:induction false} UntouchedOpKeepsShape(s: Store, step: Step, t: Store, k: Key)
    requires Shaped(s) && Next(s, step, t) && k in t.memory.ops && !Touches(s, step, k)
    ensures OpShape(t, k, t.memory.ops[k])
  {
    hide Next, Shaped, Touches, IsCreation, LogShape;
    OpAt(s, step, t, k);
    ShapeAt(s, k);
    if s.memory.ops[k].DeleteScanning? {
      ScanningKeepsShape(s, step, t, k);
    } else {
      NotTouching(s, step, k);
      LogAt(s, step, t, k);
      MarkerAt(s, step, t, k);
      DeletingAt(s, step, t, k);
      if k in s.disk.logs && k in t.disk.logs && s.memory.ops[k].Appending? {
        InLogGrows(s.disk.logs[k], t.disk.logs[k], s.memory.ops[k].record.id);
      }
      hide InLog;
    }
  }

  lemma {:induction false} NotTouching(s: Store, step: Step, k: Key)
    requires !Touches(s, step, k)
    ensures step != CreateMark(k) && step != CreateCommit(k) && step != CreateRollback(k) && step != CreateFinish(k)
    ensures step != AppendCommit(k) && step != DeleteMark(k) && step != DeleteLog(k) && step != DeleteCreateMarker(k)
    ensures step != DeleteFinish(k) && step != DeletePendingCreate(k) && !step.Crash? && !(step.AppendFail? && step.k == k)
  {}

  lemma {:induction false} ScanningKeepsShape(s: Store, step: Step, t: Store, k: Key)
    requires Shaped(s) && Next(s, step, t) && !Touches(s, step, k)
    requires k in s.memory.ops && k in t.memory.ops && t.memory.ops[k] == s.memory.ops[k] && s.memory.ops[k].DeleteScanning?
    ensures OpShape(t, k, t.memory.ops[k])
  {
    hide Next, Shaped, Touches;
    NotTouching(s, step, k);
    ShapeAt(s, k);
    LogAt(s, step, t, k);
    DeletingAt(s, step, t, k);
    var i := s.memory.ops[k].scan;
    assert OwnedByDelete(s, i);
    if i in t.memory.scans { ScanAt(s, step, t, i); }
  }

  lemma {:induction false} CreatingOpKeepsShape(s: Store, step: Step, t: Store, k: Key)
    requires Shaped(s) && Next(s, step, t) && k in t.memory.ops && Touches(s, step, k)
    requires step.CreateReserve? || step.CreateMark? || step.CreateCommit? || step.ResumeCreate? || step.FindCreated?
    ensures OpShape(t, k, t.memory.ops[k])
  {
    hide Shaped, InLog, DistinctIds;
    ShapeAt(s, k);
  }

  lemma {:induction false} AppendingOpKeepsShape(s: Store, step: Step, t: Store, k: Key)
    requires Shaped(s) && Next(s, step, t) && AvoidsPendingDelete(s, step) && k in t.memory.ops && Touches(s, step, k)
    requires step.AppendReserve?
    ensures OpShape(t, k, t.memory.ops[k])
  {
    hide Shaped, DistinctIds;
    ShapeAt(s, k);
    InLogGrows(s.disk.logs[k], t.disk.logs[k], t.memory.ops[k].record.id);
    hide InLog;
  }

  lemma {:induction false} DeletingOpKeepsShape(s: Store, step: Step, t: Store, k: Key)
    requires Shaped(s) && Next(s, step, t) && k in t.memory.ops && Touches(s, step, k)
    requires step.DeleteBegin? || step.DeleteMark? || step.DeleteLog? || step.DeleteCreateMarker? || step.ResumeDelete? || step.DeletePendingCreate?
    ensures OpShape(t, k, t.memory.ops[k])
  {
    hide Shaped, InLog, LogShape, OwnedByDelete;
    ShapeAt(s, k);
  }

  lemma {:induction false} RepairedOpKeepsShape(s: Store, step: Step, t: Store, k: Key)
    requires Shaped(s) && Next(s, step, t) && k in t.memory.ops && Touches(s, step, k)
    requires step.RepairEnd? || step.RepairFail?
    ensures OpShape(t, k, t.memory.ops[k])
  {
    RepairShapeOf(s);
    ShapeAt(s, k);
    hide Shaped, InLog, LogShape, FallbackCache, Distinct;
  }

  lemma {:induction false} NoOpLeft(s: Store, step: Step, t: Store, k: Key)
    requires Next(s, step, t) && Touches(s, step, k)
    requires step.CreateRollback? || step.CreateFinish? || step.LeaveOp? || step.AppendCommit? || step.AppendFail? || step.DeleteFinish? || step.Crash?
    ensures k !in t.memory.ops
  {}

  lemma {:induction false} TouchedOpKeepsShape(s: Store, step: Step, t: Store, k: Key)
    requires Shaped(s) && Next(s, step, t) && AvoidsPendingDelete(s, step) && k in t.memory.ops && Touches(s, step, k)
    ensures OpShape(t, k, t.memory.ops[k])
  {
    hide Shaped, Next, OpShape;
    if step.CreateReserve? || step.CreateMark? || step.CreateCommit? || step.ResumeCreate? || step.FindCreated? {
      CreatingOpKeepsShape(s, step, t, k);
    } else if step.AppendReserve? {
      AppendingOpKeepsShape(s, step, t, k);
    } else if step.RepairEnd? || step.RepairFail? {
      RepairedOpKeepsShape(s, step, t, k);
    } else if step.CreateRollback? || step.CreateFinish? || step.LeaveOp? || step.AppendCommit? || step.AppendFail? || step.DeleteFinish? || step.Crash? {
      NoOpLeft(s, step, t, k);
    } else {
      DeletingOpKeepsShape(s, step, t, k);
    }
  }

  lemma {:induction false} RepairShapeOf(s: Store)
    requires Shaped(s)
    ensures s.memory.repair.Some? ==> RepairShape(s, s.memory.repair.value)
  {}

  /** The session a repair was run for stays as the repair's scan saw it. */
  lemma {:induction false} PurposeKept(s: Store, step: Step, t: Store)
    requires Shaped(s) && Next(s, step, t) && t.memory.repair.Some? && t.memory.repair.value.purpose.Some?
    requires !step.RepairBegin?
    ensures RepairShape(t, t.memory.repair.value)
  {
    hide Next, Shaped, LogShape, Distinct, Touches, OwnedByDelete, PhaseJournal, Additions, EntriesFor;
    RepairKeepsJournal(s, step, t);
    RepairFrame(s, step, t);
    RepairShapeOf(s);
    var k := t.memory.repair.value.purpose.value;
    ShapeAt(s, k);
    PurposeUntouched(s, step, t, k);
    NotTouching(s, step, k);
    OpAt(s, step, t, k);
    LogAt(s, step, t, k);
    var i := s.memory.ops[k].scan;
    if i in t.memory.scans { OwnedScan(s, k); ScanAt(s, step, t, i); }
  }

  lemma {:induction false} OwnedScan(s: Store, k: Key)
    requires k in s.memory.ops && s.memory.ops[k].DeleteScanning?
    ensures OwnedByDelete(s, s.memory.ops[k].scan)
  {}

  lemma {:induction false} PurposeUntouched(s: Store, step: Step, t: Store, k: Key)
    requires Next(s, step, t) && t.memory.repair.Some? && !step.RepairBegin?
    requires s.memory.repair.Some? && s.memory.repair.value.purpose == Some(k)
    requires k in s.memory.ops && s.memory.ops[k].DeleteScanning?
    ensures !Touches(s, step, k)
  {
    hide Additions, EntriesFor, Inventories, FallbackCache, ScanComplete, OwnedByDelete, OrderedRecords, TornJournal, TornUsers, TornLogs, InLog;
  }

  /** A repair for a deletion begins with every record of the session's transcript. */
  lemma {:induction false} PurposeBegins(s: Store, step: Step, t: Store)
    requires Shaped(s) && Next(s, step, t) && step.RepairBegin? && step.purpose.Some?
    ensures RepairShape(t, t.memory.repair.value)
  {
    RepairKeepsJournal(s, step, t);
    hide Shaped, Distinct, PhaseJournal, Additions, EntriesFor, LogShape, OrderedRecords;
    ShapeAt(s, step.purpose.value);
    SameRecords(step.records, s.memory.scans[step.scan].records);
  }

  lemma {:induction false} RepairKeepsShape(s: Store, step: Step, t: Store)
    requires Shaped(s) && Next(s, step, t) && t.memory.repair.Some?
    ensures RepairShape(t, t.memory.repair.value)
  {
    hide Next, Shaped;
    if t.memory.repair.value.purpose.None? {
      RepairKeepsJournal(s, step, t);
    } else if step.RepairBegin? {
      RepairFrame(s, step, t);
      PurposeBegins(s, step, t);
    } else {
      PurposeKept(s, step, t);
    }
  }

  lemma {:induction false} ShapedFromParts(t: Store)
    requires forall k :: k in t.disk.logs ==> LogShape(k, t.disk.logs[k])
    requires forall k :: k in t.disk.creating ==> IsCreation(k, t.disk.creating[k])
    requires forall k :: k in t.disk.creating && k in t.disk.logs ==>
      t.disk.logs[k].records != [] && t.disk.creating[k] == t.disk.logs[k].records[0]
    requires forall k :: k in t.disk.deleting && k in t.disk.logs ==> t.disk.deleting[k] == t.disk.logs[k].incarnation
    requires forall k :: k in t.memory.ops ==> OpShape(t, k, t.memory.ops[k])
    requires !t.disk.app.tail.Garbled? && Distinct(t.disk.app.entries)
    requires forall u :: u in t.disk.users ==> !t.disk.users[u].tail.Garbled? && Distinct(t.disk.users[u].entries)
    requires t.memory.repair.Some? ==> RepairShape(t, t.memory.repair.value)
    ensures Shaped(t)
  {
    hide LogShape, IsCreation, OpShape, Distinct, RepairShape;
  }

  lemma {:induction false} KeepsShaped(s: Store, step: Step, t: Store)
    requires Shaped(s) && Next(s, step, t) && AvoidsPendingDelete(s, step)
    ensures Shaped(t)
  {
    hide Next, Shaped, LogShape, IsCreation, OpShape, RepairShape, Distinct, Touches, AvoidsPendingDelete;
    JournalsKeepShape(s, step, t);
    if t.memory.repair.Some? { RepairKeepsShape(s, step, t); }
    forall k | k in t.disk.logs ensures LogShape(k, t.disk.logs[k]) { LogsKeepShape(s, step, t, k); }
    forall k | k in t.disk.creating ensures IsCreation(k, t.disk.creating[k]) { HeadersAgree(s, step, t, k); }
    forall k | k in t.disk.creating && k in t.disk.logs
      ensures t.disk.logs[k].records != [] && t.disk.creating[k] == t.disk.logs[k].records[0]
    {
      HeadersAgree(s, step, t, k);
    }
    forall k | k in t.disk.deleting && k in t.disk.logs ensures t.disk.deleting[k] == t.disk.logs[k].incarnation {
      MarkersMatch(s, step, t, k);
    }
    forall k | k in t.memory.ops ensures OpShape(t, k, t.memory.ops[k]) {
      if Touches(s, step, k) { TouchedOpKeepsShape(s, step, t, k); } else { UntouchedOpKeepsShape(s, step, t, k); }
    }
    ShapedFromParts(t);
  }

  // What deletions rely on.

  lemma {:induction false} AppGrows(s: Store, step: Step, t: Store)
    requires Next(s, step, t)
    ensures s.disk.app.entries <= t.disk.app.entries
  {
    hide Next;
    AppFrame(s, step, t);
  }

  lemma {:induction false} UsersGrow(s: Store, step: Step, t: Store, u: string)
    requires Next(s, step, t)
    ensures UserJournalOf(s.disk, u).entries <= UserJournalOf(t.disk, u).entries
  {
    hide Next;
    UsersFrame(s, step, t);
  }

  lemma {:induction false} CacheFrame(s: Store, step: Step, t: Store)
    requires Next(s, step, t)
    ensures
      if step.ReadShared? || step.RepairEnd? then t.memory.cached == Some(s.disk.app.entries)
      else if step.Crash? then t.memory.cached == None
      else if step.RepairFail? then s.memory.repair.Some? && FallbackCache(s, s.memory.repair.value, t.memory.cached)
      else t.memory.cached == s.memory.cached
  {
    hide Additions, EntriesFor, Inventories, FallbackCache, ScanComplete, OwnedByDelete, OrderedRecords, TornJournal, TornUsers, TornLogs, InLog;
  }

  lemma {:induction false} SettledStays(s: Store, step: Step, t: Store, e: Entry)
    requires Next(s, step, t) && Settled(s, e)
    ensures Settled(t, e)
  {
    hide Next;
    AppGrows(s, step, t);
    CacheFrame(s, step, t);
  }

  lemma {:induction false} SettledRecordStays(s: Store, step: Step, t: Store, u: string, r: StateRecord)
    requires Next(s, step, t) && SettledRecord(s, u, r)
    ensures SettledRecord(t, u, r)
  {
    hide Next;
    SettledStays(s, step, t, EntryFor(AppJournal, r));
    UsersGrow(s, step, t, u);
  }

  lemma {:induction false} DoomedIsSettled(s: Store, k: Key)
    requires Settling(s) && Doomed(s, k)
    ensures forall r :: r in s.disk.logs[k].records ==> SettledRecord(s, k.user, r)
  {}

  /** A transcript record stays where it is, unless its session is deleted, and then the journals have it. */
  lemma {:induction false} LoggedStays(s: Store, step: Step, t: Store, k: Key, r: StateRecord)
    requires Shaped(s) && Settling(s) && Next(s, step, t) && k in s.disk.logs && r in s.disk.logs[k].records
    ensures (k in t.disk.logs && r in t.disk.logs[k].records) || (step == DeleteLog(k) && SettledRecord(s, k.user, r))
  {
    hide Next, Shaped, Settling;
    LogAt(s, step, t, k);
    ShapeAt(s, k);
    if k !in t.disk.logs { DoomedIsSettled(s, k); }
  }

  lemma {:induction false} BackedStays(s: Store, step: Step, t: Store, r: StateRecord)
    requires Shaped(s) && Settling(s) && Next(s, step, t) && Backed(s, r)
    ensures Backed(t, r)
  {
    hide Next, Shaped, Settling;
    if k :| k in s.disk.logs && r in s.disk.logs[k].records {
      LoggedStays(s, step, t, k, r);
      if k in t.disk.logs && r in t.disk.logs[k].records {
        assert InLogs(t.disk, r);
      } else {
        SettledStays(s, step, t, EntryFor(AppJournal, r));
      }
    } else {
      SettledStays(s, step, t, EntryFor(AppJournal, r));
    }
  }

  lemma {:induction false} ScannedStayBacked(s: Store, step: Step, t: Store, r: StateRecord)
    requires Shaped(s) && Settling(s) && Next(s, step, t) && (InScans(t.memory, r) || InRepair(t.memory, r))
    ensures Backed(t, r)
  {
    hide Next, Shaped, InScans, InRepair, InLogs;
    ScansFrom(s, step, t);
    RepairFrom(s, step, t);
    BackedStays(s, step, t, r);
  }

  lemma {:induction false} EntriesStayKnown(s: Store, step: Step, t: Store, e: Entry)
    requires Shaped(s) && Settling(s) && Next(s, step, t) && e in t.disk.app.entries
    requires s.memory.repair.Some? ==> LeftFromScan(s.memory.repair.value)
    ensures Remembered(t.memory, e) || LiveEntry(t.disk, e)
  {
    hide Next, Shaped, InLogs, InScans, LeftFromScan;
    EntriesFrom(s, step, t);
    var x: StateRecord;
    if e in s.disk.app.entries {
      if Remembered(s.memory, e) { SettledStays(s, step, t, e); return; }
      x :| InLogs(s.disk, x) && e == EntryFor(AppJournal, x);
    } else {
      x := JournaledRecord(s, e);
    }
    BackedStays(s, step, t, x);
  }

  lemma {:induction false} RepairEndFrame(s: Store, step: Step, t: Store)
    requires Next(s, step, t) && step.RepairEnd?
    ensures s.memory.repair.Some? && s.memory.repair.value.appDone && s.memory.repair.value.left == []
    ensures t.disk == s.disk && t.memory.cached == Some(s.disk.app.entries)
  {
    hide Additions, EntriesFor, Inventories, FallbackCache, ScanComplete, OwnedByDelete, OrderedRecords, TornJournal, TornUsers, TornLogs, InLog;
  }

  lemma {:induction false} RepairEndSettles(s: Store, step: Step, t: Store, k: Key)
    requires Shaped(s) && Settling(s) && Next(s, step, t) && step.RepairEnd?
    requires s.memory.repair.Some? && s.memory.repair.value.purpose == Some(k) && k in t.disk.logs
    ensures forall r :: r in t.disk.logs[k].records && r.user == k.user ==> SettledRecord(t, k.user, r)
  {
    hide Next, Shaped, LogShape, Distinct;
    RepairShapeOf(s);
    RepairEndFrame(s, step, t);
  }

  /** A session's deletion counts as repaired only when a repair run for it has ended. */
  lemma {:induction false} NewlyRepaired(s: Store, step: Step, t: Store, k: Key)
    requires Next(s, step, t) && At(t, k, DeleteRepaired) && !At(s, k, DeleteRepaired)
    ensures step.RepairEnd? && s.memory.repair.Some? && s.memory.repair.value.purpose == Some(k)
  {
    hide Additions, EntriesFor, Inventories, FallbackCache, ScanComplete, OwnedByDelete, OrderedRecords, TornJournal, TornUsers, TornLogs, InLog,
      Reserved, Extend, CreateRecord, EventRecord;
  }

  lemma {:induction false} DoomedComes(s: Store, step: Step, t: Store, k: Key)
    requires Shaped(s) && Next(s, step, t) && Doomed(t, k)
    ensures Doomed(s, k) || (step.RepairEnd? && s.memory.repair.Some? && s.memory.repair.value.purpose == Some(k))
  {
    hide Next, Shaped, LogShape;
    LogAt(s, step, t, k);
    DeletingAt(s, step, t, k);
    ShapeAt(s, k);
    if At(t, k, DeleteRepaired) && !At(s, k, DeleteRepaired) { NewlyRepaired(s, step, t, k); }
  }

  lemma {:induction false} DoomedStaysSettled(s: Store, step: Step, t: Store, k: Key, issued: Registry)
    requires Inv(s, issued) && Next(s, step, t) && Doomed(t, k)
    ensures forall r :: r in t.disk.logs[k].records ==> SettledRecord(t, k.user, r)
  {
    hide Next, Described, Placement, Bounded, Shaped, Settling, SettledRecord;
    DoomedComes(s, step, t, k);
    LogAt(s, step, t, k);
    ShapeAt(s, k);
    DoomedNotAppended(s, step, k);
    forall r | r in t.disk.logs[k].records ensures SettledRecord(t, k.user, r) {
      if Doomed(s, k) {
        DoomedIsSettled(s, k);
        SettledRecordStays(s, step, t, k.user, r);
      } else {
        LoggedUser(s, issued, k, r);
        RepairEndSettles(s, step, t, k);
      }
    }
  }

  lemma {:induction false} DoomedNotAppended(s: Store, step: Step, k: Key)
    requires Shaped(s)
    ensures Doomed(s, k) ==> !(k in s.memory.ops && s.memory.ops[k].Appending?)
    ensures k in s.memory.ops && s.memory.ops[k].CreateMarked? ==> k !in s.disk.deleting
  {
    if k in s.memory.ops { assert OpShape(s, k, s.memory.ops[k]); }
  }

  lemma {:induction false} LoggedUser(s: Store, issued: Registry, k: Key, r: StateRecord)
    requires IsRegistry(issued) && Described(s, issued) && Shaped(s) && k in s.disk.logs && r in s.disk.logs[k].records
    ensures r.user == k.user
  {
    assert LogShape(k, s.disk.logs[k]) && InLogs(s.disk, r) && Published(s, r) && Issued(issued, r);
  }

  lemma {:induction false} LeftShifts(left: seq<Entry>, e: Entry)
    requires left != [] && e in left
    ensures e == left[0] || e in left[1..]
  {}

  lemma {:induction false} AppProgress(s: Store, step: Step, t: Store, x: StateRecord)
    requires Shaped(s) && Settling(s) && Next(s, step, t) && t.memory.repair.Some? && x in t.memory.repair.value.records
    ensures var r := t.memory.repair.value;
      EntryFor(AppJournal, x) in t.disk.app.entries || (!r.appDone && EntryFor(AppJournal, x) in r.left)
  {
    AppGrows(s, step, t);
    RepairFrame(s, step, t);
    AppFrame(s, step, t);
    RepairShapeOf(s);
    hide Next, Shaped, LogShape, Distinct, Additions, EntriesFor;
    var e := EntryFor(AppJournal, x);
    if step.RepairBegin? {
      AppIsDistinct(s);
      AdditionsOfScan(s.disk.app.entries, AppJournal, step.records);
    } else if step.RepairAppend? && e in s.memory.repair.value.left {
      LeftShifts(s.memory.repair.value.left, e);
    }
  }

  lemma {:induction false} AppIsDistinct(s: Store)
    requires Shaped(s)
    ensures Distinct(s.disk.app.entries)
  {}

  lemma {:induction false} UserProgress(s: Store, step: Step, t: Store, x: StateRecord)
    requires Shaped(s) && Settling(s) && Next(s, step, t) && t.memory.repair.Some? && x in t.memory.repair.value.records
    requires t.memory.repair.value.appDone && Wants(UserJournal(t.memory.repair.value.user), x)
    ensures var r := t.memory.repair.value;
      EntryFor(UserJournal(r.user), x) in UserJournalOf(t.disk, r.user).entries || EntryFor(UserJournal(r.user), x) in r.left
  {
    var u := t.memory.repair.value.user;
    UsersGrow(s, step, t, u);
    RepairFrame(s, step, t);
    UsersFrame(s, step, t);
    RepairShapeOf(s);
    hide Next, Shaped, LogShape, Distinct, Additions, EntriesFor;
    var e := EntryFor(UserJournal(u), x);
    if step.RepairTurn? {
      UserIsDistinct(s, u);
      AdditionsOfScan(UserJournalOf(s.disk, u).entries, UserJournal(u), s.memory.repair.value.records);
    } else if step.RepairAppend? && e in s.memory.repair.value.left {
      LeftShifts(s.memory.repair.value.left, e);
    }
  }

  lemma {:induction false} UserIsDistinct(s: Store, u: string)
    requires Shaped(s)
    ensures Distinct(UserJournalOf(s.disk, u).entries)
  {}

  lemma {:induction false} KeepsSettling(s: Store, step: Step, t: Store, issued: Registry)
    requires Inv(s, issued) && Next(s, step, t)
    ensures Settling(t)
  {
    hide Next, Shaped, Backed, InScans, InRepair, Described, Placement, Bounded, Remembered, LiveEntry, Doomed, SettledRecord;
    forall r | InScans(t.memory, r) || InRepair(t.memory, r) ensures Backed(t, r) { ScannedStayBacked(s, step, t, r); }
    forall e | e in t.disk.app.entries ensures Remembered(t.memory, e) || LiveEntry(t.disk, e) {
      if s.memory.repair.Some? { LeftOfScan(s, issued); }
      EntriesStayKnown(s, step, t, e);
    }
    forall k, r | Doomed(t, k) && k in t.disk.logs && r in t.disk.logs[k].records ensures SettledRecord(t, k.user, r) {
      DoomedStaysSettled(s, step, t, k, issued);
    }
    forall k | Doomed(t, k) ensures k in t.disk.logs { DoomedIsLogged(t, k); }
    if t.memory.repair.Some? {
      var now := t.memory.repair.value;
      forall x | x in now.records
        ensures EntryFor(AppJournal, x) in t.disk.app.entries || (!now.appDone && EntryFor(AppJournal, x) in now.left)
      {
        AppProgress(s, step, t, x);
      }
      forall x | now.appDone && x in now.records && Wants(UserJournal(now.user), x)
        ensures EntryFor(UserJournal(now.user), x) in UserJournalOf(t.disk, now.user).entries || EntryFor(UserJournal(now.user), x) in now.left
      {
        UserProgress(s, step, t, x);
      }
    }
  }

  lemma {:induction false} DoomedIsLogged(s: Store, k: Key)
    requires Doomed(s, k)
    ensures k in s.disk.logs
  {}

  /** Every step of every operation keeps the invariant, as long as no event goes to a session with a pending deletion. */
  lemma {:induction false} InvStep(s: Store, step: Step, t: Store, issued: Registry) returns (now: Registry)
    requires Inv(s, issued) && Next(s, step, t) && AvoidsPendingDelete(s, step)
    ensures Inv(t, now)
  {
    hide Next, Placement, Settling, Bounded, Shaped, Described, IsRegistry;
    now := KeepsDescribed(s, step, t, issued);
    KeepsBounded(s, step, t, issued);
    KeepsPlacement(s, step, t, issued);
    KeepsShaped(s, step, t);
    KeepsSettling(s, step, t, issued);
  }
}
