/** What every run of the session store guarantees, and the one thing callers must not do. */
module StoreSafety {
  import opened Wrappers
  import opened StoreState
  import opened StoreJournal
  import opened StoreProtocol
  import opened StoreInvariant
  import opened StoreSteps

  // Runs, with crashes anywhere.

  ghost predicate IsPath(states: seq<Store>, steps: seq<Step>) {
    && |states| == |steps| + 1
    && forall i :: 0 <= i < |steps| ==> Next(states[i], steps[i], states[i + 1])
  }

  predicate Careful(states: seq<Store>, steps: seq<Step>)
    requires |states| == |steps| + 1
  {
    forall i :: 0 <= i < |steps| ==> AvoidsPendingDelete(states[i], steps[i])
  }

  ghost predicate IsRun(states: seq<Store>, steps: seq<Step>) {
    IsPath(states, steps) && states[0] == EMPTY_STORE && Careful(states, steps)
  }

  lemma {:induction false} InvAlongPath(states: seq<Store>, steps: seq<Step>, issued: Registry, n: nat) returns (now: Registry)
    requires IsPath(states, steps) && Careful(states, steps) && Inv(states[0], issued) && n < |states|
    ensures Inv(states[n], now)
  {
    hide Inv, Next;
    now := issued;
    for i := 0 to n
      invariant Inv(states[i], now)
    {
      now := InvStep(states[i], steps[i], states[i + 1], now);
    }
  }

  lemma {:induction false} InvAlongRun(states: seq<Store>, steps: seq<Step>, n: nat) returns (now: Registry)
    requires IsRun(states, steps) && n < |states|
    ensures Inv(states[n], now)
  {
    hide Inv, Next;
    InvInitially();
    now := InvAlongPath(states, steps, map[], n);
  }

  // Identity.

  /** A stored copy: a transcript record, a create marker, or an entry of the app journal or a user journal. */
  ghost predicate Stored(d: Disk, id: RecordId, order: Order) {
    || (exists r :: (InLogs(d, r) || InMarkers(d, r)) && r.id == id && r.order == order)
    || (exists e :: e in d.app.entries && e.id == id && e.order == order)
    || (exists u, e :: InUsers(d, u, e) && e.id == id && e.order == order)
  }

  lemma {:induction false} StoredIsIssued(s: Store, issued: Registry, id: RecordId, order: Order)
    requires IsRegistry(issued) && Described(s, issued) && Stored(s.disk, id, order)
    ensures order in issued && issued[order].id == id
  {
    if r :| (InLogs(s.disk, r) || InMarkers(s.disk, r)) && r.id == id && r.order == order {
      assert Published(s, r) && Issued(issued, r);
    } else if e :| e in s.disk.app.entries && e.id == id && e.order == order {
      assert IssuedEntry(issued, AppJournal, e);
    } else {
      var u, e :| InUsers(s.disk, u, e) && e.id == id && e.order == order;
      assert IssuedEntry(issued, UserJournal(u), e);
    }
  }

  /** Two stored copies share an order exactly when they share a logical identity, in every state of every run. */
  lemma {:induction false} OrderIsIdentity(states: seq<Store>, steps: seq<Step>, n: nat, id1: RecordId, order1: Order, id2: RecordId, order2: Order)
    requires IsRun(states, steps) && n < |states|
    requires Stored(states[n].disk, id1, order1) && Stored(states[n].disk, id2, order2)
    ensures id1 == id2 <==> order1 == order2
  {
    hide IsRun, Stored, Described, Bounded, Placement, Shaped, Settling, InLogs, InMarkers, InUsers;
    var issued := InvAlongRun(states, steps, n);
    StoredIsIssued(states[n], issued, id1, order1);
    StoredIsIssued(states[n], issued, id2, order2);
  }

  /** A transcript holds one record per event ID of its incarnation, however often appends were retried, and is never garbled. */
  lemma {:induction false} TranscriptsStayWhole(states: seq<Store>, steps: seq<Step>, n: nat, k: Key)
    requires IsRun(states, steps) && n < |states| && k in states[n].disk.logs
    ensures var l := states[n].disk.logs[k];
      && !l.tail.Garbled? && l.records != [] && l.records[0].id == CreateId(k.user, k.session, l.incarnation)
      && forall i, j :: 0 <= i < j < |l.records| ==> l.records[i].id != l.records[j].id
  {
    hide IsRun, Described, Bounded, Placement, Settling, IsRegistry;
    var issued := InvAlongRun(states, steps, n);
    assert LogShape(k, states[n].disk.logs[k]);
  }

  // Whose deltas a journal holds.

  /** In every state of every run, a user's journal holds that user's deltas only. */
  lemma {:induction false} UserJournalsAreOwn(states: seq<Store>, steps: seq<Step>, n: nat, u: string, e: Entry)
    requires IsRun(states, steps) && n < |states|
    requires u in states[n].disk.users && e in states[n].disk.users[u].entries
    ensures e.id.user == u
  {
    hide IsRun, Bounded, Placement, Shaped, Settling, Published, InOps;
    var issued := InvAlongRun(states, steps, n);
    assert InUsers(states[n].disk, u, e);
    assert IssuedEntry(issued, UserJournal(u), e);
  }

  /** A journal entry and a transcript record of one identity tell the same: the app delta, or its own user's delta. */
  lemma {:induction false} EntriesTellRecords(states: seq<Store>, steps: seq<Step>, n: nat, e: Entry, k: Key, r: StateRecord)
    requires IsRun(states, steps) && n < |states| && k in states[n].disk.logs && r in states[n].disk.logs[k].records && e.id == r.id
    ensures e in states[n].disk.app.entries ==> e == Entry(r.id, r.order, r.app)
    ensures forall u :: u in states[n].disk.users && e in states[n].disk.users[u].entries ==> u == k.user == r.user && e == Entry(r.id, r.order, r.userDelta)
  {
    hide IsRun, Bounded, Placement, Settling, InOps, OpShape, RepairShape;
    var issued := InvAlongRun(states, steps, n);
    var d := states[n].disk;
    assert InLogs(d, r) && Published(states[n], r) && Issued(issued, r);
    LoggedUser(states[n], issued, k, r);
    if e in d.app.entries { assert IssuedEntry(issued, AppJournal, e); }
    forall u | u in d.users && e in d.users[u].entries ensures u == k.user == r.user && e == Entry(r.id, r.order, r.userDelta) {
      assert InUsers(d, u, e);
      assert IssuedEntry(issued, UserJournal(u), e);
    }
  }

  /** What is reserved is what was asked for, and what is committed is what was reserved. */
  lemma {:induction false} CreatedAsAsked(s: Store, k: Key, app: State, userDelta: State, t: Store)
    requires Next(s, CreateReserve(k, app, userDelta), t)
    ensures k in t.memory.ops && t.memory.ops[k].CreateReserved?
    ensures var r := t.memory.ops[k].record;
      r.app == app && r.userDelta == userDelta && r.user == k.user && r.id == CreateId(k.user, k.session, r.order)
  {}

  lemma {:induction false} AppendedAsAsked(s: Store, k: Key, event: string, app: State, userDelta: State, t: Store)
    requires Next(s, AppendReserve(k, event, app, userDelta), t)
    ensures k in s.disk.logs && k in t.memory.ops && t.memory.ops[k].Appending?
    ensures var r := t.memory.ops[k].record;
      r.app == app && r.userDelta == userDelta && r.user == k.user && r.id == EventId(k.user, k.session, s.disk.logs[k].incarnation, event)
  {}

  lemma {:induction false} CommittedAsReserved(s: Store, k: Key, t: Store)
    requires Next(s, CreateCommit(k), t) || (Next(s, AppendCommit(k), t) && k in s.disk.logs && s.disk.logs[k].tail.Clean?)
    ensures k in s.memory.ops && (s.memory.ops[k].CreateMarked? || s.memory.ops[k].Appending?)
    ensures k in t.disk.logs && t.disk.logs[k].records != [] && t.disk.logs[k].records[|t.disk.logs[k].records| - 1] == s.memory.ops[k].record
  {}

  // Repairs are never refused.

  lemma {:induction false} IssuedEntriesAgree(issued: Registry, kind: JournalKind, es: seq<Entry>)
    requires IsRegistry(issued) && forall e :: e in es ==> IssuedEntry(issued, kind, e)
    ensures Consistent(es)
  {}

  lemma {:induction false} ScanAgrees(s: Store, issued: Registry, kind: JournalKind, journal: seq<Entry>, records: seq<StateRecord>)
    requires IsRegistry(issued) && Distinct(journal)
    requires forall e :: e in journal ==> IssuedEntry(issued, kind, e)
    requires forall r :: r in records ==> Issued(issued, r)
    ensures Additions(journal, EntriesFor(kind, records)).Some?
  {
    hide Additions, EntriesFor, Distinct, IsRegistry;
    EntriesForMembers(kind, records);
    AdditionsSomeIff(journal, EntriesFor(kind, records));
    IssuedEntriesAgree(issued, kind, journal + EntriesFor(kind, records));
  }

  /** Neither journal ever contradicts what a scan has read, even a scan older than later deletions. */
  lemma {:induction false} RepairNeverRefused(states: seq<Store>, steps: seq<Step>, n: nat, records: seq<StateRecord>, user: string)
    requires IsRun(states, steps) && n < |states|
    requires forall r :: r in records ==> InScans(states[n].memory, r) || InRepair(states[n].memory, r) || InLogs(states[n].disk, r)
    ensures Additions(states[n].disk.app.entries, EntriesFor(AppJournal, records)).Some?
    ensures Additions(UserJournalOf(states[n].disk, user).entries, EntriesFor(UserJournal(user), records)).Some?
  {
    hide IsRun, Bounded, Placement, Settling, IsRegistry, Additions, EntriesFor, InScans, InLogs, InRepair, Published;
    var issued := InvAlongRun(states, steps, n);
    var s := states[n];
    WhereverPublished(s);
    AppIsDistinct(s);
    UserIsDistinct(s, user);
    ScanAgrees(s, issued, AppJournal, s.disk.app.entries, records);
    UsersDescribed(s, issued, user);
    ScanAgrees(s, issued, UserJournal(user), UserJournalOf(s.disk, user).entries, records);
  }

  lemma {:induction false} UsersDescribed(s: Store, issued: Registry, user: string)
    requires Described(s, issued)
    ensures forall e :: e in UserJournalOf(s.disk, user).entries ==> IssuedEntry(issued, UserJournal(user), e)
  {
    forall e | e in UserJournalOf(s.disk, user).entries ensures IssuedEntry(issued, UserJournal(user), e) {
      assert InUsers(s.disk, user, e);
    }
  }

  // Loss.

  /** The app delta and the user delta of a record are each in a live transcript or in their journal. */
  ghost predicate Kept(s: Store, r: StateRecord) {
    || InLogs(s.disk, r)
    || (EntryFor(AppJournal, r) in s.disk.app.entries && EntryFor(UserJournal(r.user), r) in UserJournalOf(s.disk, r.user).entries)
  }

  lemma {:induction false} KeptStays(s: Store, step: Step, t: Store, issued: Registry, r: StateRecord)
    requires Inv(s, issued) && Next(s, step, t) && Kept(s, r)
    ensures Kept(t, r)
  {
    hide Next, Shaped, Settling, Described, Bounded, Placement, IsRegistry;
    AppGrows(s, step, t);
    UsersGrow(s, step, t, r.user);
    if k :| k in s.disk.logs && r in s.disk.logs[k].records {
      LoggedStays(s, step, t, k, r);
      LoggedUser(s, issued, k, r);
      if k in t.disk.logs && r in t.disk.logs[k].records { assert InLogs(t.disk, r); }
    }
  }

  lemma {:induction false} KeptAlongPath(states: seq<Store>, steps: seq<Step>, issued: Registry, m: nat, n: nat, r: StateRecord)
    requires IsPath(states, steps) && Careful(states, steps) && Inv(states[0], issued)
    requires m <= n < |states| && Kept(states[m], r)
    ensures Kept(states[n], r)
  {
    hide Inv, Next, Kept;
    for i := m to n
      invariant Kept(states[i], r)
    {
      var now := InvAlongPath(states, steps, issued, i);
      KeptStays(states[i], steps[i], states[i + 1], now, r);
    }
  }

  /** No committed delta is ever lost: once in a transcript, a record stays kept through every later step and crash. */
  lemma {:induction false} NothingLost(states: seq<Store>, steps: seq<Step>, m: nat, n: nat, k: Key, r: StateRecord)
    requires IsRun(states, steps) && m <= n < |states|
    requires k in states[m].disk.logs && r in states[m].disk.logs[k].records
    ensures Kept(states[n], r)
  {
    hide Inv, Next;
    InvInitially();
    assert InLogs(states[m].disk, r);
    KeptAlongPath(states, steps, map[], m, n, r);
  }

  // The caller's condition is exact.

  ghost predicate Continues(t: Store, states: seq<Store>, steps: seq<Step>) {
    IsPath(states, steps) && states[0] == t && Careful(states, steps)
  }

  /** Whatever happens after `t`, once record `r` is in a transcript it stays kept. */
  ghost predicate SafeAfter(t: Store, r: StateRecord) {
    forall states: seq<Store>, steps: seq<Step> :: Continues(t, states, steps) ==>
      forall m, n :: 0 <= m <= n < |states| && InLogs(states[m].disk, r) ==> Kept(states[n], r)
  }

  function Committed(t: Store, k: Key): Store
    requires k in t.memory.ops && t.memory.ops[k].Appending? && k in t.disk.logs
  {
    var l := t.disk.logs[k].(records := t.disk.logs[k].records + [t.memory.ops[k].record]);
    WithoutOp(t.(disk := t.disk.(logs := t.disk.logs[k := l])), k)
  }

  function Resumed(t: Store, k: Key): Store
    requires k in t.disk.logs
  {
    WithOp(t.(disk := t.disk.(logs := t.disk.logs[k := LoadedLog(t.disk.logs[k])])), k, DeleteMarked)
  }

  function Unlogged(t: Store, k: Key): Store { WithOp(t.(disk := t.disk.(logs := t.disk.logs - {k})), k, DeleteUnlogged) }

  /** The append, then a retried delete of the session, which does not scan again. */
  function AppendThenDelete(t: Store, k: Key): (r: (seq<Store>, seq<Step>))
    requires k in t.memory.ops && t.memory.ops[k].Appending? && k in t.disk.logs
  {
    var t1 := Committed(t, k);
    var t2 := Resumed(t1, k);
    ([t, t1, t2, Unlogged(t2, k)], [AppendCommit(k), ResumeDelete(k), DeleteLog(k)])
  }

  lemma {:induction false} CanCommit(t: Store, k: Key)
    requires k in t.memory.ops && t.memory.ops[k].Appending? && k in t.disk.logs && t.disk.logs[k].tail.Clean?
    ensures Next(t, AppendCommit(k), Committed(t, k))
  {}

  lemma {:induction false} CanResume(t: Store, k: Key)
    requires Idle(t, k) && k in t.disk.deleting && k in t.disk.logs
    requires t.disk.deleting[k] == t.disk.logs[k].incarnation && !t.disk.logs[k].tail.Garbled?
    ensures Next(t, ResumeDelete(k), Resumed(t, k))
  {}

  lemma {:induction false} CanDeleteLog(t: Store, k: Key)
    requires At(t, k, DeleteMarked)
    ensures Next(t, DeleteLog(k), Unlogged(t, k))
  {}

  lemma {:induction false} AppendReserved(s: Store, step: Step, t: Store)
    requires Next(s, step, t) && step.AppendReserve?
    ensures var k := step.k;
      && k in t.memory.ops && t.memory.ops[k].Appending? && k in t.disk.logs && k in s.disk.logs
      && t.disk.logs == s.disk.logs[k := LoadedLog(s.disk.logs[k])] && t.disk.logs[k].tail.Clean?
      && t.disk.deleting == s.disk.deleting && t.disk.app == s.disk.app
      && Reserves(s, step, t.memory.ops[k].record)
  {}

  lemma {:induction false} LostPath(s: Store, step: Step, t: Store)
    requires Shaped(s) && Next(s, step, t) && step.AppendReserve? && step.k in s.disk.deleting
    ensures step.k in t.memory.ops && t.memory.ops[step.k].Appending? && step.k in t.disk.logs
    ensures var (states, steps) := AppendThenDelete(t, step.k); Continues(t, states, steps)
  {
    hide Shaped, Next;
    AppendReserved(s, step, t);
    var k := step.k;
    ShapeAt(s, k);
    var t1 := Committed(t, k);
    var t2 := Resumed(t1, k);
    CanCommit(t, k);
    CanResume(t1, k);
    CanDeleteLog(t2, k);
  }

  lemma {:induction false} LostRecord(s: Store, step: Step, t: Store, issued: Registry)
    requires Inv(s, issued) && Next(s, step, t) && step.AppendReserve? && step.k in s.disk.deleting
    ensures step.k in t.memory.ops && t.memory.ops[step.k].Appending? && step.k in t.disk.logs
    ensures var (states, steps) := AppendThenDelete(t, step.k);
      var r := t.memory.ops[step.k].record;
      InLogs(states[1].disk, r) && !Kept(states[3], r)
  {
    hide Next, Shaped, Settling, Described, Bounded, Placement, IsRegistry, Reserves, Fresh, InLogs;
    AppendReserved(s, step, t);
    var k, r := step.k, t.memory.ops[step.k].record;
    ReservedIsFresh(s, step, t, issued, r);
    FreshIsGone(s, t, k, r);
  }

  lemma {:induction false} FreshIsGone(s: Store, t: Store, k: Key, r: StateRecord)
    requires Fresh(s, r) && k in t.memory.ops && t.memory.ops[k] == Appending(r) && k in t.disk.logs && k in s.disk.logs
    requires t.disk.logs == s.disk.logs[k := LoadedLog(s.disk.logs[k])] && t.disk.app == s.disk.app
    ensures InLogs(Committed(t, k).disk, r) && !Kept(Unlogged(Resumed(Committed(t, k), k), k), r)
  {
    var t1 := Committed(t, k);
    var t3 := Unlogged(Resumed(t1, k), k);
    assert k in t1.disk.logs && r in t1.disk.logs[k].records;
    forall x | InLogs(t3.disk, x) ensures x.order != r.order {
      var j :| j in t3.disk.logs && x in t3.disk.logs[j].records;
      assert j in s.disk.logs && x in s.disk.logs[j].records;
      assert InLogs(s.disk, x) && Published(s, x);
    }
  }

  /** An append loses nothing, whatever follows, exactly when no delete marker of its session is pending. */
  lemma {:induction false} AppendSafeIff(s: Store, step: Step, t: Store, issued: Registry)
    requires Inv(s, issued) && Next(s, step, t) && step.AppendReserve?
    ensures step.k in t.memory.ops && t.memory.ops[step.k].Appending?
    ensures SafeAfter(t, t.memory.ops[step.k].record) <==> step.k !in s.disk.deleting
  {
    hide Inv, Next, Kept, InLogs, IsPath;
    AppendReserved(s, step, t);
    var r := t.memory.ops[step.k].record;
    if step.k in s.disk.deleting {
      var (states, steps) := AppendThenDelete(t, step.k);
      InvShaped(s, issued);
      LostPath(s, step, t);
      LostRecord(s, step, t, issued);
      assert Continues(t, states, steps) && InLogs(states[1].disk, r) && !Kept(states[3], r);
    } else {
      var now := InvStep(s, step, t, issued);
      forall states: seq<Store>, steps: seq<Step> | Continues(t, states, steps)
        ensures forall m, n :: 0 <= m <= n < |states| && InLogs(states[m].disk, r) ==> Kept(states[n], r)
      {
        forall m, n | 0 <= m <= n < |states| && InLogs(states[m].disk, r) ensures Kept(states[n], r) {
          LoggedIsKept(states[m], r);
          KeptAlongPath(states, steps, now, m, n, r);
        }
      }
    }
  }

  lemma {:induction false} LoggedIsKept(s: Store, r: StateRecord)
    requires InLogs(s.disk, r)
    ensures Kept(s, r)
  {}

  lemma {:induction false} InvShaped(s: Store, issued: Registry)
    requires Inv(s, issued)
    ensures Shaped(s)
  {}
}
