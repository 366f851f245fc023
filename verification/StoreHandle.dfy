/**
 * Calls through one session handle, with retries, appends that were committed but reported as failed, and handles that
 * were given only recent events: transcript, journals and handle after each call, and what a replay from disk reads.
 */
module StoreHandle {
  import opened Wrappers
  import opened Sequences
  import opened StoreState
  import opened StoreJournal
  import opened StoreProjection
  import opened StoreProtocol
  import opened StoreInvariant
  import opened StoreSafety
  import opened StoreSession

  /** The shared-state journals of the application and of the session's user. */
  datatype Journals = Journals(app: seq<Entry>, user: seq<Entry>)

  /**
   * One call, with the order reserved for its event and the records that a scan of all transcripts finds after it, in
   * any arrangement. When `reported` is false the call fails after the transcript was written: nothing is repaired and
   * the handle is not told.
   */
  datatype Attempt = Attempt(event: Event, reported: bool, order: Order, scan: seq<StateRecord>)

  /**
   * `stored` is the transcript and `records` what it says about shared state, the header first; `known` are the handle's
   * events, and `seen` the events whose deltas its state carries, in the order it took them. A handle that was given
   * only recent events knows fewer than it has seen. `shown` are the journals behind the handle's shared keys, `found`
   * those a replay finds once it has repaired them from the transcripts.
   */
  datatype World = World(
    key: Key,
    incarnation: Order,
    stored: seq<Event>,
    records: seq<StateRecord>,
    seen: seq<Event>,
    known: seq<Event>,
    shown: Journals,
    found: Journals)

  predicate Appends(w: World, e: Event) { !e.partial && e.id != "" && !HasEvent(w.stored, e.id) }

  predicate Replays(w: World, e: Event) { !e.partial && e.id != "" && HasEvent(w.stored, e.id) && ToStore(e) in w.stored }

  /** The call succeeds and brings the handle up to date. */
  predicate Updates(w: World, a: Attempt) { a.reported && (Appends(w, a.event) || Replays(w, a.event)) }

  /** The call makes the handle take up its event. */
  predicate Takes(w: World, a: Attempt) { Updates(w, a) && (Appends(w, a.event) || !HasEvent(w.known, a.event.id)) }

  /** The keys of a delta under a prefix, without it. */
  function Part(delta: State, prefix: string): State {
    map j | j in (set k | k in delta && HasPrefix(k, prefix) :: Trim(k, prefix)) && prefix + j in delta :: delta[prefix + j]
  }

  /** It is what `SplitState` computes. */
  lemma {:induction false} PartOfSplit(delta: State, split: Split)
    requires IsSplit(delta, split)
    ensures Part(delta, APP_PREFIX) == split.app && Part(delta, USER_PREFIX) == split.user
  {
    PartIsScope(delta, APP_PREFIX);
    PartIsScope(delta, USER_PREFIX);
    ScopeUnique(delta, APP_PREFIX, Part(delta, APP_PREFIX), split.app);
    ScopeUnique(delta, USER_PREFIX, Part(delta, USER_PREFIX), split.user);
  }

  lemma {:induction false} PartIsScope(delta: State, prefix: string)
    ensures IsScope(delta, prefix, Part(delta, prefix))
  {
    forall k: string | k in delta && HasPrefix(k, prefix) ensures k[|prefix|..] in Part(delta, prefix) {
      TrimPrefix(k, prefix);
      assert Trim(k, prefix) in (set x | x in delta && HasPrefix(x, prefix) :: Trim(x, prefix));
    }
  }

  function RecordOf(w: World, e: Event, order: Order): StateRecord {
    EventRecord(w.key, w.incarnation, e.id, order, Part(e.delta, APP_PREFIX), Part(e.delta, USER_PREFIX))
  }

  function RecordsAfter(w: World, a: Attempt): seq<StateRecord> {
    if Appends(w, a.event) then w.records + [RecordOf(w, ToStore(a.event), a.order)] else w.records
  }

  /** A journal after a repair; one that contradicts the scan is left as it is. */
  function Repaired(journal: seq<Entry>, wanted: seq<Entry>): seq<Entry> {
    match Additions(journal, wanted)
    case None => journal
    case Some(additions) => journal + additions
  }

  function RepairedBoth(j: Journals, user: string, scan: seq<StateRecord>): Journals {
    Journals(Repaired(j.app, EntriesFor(AppJournal, scan)), Repaired(j.user, EntriesFor(UserJournal(user), scan)))
  }

  function After(w: World, a: Attempt): World {
    var e, found := ToStore(a.event), RepairedBoth(w.found, w.key.user, a.scan);
    var t := w.(stored := Attempted(w.stored, a.event), records := RecordsAfter(w, a), found := found);
    if Takes(w, a) then t.(seen := w.seen + [e], known := w.known + [e], shown := found)
    else if Updates(w, a) then t.(shown := found)
    else t
  }

  function AfterAll(w: World, attempts: seq<Attempt>): World {
    if attempts == [] then w else After(AfterAll(w, attempts[..|attempts| - 1]), attempts[|attempts| - 1])
  }

  /** The shared state of a journal. */
  function Shared(journal: seq<Entry>): State { AllApplied(NOTHING, SortByOrder(journal)).state }

  predicate SameShared(one: Journals, two: Journals) { Shared(one.app) == Shared(two.app) && Shared(one.user) == Shared(two.user) }

  /** The handle's state is the replayed one, session keys and shared keys. */
  predicate Mirrors(header: State, w: World) { LocalState(header, w.seen) == LocalState(header, w.stored) && SameShared(w.shown, w.found) }

  ghost predicate Showing(header: State, w: World, state: State) {
    IsMerge(LocalState(header, w.seen), Shared(w.shown.app), Shared(w.shown.user), state)
  }

  // What ties the journals to the transcripts.

  /** The scan reads all of this session's transcript, and other sessions' records; orders and identities are one to one. */
  ghost predicate Lawful(w: World, a: Attempt, issued: Registry) {
    && (forall r :: r in a.scan ==> Issued(issued, r))
    && (forall r :: r in RecordsAfter(w, a) ==> r in a.scan)
    && (forall r :: r in a.scan && KeyOf(r.id) == w.key ==> r in RecordsAfter(w, a))
  }

  ghost predicate AllLawful(w0: World, attempts: seq<Attempt>, issued: Registry) {
    forall i :: 0 <= i < |attempts| ==> Lawful(AfterAll(w0, attempts[..i]), attempts[i], issued)
  }

  /** Journal `found` holds an entry for every record of the session, and only entries of issued records. */
  ghost predicate Covering(issued: Registry, kind: JournalKind, shown: seq<Entry>, found: seq<Entry>, records: seq<StateRecord>) {
    && Distinct(found) && shown <= found
    && (forall e :: e in found ==> IssuedEntry(issued, kind, e))
    && (forall r :: r in records ==> Wants(kind, r) && EntryFor(kind, r) in found)
  }

  /** The transcript's records are those of its header and its events, in order. */
  predicate Recorded(w: World) {
    && |w.records| == |w.stored| + 1 && w.records[0].id == CreateId(w.key.user, w.key.session, w.incarnation) && w.records[0].user == w.key.user
    && forall i :: 0 <= i < |w.stored| ==> w.records[i + 1] == RecordOf(w, w.stored[i], w.records[i + 1].order)
  }

  ghost predicate Regular(w: World, issued: Registry) {
    && IsRegistry(issued) && Recorded(w)
    && Covering(issued, AppJournal, w.shown.app, w.found.app, w.records)
    && Covering(issued, UserJournal(w.key.user), w.shown.user, w.found.user, w.records)
  }

  lemma {:induction false} RepairOf(issued: Registry, kind: JournalKind, journal: seq<Entry>, scan: seq<StateRecord>)
    requires IsRegistry(issued) && Distinct(journal) && forall e :: e in journal ==> IssuedEntry(issued, kind, e)
    requires forall r :: r in scan ==> Issued(issued, r)
    ensures var wanted := EntriesFor(kind, scan); var now := Repaired(journal, wanted);
      && Additions(journal, wanted).Some? && Distinct(now) && journal <= now
      && (forall e :: e in now ==> IssuedEntry(issued, kind, e))
      && (forall e :: e in now <==> e in journal || e in wanted)
  {
    hide Additions, EntriesFor, Distinct, IsRegistry;
    ScanAgrees(EMPTY_STORE, issued, kind, journal, scan);
    AdditionsComplete(journal, EntriesFor(kind, scan));
    EntriesForMembers(kind, scan);
  }

  lemma {:induction false} CoveringStays(issued: Registry, kind: JournalKind, shown: seq<Entry>, found: seq<Entry>, records: seq<StateRecord>,
                                         more: seq<StateRecord>, scan: seq<StateRecord>)
    requires IsRegistry(issued) && Covering(issued, kind, shown, found, records)
    requires forall r :: r in scan ==> Issued(issued, r)
    requires forall r :: r in more ==> r in scan && Wants(kind, r)
    ensures var now := Repaired(found, EntriesFor(kind, scan));
      Covering(issued, kind, shown, now, more) && Covering(issued, kind, now, now, more)
  {
    hide Repaired, EntriesFor, Distinct, IsRegistry;
    RepairOf(issued, kind, found, scan);
    EntriesForMembers(kind, scan);
  }

  lemma {:induction false} RecordedStays(w: World, a: Attempt)
    requires Recorded(w)
    ensures Recorded(After(w, a)) && forall r :: r in RecordsAfter(w, a) ==> r.user == w.key.user
  {
    hide RepairedBoth, Part;
    var t := After(w, a);
    forall i | 0 <= i < |t.stored| ensures t.records[i + 1] == RecordOf(t, t.stored[i], t.records[i + 1].order) {
      if i < |w.stored| { assert w.records[i + 1] == RecordOf(w, w.stored[i], w.records[i + 1].order); }
    }
    forall r | r in t.records ensures r.user == w.key.user {
      var i :| 0 <= i < |t.records| && t.records[i] == r;
      if i > 0 { assert t.records[i - 1 + 1] == RecordOf(t, t.stored[i - 1], t.records[i - 1 + 1].order); }
    }
  }

  /** Every call keeps the journals tied to the transcripts. */
  lemma {:induction false} RegularStays(w: World, a: Attempt, issued: Registry)
    requires Regular(w, issued) && Lawful(w, a, issued)
    ensures Regular(After(w, a), issued)
  {
    hide Repaired, EntriesFor, Covering, IsRegistry, Recorded, RecordsAfter;
    RecordedStays(w, a);
    CoveringStays(issued, AppJournal, w.shown.app, w.found.app, w.records, RecordsAfter(w, a), a.scan);
    CoveringStays(issued, UserJournal(w.key.user), w.shown.user, w.found.user, w.records, RecordsAfter(w, a), a.scan);
  }

  lemma {:induction false} RegularAlong(w0: World, attempts: seq<Attempt>, issued: Registry, n: nat)
    requires Regular(w0, issued) && AllLawful(w0, attempts, issued) && n <= |attempts|
    ensures Regular(AfterAll(w0, attempts[..n]), issued)
  {
    hide Regular, Lawful, After;
    if n == 0 {
      AfterNone(w0, attempts);
    } else {
      RegularAlong(w0, attempts, issued, n - 1);
      AfterSnoc(w0, attempts, n - 1);
      RegularStays(AfterAll(w0, attempts[..n - 1]), attempts[n - 1], issued);
    }
  }

  /** Whatever was reported: after any calls, both journals a replay finds hold the deltas of every stored event. */
  lemma {:induction false} StoredAreFound(w0: World, attempts: seq<Attempt>, issued: Registry, i: nat)
    requires Regular(w0, issued) && AllLawful(w0, attempts, issued) && i < |AfterAll(w0, attempts).stored|
    ensures var w := AfterAll(w0, attempts);
      && |w.records| == |w.stored| + 1
      && var r := w.records[i + 1];
      && r.id == EventId(w.key.user, w.key.session, w.incarnation, w.stored[i].id)
      && Entry(r.id, r.order, Part(w.stored[i].delta, APP_PREFIX)) in w.found.app
      && Entry(r.id, r.order, Part(w.stored[i].delta, USER_PREFIX)) in w.found.user
  {
    hide AfterAll, Part, IsRegistry, Distinct;
    assert attempts[..|attempts|] == attempts;
    RegularAlong(w0, attempts, issued, |attempts|);
    var w := AfterAll(w0, attempts);
    assert w.records[i + 1] in w.records && w.records[i + 1] == RecordOf(w, w.stored[i], w.records[i + 1].order);
  }

  lemma {:induction false} AfterSnoc(w: World, attempts: seq<Attempt>, i: nat)
    requires i < |attempts|
    ensures AfterAll(w, attempts[..i + 1]) == After(AfterAll(w, attempts[..i]), attempts[i])
  {
    assert attempts[..i + 1][..i] == attempts[..i];
  }

  lemma {:induction false} LocalSnoc(header: State, events: seq<Event>, e: Event)
    ensures LocalState(header, events + [ToStore(e)]) == LocalState(header, events) + Local(e.delta)
  {
    assert (events + [ToStore(e)])[..|events|] == events;
    assert Local(Durable(e.delta)) == Local(e.delta);
  }

  lemma {:induction false} LocalOnlySession(header: State, events: seq<Event>)
    requires OnlySession(header)
    ensures OnlySession(LocalState(header, events))
  {
    if events != [] { LocalOnlySession(header, events[..|events| - 1]); }
  }

  // The run of calls.

  lemma {:induction false} SortedMembers(es: seq<Entry>)
    ensures forall e :: e in es <==> e in SortByOrder(es)
  {
    SortIsOrdered(es);
    forall e ensures e in es <==> e in SortByOrder(es) {
      assert e in es <==> e in multiset(es);
      assert e in SortByOrder(es) <==> e in multiset(SortByOrder(es));
    }
  }

  /** While a journal only grows, its shared state loses no key. */
  lemma {:induction false} GrowingJournalsKeepKeys(before: seq<Entry>, after: seq<Entry>, k: string)
    requires before <= after && k in Shared(before)
    ensures k in Shared(after)
  {
    hide AllApplied, SortByOrder;
    SortedMembers(before);
    SortedMembers(after);
    ProjectionKeepsKeys(SortByOrder(before), SortByOrder(after), k);
  }

  lemma {:induction false} BareKeysGrow(app0: seq<Entry>, user0: seq<Entry>, app: seq<Entry>, user: seq<Entry>)
    requires app0 <= app && user0 <= user
    ensures BareKeysStay(Shared(app0), Shared(user0), Shared(app), Shared(user))
  {
    hide Shared;
    if "" in Shared(app0) { GrowingJournalsKeepKeys(app0, app, ""); }
    if "" in Shared(user0) { GrowingJournalsKeepKeys(user0, user, ""); }
  }

  lemma {:induction false} CarriesUnique(merged: State, prefix: string, one: State, two: State)
    requires Carries(merged, prefix, one) && Carries(merged, prefix, two)
    ensures one == two
  {
    forall k: string ensures (k in one <==> k in two) && (k in one ==> one[k] == two[k]) {
      TrimPrefix(k, prefix);
      assert HasPrefix(prefix + k, prefix);
    }
  }

  lemma {:induction false} SessionOfView(one: State, two: State, app: State, user: State, m: State)
    requires OnlySession(one) && OnlySession(two) && IsMerge(one, app, user, m) && IsMerge(two, app, user, m)
    ensures one == two
  {
    forall k: string ensures (k in one <==> k in two) && (k in one ==> one[k] == two[k]) {
      if ScopeOf(k).SessionScope? { assert Shows(m, k, one, app, user) && Shows(m, k, two, app, user); }
    }
  }

  lemma {:induction false} SharedOfView(one: State, two: State, app1: State, user1: State, app2: State, user2: State, m: State)
    requires OnlySession(one) && OnlySession(two) && IsMerge(one, app1, user1, m) && IsMerge(two, app2, user2, m)
    ensures app1 == app2 && user1 == user2
  {
    hide IsMerge, Carries;
    CarriedApp(one, app1, user1, m);
    CarriedApp(two, app2, user2, m);
    CarriesUnique(m, APP_PREFIX, app1, app2);
    CarriedUser(one, app1, user1, m);
    CarriedUser(two, app2, user2, m);
    CarriesUnique(m, USER_PREFIX, user1, user2);
  }

  /** Two merged views agree exactly when their session keys and their shared keys do. */
  lemma {:induction false} SameViewIff(one: State, two: State, app1: State, user1: State, app2: State, user2: State, m: State, n: State)
    requires OnlySession(one) && OnlySession(two) && IsMerge(one, app1, user1, m) && IsMerge(two, app2, user2, n)
    ensures m == n <==> one == two && app1 == app2 && user1 == user2
  {
    hide IsMerge, OnlySession;
    if one == two && app1 == app2 && user1 == user2 { MergeUnique(one, app1, user1, m, n); }
    if m == n {
      SharedOfView(one, two, app1, user1, app2, user2, m);
      SessionOfView(one, two, app1, user1, m);
    }
  }

  /** The handle's view against a replay of the same moment. */
  lemma {:induction false} ShowsReplayIff(header: State, w: World, shown: State, replayed: State)
    requires OnlySession(header) && Showing(header, w, shown)
    requires IsMerge(LocalState(header, w.stored), Shared(w.found.app), Shared(w.found.user), replayed)
    ensures shown == replayed <==> Mirrors(header, w)
  {
    hide IsMerge, LocalState, OnlySession, Shared;
    LocalOnlySession(header, w.seen);
    LocalOnlySession(header, w.stored);
    SameViewIff(LocalState(header, w.seen), LocalState(header, w.stored), Shared(w.shown.app), Shared(w.shown.user),
                Shared(w.found.app), Shared(w.found.user), shown, replayed);
  }

  datatype View = View(app: State, user: State)

  /** The two journal files. */
  class SharedFiles {
    var app: seq<Entry>
    var user: seq<Entry>

    constructor (app: seq<Entry>, user: seq<Entry>)
      ensures this.app == app && this.user == user
    {
      this.app, this.user := app, user;
    }

    /** `repairShared`: the app journal, then the user's; a contradiction stops it. */
    method Repair(owner: string, scan: seq<StateRecord>) returns (view: Option<View>)
      requires Distinct(app) && Distinct(user)
      modifies this
      ensures app == Repaired(old(app), EntriesFor(AppJournal, scan))
      ensures var stopped := Additions(old(app), EntriesFor(AppJournal, scan)).None?;
        && user == (if stopped then old(user) else Repaired(old(user), EntriesFor(UserJournal(owner), scan)))
        && (view.None? <==> stopped || Additions(old(user), EntriesFor(UserJournal(owner), scan)).None?)
      ensures view.Some? ==> view.value == View(Shared(app), Shared(user))
      ensures view.Some? ==>
        && (forall e :: e in app <==> e in old(app) || Due(AppJournal, scan, e))
        && (forall e :: e in user <==> e in old(user) || Due(UserJournal(owner), scan, e))
    {
      hide Additions, EntriesFor, Distinct, AllApplied, SortByOrder, Due, Agreeing;
      var additions := JournalAdditions(app, scan, AppJournal);
      if additions.None? { return None; }
      app := app + additions.value;
      additions := JournalAdditions(user, scan, UserJournal(owner));
      if additions.None? { return None; }
      user := user + additions.value;
      var a := ProjectJournal(app);
      var u := ProjectJournal(user);
      view := Some(View(a.state, u.state));
    }
  }

  /** Neither journal contradicts a scan, and a second repair with it changes nothing. */
  lemma {:induction false} RepairRuns(w: World, a: Attempt, issued: Registry)
    requires Regular(w, issued) && Lawful(w, a, issued)
    ensures var app, user := EntriesFor(AppJournal, a.scan), EntriesFor(UserJournal(w.key.user), a.scan);
      && Distinct(w.found.app) && Distinct(w.found.user)
      && Additions(w.found.app, app).Some? && Additions(w.found.user, user).Some?
      && var now := RepairedBoth(w.found, w.key.user, a.scan);
      && Distinct(now.app) && Distinct(now.user) && w.shown.app <= now.app && w.shown.user <= now.user
      && Additions(now.app, app) == Some([]) && Additions(now.user, user) == Some([])
      && RepairedBoth(now, w.key.user, a.scan) == now
  {
    hide EntriesFor, Distinct, IsRegistry, Recorded, Additions, RecordsAfter, IssuedEntry;
    RepairOf(issued, AppJournal, w.found.app, a.scan);
    RepairOf(issued, UserJournal(w.key.user), w.found.user, a.scan);
    RepairTwice(w.found.app, EntriesFor(AppJournal, a.scan));
    RepairTwice(w.found.user, EntriesFor(UserJournal(w.key.user), a.scan));
  }

  lemma {:induction false} RepairTwice(journal: seq<Entry>, wanted: seq<Entry>)
    requires Distinct(journal) && Additions(journal, wanted).Some?
    ensures var now := Repaired(journal, wanted); Additions(now, wanted) == Some([]) && Repaired(now, wanted) == now
  {
    hide Additions, Distinct;
    var a := Additions(journal, wanted).value;
    AdditionsRestart(journal, wanted, |a|);
    assert a[..|a|] == a && a[|a|..] == [] && Repaired(journal, wanted) == journal + a;
    assert journal + a + [] == journal + a;
  }

  /** One call of `AppendEvent` and what it does to the transcript, the journals and the handle. */
  method AppendOnce(t: Transcript, h: DurableSession, files: SharedFiles, owner: string, a: Attempt, ghost w: World, ghost issued: Registry)
    requires owner == w.key.user && UniqueIds(t.events) && OnlySession(t.header) && Regular(w, issued) && Lawful(w, a, issued)
    requires t.events == w.stored && h.events == w.known && Journals(files.app, files.user) == w.found && Showing(t.header, w, h.state)
    modifies t`events, h, files
    ensures UniqueIds(t.events)
    ensures var w' := After(w, a); t.events == w'.stored && h.events == w'.known && Showing(t.header, w', h.state)
    ensures Journals(files.app, files.user) == if Updates(w, a) then After(w, a).found else w.found
    ensures NoTemporary(w.stored) ==> NoTemporary(t.events)
  {
    hide IsMerge, AllApplied, SortByOrder, LocalState, BareKeysStay, UniqueIds, OnlySession, HeldAs, NoTemporary, Regular, Lawful, Repaired, RecordsAfter, Distinct, Additions, EntriesFor;
    var outcome := t.AppendEvent(t.incarnation, a.event);
    if !a.reported || !(outcome.Appended? || outcome.Replayed?) { return; }
    RepairRuns(w, a, issued);
    var view := files.Repair(owner, a.scan);
    var stored := ToStore(a.event);
    ghost var local := LocalState(t.header, w.seen);
    LocalOnlySession(t.header, w.seen);
    LocalSnoc(t.header, w.seen, a.event);
    LocalOfStored(a.event);
    BareKeysGrow(w.shown.app, w.shown.user, files.app, files.user);
    if outcome.Appended? {
      h.AppendCommitted(stored, view.value.app, view.value.user, local, Shared(w.shown.app), Shared(w.shown.user));
    } else {
      h.EnsureCommitted(stored, view.value.app, view.value.user, local, Shared(w.shown.app), Shared(w.shown.user));
    }
  }

  lemma {:induction false} LocalOfStored(e: Event)
    ensures Local(ToStore(e).delta) == Local(e.delta) && ToStore(e).id == e.id
  {}

  lemma {:induction false} AfterNone(w: World, attempts: seq<Attempt>)
    ensures AfterAll(w, attempts[..0]) == w
  {}

  /** Reading the session from disk, which repairs the journals first. Nothing is returned when they contradict the scan. */
  method Replay(t: Transcript, files: SharedFiles, owner: string, scan: seq<StateRecord>) returns (state: Option<State>)
    requires Distinct(files.app) && Distinct(files.user)
    modifies files
    ensures var app, user := EntriesFor(AppJournal, scan), EntriesFor(UserJournal(owner), scan);
      Additions(old(files.app), app).Some? && Additions(old(files.user), user).Some? ==>
        && state.Some? && Journals(files.app, files.user) == RepairedBoth(old(Journals(files.app, files.user)), owner, scan)
        && IsMerge(LocalState(t.header, t.events), Shared(files.app), Shared(files.user), state.value)
  {
    hide IsMerge, Additions, EntriesFor, Distinct, Shared, Repaired;
    var view := files.Repair(owner, scan);
    if view.None? { return None; }
    var merged := t.SessionState(view.value.app, view.value.user);
    state := Some(merged);
  }
}
